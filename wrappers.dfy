/** Small shared vocabulary: optional values and the handlers' HTTP outcomes. */
module Wrappers {

  /** A JavaScript value that may be `undefined` (an absent request field). */
  datatype Option<T> = None | Some(value: T) {
    function GetOr(default: T): T {
      match this
      case Some(v) => v
      case None => default
    }
  }

  /** What a route handler sends back: a success payload, or an HTTP status with its message. */
  datatype Outcome<T> = Ok(value: T) | Fail(status: int, message: string)

  const ValidationFailed := "Validation failed"
  const ServerError := "Server error"
}

/** Time as the backend sees it: millisecond timestamps, and day numbers. */
module Time {

  const MsPerDay := 86400000

  /** The day number of a timestamp: what midnight truncation and the `YYYY-MM-DD`
      day key both identify (time zones are not modelled, so local and UTC midnight coincide). */
  function Day(t: int): int {
    t / MsPerDay
  }

  /** `setDate(getDate() - n)`: the same time of day, `n` days earlier. */
  function DaysBefore(now: int, n: int): int {
    now - n * MsPerDay
  }
}

/** Mongoose `trim: true`: leading and trailing white space is dropped on assignment. */
module Text {
  import opened Wrappers

  predicate IsSpace(c: char) {
    c == ' ' || c == '\t' || c == '\n' || c == '\r' || c == '\U{B}' || c == '\U{C}'
  }

  function TrimStart(s: string): (r: string)
    ensures r == [] || !IsSpace(r[0])
    ensures |r| <= |s| && r == s[|s| - |r|..]
  {
    if s != [] && IsSpace(s[0]) then TrimStart(s[1..]) else s
  }

  function TrimEnd(s: string): (r: string)
    ensures r == [] || !IsSpace(r[|r| - 1])
    ensures |r| <= |s| && r == s[..|r|]
  {
    if s != [] && IsSpace(s[|s| - 1]) then TrimEnd(s[..|s| - 1]) else s
  }

  /** `String.prototype.trim` over the ASCII white-space characters. */
  function Trim(s: string): (r: string)
    ensures |r| <= |s|
    ensures r == [] || (!IsSpace(r[0]) && !IsSpace(r[|r| - 1]))
  {
    TrimEnd(TrimStart(s))
  }

  /** `TrimStart` drops white space and nothing else. */
  lemma {:induction false} TrimStartDropsSpace(s: string)
    ensures forall k :: 0 <= k < |s| - |TrimStart(s)| ==> IsSpace(s[k])
    decreases |s|
  {
    if s != [] && IsSpace(s[0]) {
      TrimStartDropsSpace(s[1..]);
      forall k | 1 <= k < |s| - |TrimStart(s)| ensures IsSpace(s[k]) {
        assert s[k] == s[1..][k - 1];
      }
    }
  }

  /** `TrimEnd` drops white space and nothing else. */
  lemma {:induction false} TrimEndDropsSpace(s: string)
    ensures forall k :: |TrimEnd(s)| <= k < |s| ==> IsSpace(s[k])
    decreases |s|
  {
    if s != [] && IsSpace(s[|s| - 1]) {
      TrimEndDropsSpace(s[..|s| - 1]);
    }
  }

  /** The number of white-space characters at the front of `s`. */
  function Lead(s: string): nat {
    |s| - |TrimStart(s)|
  }

  /** The trimmed string is the part of `s` from `Lead(s)` on: everything before it and
      after it is white space. */
  lemma TrimKeepsMiddle(s: string)
    ensures Lead(s) + |Trim(s)| <= |s| && Trim(s) == s[Lead(s)..Lead(s) + |Trim(s)|]
    ensures forall k :: 0 <= k < Lead(s) ==> IsSpace(s[k])
    ensures forall k :: Lead(s) + |Trim(s)| <= k < |s| ==> IsSpace(s[k])
  {
    var t := TrimStart(s);
    var r := TrimEnd(t);
    assert Trim(s) == r && Lead(s) == |s| - |t|;
    TrimStartDropsSpace(s);
    TrimEndDropsSpace(t);
    SpaceAround(s, t, r);
  }

  /** `r` cut from the front of `t`, itself cut from the back of `s`, is a middle part of
      `s`; what `t` drops after `r` is what `s` has after it. */
  lemma SpaceAround(s: string, t: string, r: string)
    requires |t| <= |s| && t == s[|s| - |t|..]
    requires |r| <= |t| && r == t[..|r|]
    requires forall k :: |r| <= k < |t| ==> IsSpace(t[k])
    ensures r == s[|s| - |t|..|s| - |t| + |r|]
    ensures forall k :: |s| - |t| + |r| <= k < |s| ==> IsSpace(s[k])
  {
    var i := |s| - |t|;
    forall k | i + |r| <= k < |s| ensures IsSpace(s[k]) {
      assert s[k] == t[k - i];
    }
  }

  /** Only an all-white-space string trims to "". */
  lemma TrimBlank(s: string)
    ensures Trim(s) == [] <==> forall k :: 0 <= k < |s| ==> IsSpace(s[k])
  {
    var t := TrimStart(s);
    TrimStartDropsSpace(s);
    TrimEndDropsSpace(t);
    assert Trim(s) == TrimEnd(t);
    if t != [] {
      assert t[0] == s[|s| - |t|] && !IsSpace(t[0]);
      assert TrimEnd(t) != [];
    }
  }

  /** A trimmed optional string field: `undefined` stays `undefined`. */
  function TrimOpt(s: Option<string>): Option<string> {
    if s.Some? then Some(Trim(s.value)) else None
  }

  /** A trimmed array of strings, element by element. */
  function TrimAll(s: seq<string>): (r: seq<string>)
    ensures |r| == |s| && forall i :: 0 <= i < |s| ==> r[i] == Trim(s[i])
  {
    seq(|s|, (i: int) requires 0 <= i < |s| => Trim(s[i]))
  }

  /** Trimming twice is trimming once. */
  lemma {:induction false} TrimIdempotent(s: string)
    ensures Trim(Trim(s)) == Trim(s)
  {
    var t := Trim(s);
    assert TrimStart(t) == t;
    assert TrimEnd(t) == t;
  }
}

/** The two ways the backend measures a string. Mongoose's `maxlength` compares
    JavaScript's `String.length`, which counts UTF-16 code units, so a character above
    U+FFFF counts twice. express-validator's `isLength` counts such a character (a surrogate
    pair) once, and does not count the variation selectors U+FE0E and U+FE0F at all. */
module TextLength {
  import Text

  /** One character's share of `String.length`. */
  function Units(c: char): nat {
    if c > '\U{FFFF}' then 2 else 1
  }

  predicate IsSelector(c: char) {
    c == '\U{FE0E}' || c == '\U{FE0F}'
  }

  /** `s.length`: UTF-16 code units. */
  function Utf16Len(s: string): (n: nat)
    ensures |s| <= n <= 2 * |s|
  {
    if s == [] then 0 else Units(s[0]) + Utf16Len(s[1..])
  }

  /** The length `isLength` checks: characters other than the two variation selectors. */
  function CheckedLen(s: string): (n: nat)
    ensures n <= |s|
  {
    if s == [] then 0 else (if IsSelector(s[0]) then 0 else 1) + CheckedLen(s[1..])
  }

  /** Text on which the two measures agree: nothing above U+FFFF and no variation selector. */
  predicate Plain(s: string) {
    forall k :: 0 <= k < |s| ==> s[k] <= '\U{FFFF}' && !IsSelector(s[k])
  }

  /** On plain text both measures are the number of characters. */
  lemma {:induction false} PlainLengths(s: string)
    requires Plain(s)
    ensures CheckedLen(s) == |s| == Utf16Len(s)
    decreases |s|
  {
    if s != [] {
      assert Plain(s[1..]) by {
        forall k | 0 <= k < |s[1..]| ensures s[1..][k] <= '\U{FFFF}' && !IsSelector(s[1..][k]) {
          assert s[1..][k] == s[k + 1];
        }
      }
      PlainLengths(s[1..]);
    }
  }

  /** The units of a concatenation are the units of its parts. */
  lemma {:induction false} Utf16LenAppend(a: string, b: string)
    ensures Utf16Len(a + b) == Utf16Len(a) + Utf16Len(b)
    decreases |a|
  {
    if a != [] {
      assert (a + b)[0] == a[0] && (a + b)[1..] == a[1..] + b;
      Utf16LenAppend(a[1..], b);
    } else {
      assert a + b == b;
    }
  }

  /** A part of a string takes no more units than the whole. */
  lemma Utf16LenSlice(s: string, i: nat, j: nat)
    requires i <= j <= |s|
    ensures Utf16Len(s[i..j]) <= Utf16Len(s)
  {
    var front, middle, back := s[..i], s[i..j], s[j..];
    assert s[..j] == front + middle;
    assert s == s[..j] + back;
    Utf16LenAppend(s[..j], back);
    Utf16LenAppend(front, middle);
  }

  /** Trimming never adds units, so text that fits before the trim fits after it. */
  lemma TrimmedUnits(s: string)
    ensures Utf16Len(Text.Trim(s)) <= Utf16Len(s)
  {
    var t, i := Text.Trim(s), Text.Lead(s);
    Text.TrimKeepsMiddle(s);
    assert i + |t| <= |s| && t == s[i..i + |t|];
    Utf16LenSlice(s, i, i + |t|);
  }

  /** `n` copies of one character. */
  function Repeat(c: char, n: nat): (s: string)
    ensures |s| == n && forall k :: 0 <= k < n ==> s[k] == c
  {
    if n == 0 then [] else [c] + Repeat(c, n - 1)
  }

  /** `n` copies of a character above U+FFFF, such as U+1F600: `isLength` sees `n`, and
      `String.length` is `2 * n`. */
  lemma {:induction false} AstralCounts(c: char, n: nat)
    requires c > '\U{FFFF}'
    ensures CheckedLen(Repeat(c, n)) == n && Utf16Len(Repeat(c, n)) == 2 * n
    decreases n
  {
    if n > 0 {
      assert Repeat(c, n)[1..] == Repeat(c, n - 1);
      AstralCounts(c, n - 1);
    }
  }

  /** `n` plain letters and a trailing U+FE0F: `isLength` sees `n`, and `String.length`
      is `n + 1`. */
  lemma {:induction false} SelectorCounts(n: nat)
    ensures CheckedLen(Repeat('a', n) + ['\U{FE0F}']) == n
    ensures Utf16Len(Repeat('a', n) + ['\U{FE0F}']) == n + 1
    decreases n
  {
    if n > 0 {
      assert (Repeat('a', n) + ['\U{FE0F}'])[1..] == Repeat('a', n - 1) + ['\U{FE0F}'];
      SelectorCounts(n - 1);
    } else {
      assert Repeat('a', 0) + ['\U{FE0F}'] == ['\U{FE0F}'];
    }
  }
}
