/** The list primitives the handlers lean on: JavaScript's `filter`, a stable sort by a
    numeric key (both `Array.prototype.sort` and a query's `.sort({ field: ±1 })`), and a
    query's `.limit(n)`. */
module Sorting {
  import opened Wrappers

  /** `s` is ordered by `key`, smallest first. */
  ghost predicate Ascending<T>(s: seq<T>, key: T -> int) {
    forall i, j {:trigger key(s[i]), key(s[j])} :: 0 <= i < j < |s| ==> key(s[i]) <= key(s[j])
  }

  /** `s` is ordered by `key`, largest first. */
  ghost predicate Descending<T>(s: seq<T>, key: T -> int) {
    forall i, j {:trigger key(s[i]), key(s[j])} :: 0 <= i < j < |s| ==> key(s[i]) >= key(s[j])
  }

  /** `xs.filter(p)`. */
  function Filter<T(!new)>(s: seq<T>, p: T -> bool): (r: seq<T>)
    ensures |r| <= |s|
  {
    if s == [] then []
    else if p(s[0]) then [s[0]] + Filter(s[1..], p) else Filter(s[1..], p)
  }

  /** What `Filter` keeps: every element that satisfies `p`, as often as `s` holds it, and
      nothing else. */
  lemma {:induction false} FilterCounts<T(!new)>(s: seq<T>, p: T -> bool)
    ensures forall x :: x in Filter(s, p) <==> x in s && p(x)
    ensures multiset(Filter(s, p)) <= multiset(s)
    ensures forall x :: multiset(Filter(s, p))[x] == if p(x) then multiset(s)[x] else 0
  {
    if s != [] {
      FilterCounts(s[1..], p);
      assert s == [s[0]] + s[1..];
      FilterStep(s, p);
      var r, rest := Filter(s, p), Filter(s[1..], p);
      assert multiset(r) == (if p(s[0]) then multiset{s[0]} else multiset{}) + multiset(rest);
      forall x ensures x in r <==> x in s && p(x) {
        assert x in r <==> x in multiset(r);
        assert x in rest <==> x in multiset(rest);
      }
    }
  }

  /** Filtering distributes over concatenation, so it keeps the relative order of what it keeps. */
  lemma {:induction false} FilterAppend<T(!new)>(s: seq<T>, t: seq<T>, p: T -> bool)
    ensures Filter(s + t, p) == Filter(s, p) + Filter(t, p)
  {
    if s == [] {
      assert s + t == t && Filter(s, p) == [];
      assert [] + Filter(t, p) == Filter(t, p);
    } else {
      var head := if p(s[0]) then [s[0]] else [];
      calc {
        Filter(s + t, p);
        { FilterStep(s + t, p); assert (s + t)[0] == s[0] && (s + t)[1..] == s[1..] + t; }
        head + Filter(s[1..] + t, p);
        { FilterAppend(s[1..], t, p); }
        head + (Filter(s[1..], p) + Filter(t, p));
        { AppendAssociative(head, Filter(s[1..], p), Filter(t, p)); }
        (head + Filter(s[1..], p)) + Filter(t, p);
        { FilterStep(s, p); }
        Filter(s, p) + Filter(t, p);
      }
    }
  }

  lemma AppendAssociative<T>(a: seq<T>, b: seq<T>, c: seq<T>)
    ensures a + (b + c) == (a + b) + c
  {
  }

  /** One step of `Filter`: the head is kept exactly when it satisfies `p`. */
  lemma FilterStep<T(!new)>(s: seq<T>, p: T -> bool)
    requires s != []
    ensures Filter(s, p) == (if p(s[0]) then [s[0]] else []) + Filter(s[1..], p)
  {
  }

  /** Filtering an ascending list leaves it ascending. */
  lemma {:induction false} FilterAscending<T(!new)>(s: seq<T>, p: T -> bool, key: T -> int)
    requires Ascending(s, key)
    ensures Ascending(Filter(s, p), key)
  {
    if s != [] {
      FilterAscending(s[1..], p, key);
      FilterStep(s, p);
      if p(s[0]) {
        var rest := Filter(s[1..], p);
        FilterCounts(s[1..], p);
        forall y | y in rest ensures key(s[0]) <= key(y) {
          var k :| 0 <= k < |s[1..]| && s[1..][k] == y;
          assert s[k + 1] == y;
        }
        ConsAscending(s[0], rest, key);
      } else {
        assert Filter(s, p) == Filter(s[1..], p);
      }
    }
  }

  /** An element no larger than anything in an ascending list can go in front of it. */
  lemma ConsAscending<T>(x: T, s: seq<T>, key: T -> int)
    requires Ascending(s, key) && forall y :: y in s ==> key(x) <= key(y)
    ensures Ascending([x] + s, key)
  {
    var r := [x] + s;
    forall i, j | 0 <= i < j < |r| ensures key(r[i]) <= key(r[j]) {
      assert r[j] == s[j - 1] && r[j] in s;
      if i > 0 {
        assert r[i] == s[i - 1];
      }
    }
  }

  /** Inserts `x` before the first element whose key is not smaller, so that equal keys keep
      their original order. */
  function Insert<T>(x: T, s: seq<T>, key: T -> int): (r: seq<T>)
    requires Ascending(s, key)
    ensures Ascending(r, key)
    ensures multiset(r) == multiset(s) + multiset{x}
    ensures |r| == |s| + 1
    ensures r[0] == x || (s != [] && r[0] == s[0])
  {
    if s == [] || key(x) <= key(s[0]) then
      ConsSmaller(x, s, key);
      [x] + s
    else
      assert s == [s[0]] + s[1..];
      var rest := Insert(x, s[1..], key);
      ConsSmaller(s[0], rest, key);
      [s[0]] + rest
  }

  /** Putting in front a key no larger than the first keeps a list ascending. */
  lemma ConsSmaller<T>(x: T, s: seq<T>, key: T -> int)
    requires Ascending(s, key) && (s != [] ==> key(x) <= key(s[0]))
    ensures Ascending([x] + s, key)
  {
    var r := [x] + s;
    forall i, j | 0 <= i < j < |r| ensures key(r[i]) <= key(r[j]) {
      assert r[j] == s[j - 1];
      if i > 0 {
        assert r[i] == s[i - 1];
      } else if j > 1 {
        assert key(s[0]) <= key(s[j - 1]);
      }
    }
  }

  /** Stable sort, smallest key first. */
  function SortAscending<T>(s: seq<T>, key: T -> int): (r: seq<T>)
    ensures Ascending(r, key)
    ensures multiset(r) == multiset(s)
    ensures |r| == |s|
  {
    if s == [] then []
    else
      assert s == [s[0]] + s[1..];
      Insert(s[0], SortAscending(s[1..], key), key)
  }

  /** Stable sort, largest key first (`.sort({ field: -1 })`, or a comparator `b - a`). */
  function SortDescending<T>(s: seq<T>, key: T -> int): (r: seq<T>)
    ensures Descending(r, key)
    ensures multiset(r) == multiset(s)
    ensures |r| == |s|
  {
    var neg := (x: T) => -key(x);
    var r := SortAscending(s, neg);
    assert forall i, j :: 0 <= i < j < |r| ==> neg(r[i]) <= neg(r[j]);
    r
  }

  /** Two lists with the same multiset have the same members. */
  lemma SameMembers<T>(a: seq<T>, b: seq<T>)
    requires multiset(a) == multiset(b)
    ensures forall x :: x in a <==> x in b
  {
    forall x ensures x in a <==> x in b {
      assert x in a <==> x in multiset(a);
      assert x in b <==> x in multiset(b);
    }
  }

  /** `xs.findIndex(p)`, and a query's `findOne`: the position of the first element that
      satisfies `p`. */
  function FindFirst<T>(s: seq<T>, p: T -> bool): (r: Option<nat>)
    ensures r.Some? ==> r.value < |s| && p(s[r.value]) && forall j :: 0 <= j < r.value ==> !p(s[j])
    ensures r.None? <==> forall j :: 0 <= j < |s| ==> !p(s[j])
  {
    if s == [] then None
    else if p(s[0]) then Some(0)
    else match FindFirst(s[1..], p)
      case None => None
      case Some(k) => Some(k + 1)
  }

  /** A query's `.limit(n)`: zero means no limit, a negative limit counts like its absolute value. */
  function Limit<T>(s: seq<T>, n: int): (r: seq<T>)
    ensures n == 0 ==> r == s
    ensures n != 0 ==> |r| == (if |s| < Abs(n) then |s| else Abs(n))
    ensures r == s[..|r|]
  {
    if n == 0 || |s| <= Abs(n) then s else s[..Abs(n)]
  }

  /** `r` is drawn from `pool` and nothing of `pool` left out of `r` has a larger key than
      anything in `r`: `r` holds the |r| largest keys of `pool`. */
  ghost predicate TopOf<T>(r: seq<T>, pool: multiset<T>, key: T -> int) {
    && multiset(r) <= pool
    && forall x, i :: x in pool - multiset(r) && 0 <= i < |r| ==> key(x) <= key(r[i])
  }

  /** Cutting a list sorted largest first keeps the largest keys. */
  lemma PrefixIsTop<T>(t: seq<T>, key: T -> int, n: nat)
    requires Descending(t, key) && n <= |t|
    ensures TopOf(t[..n], multiset(t), key)
  {
    assert t == t[..n] + t[n..];
    assert multiset(t) == multiset(t[..n]) + multiset(t[n..]);
    forall x, i | x in multiset(t) - multiset(t[..n]) && 0 <= i < n
      ensures key(x) <= key(t[..n][i])
    {
      assert x in multiset(t[n..]);
      assert x in t[n..];
      var j :| 0 <= j < |t| - n && t[n..][j] == x;
      assert t[n + j] == x;
    }
  }

  /** `.sort({ key: -1 }).limit(n)` over `pool`: the result is drawn from `pool`, ordered
      largest first, holds the largest keys, and is all of `pool` when the limit allows. */
  lemma LimitedTop<T>(pool: seq<T>, key: T -> int, n: int)
    ensures var r := Limit(SortDescending(pool, key), n);
      && (forall i :: 0 <= i < |r| ==> r[i] in multiset(pool))
      && Descending(r, key)
      && TopOf(r, multiset(pool), key)
      && (n == 0 || |pool| <= Abs(n) ==> multiset(r) == multiset(pool))
  {
    var sorted := SortDescending(pool, key);
    var r := Limit(sorted, n);
    assert r == sorted[..|r|];
    PrefixIsTop(sorted, key, |r|);
    forall i | 0 <= i < |r| ensures r[i] in multiset(pool) {
      assert r[i] == sorted[i] && sorted[i] in multiset(sorted);
    }
    forall i, j | 0 <= i < j < |r| ensures key(r[i]) >= key(r[j]) {
      assert r[i] == sorted[i] && r[j] == sorted[j];
    }
  }

  /** A prefix one longer is the prefix and the next element. */
  lemma PrefixSnoc<T>(s: seq<T>, i: nat)
    requires i < |s|
    ensures s[..i + 1] == s[..i] + [s[i]]
  {
  }

  function Abs(n: int): nat {
    if n < 0 then -n else n
  }
}
