/** The room document (backend/models/Room.js) and the join-code generator of
    backend/routes/rooms.js (`generateCode`, `generateUniqueCode`), as values and functions. */
module RoomModel {
  import opened Wrappers
  import Sorting

  type RoomId = nat
  type UserId = nat

  const DefaultName := "My Room"

  /** A room: its name, join code, owner, members in joining order, and capacity. */
  datatype Room = Room(id: RoomId, name: string, code: string, owner: UserId,
                       members: seq<UserId>, maxSize: int)

  /** No user appears twice in `us`. */
  ghost predicate Distinct(us: seq<UserId>) {
    forall i, j :: 0 <= i < j < |us| ==> us[i] != us[j]
  }

  /** No user appears in both lists. */
  ghost predicate Disjoint(a: seq<UserId>, b: seq<UserId>) {
    forall u :: u in a ==> u !in b
  }

  /** What every stored room satisfies: a capacity from the schema's enum [2, 3, 4, 5],
      the owner among the members, no member twice, and no more members than the capacity. */
  ghost predicate WellFormed(r: Room) {
    && 2 <= r.maxSize <= 5
    && r.owner in r.members
    && Distinct(r.members)
    && |r.members| <= r.maxSize
  }

  /** `room.members.filter(m => m.toString() !== user)`. */
  function Without(us: seq<UserId>, user: UserId): (r: seq<UserId>)
    ensures forall u :: u in r <==> u in us && u != user
    ensures |r| <= |us|
    ensures Distinct(us) ==> Distinct(r)
    ensures user !in us ==> r == us
  {
    if us == [] then []
    else
      var rest := Without(us[1..], user);
      assert forall u :: u in us <==> u == us[0] || u in us[1..];
      if us[0] == user then rest
      else
        assert Distinct(us) ==> us[0] !in us[1..];
        [us[0]] + rest
  }

  /** Leaving keeps a well-formed room well-formed, as long as someone is left in it: the
      owner stays, or the first remaining member takes over. */
  lemma LeaveKeepsWellFormed(r: Room, user: UserId)
    requires WellFormed(r)
    requires Without(r.members, user) != []
    ensures var rest := Without(r.members, user);
      WellFormed(r.(members := rest, owner := if r.owner == user then rest[0] else r.owner))
  {
  }

  // ---- join codes ----

  /** The 32 characters of a join code: no I, O, 0 or 1, which are easy to misread. */
  const Alphabet := "ABCDEFGHJKLMNPQRSTUVWXYZ23456789"

  /** `Math.random` as a sequence of draws, each in [0, 1). */
  ghost predicate Uniform(random: nat -> real) {
    forall k :: 0.0 <= random(k) < 1.0
  }

  /** `Math.floor(x * chars.length)` for a draw `x`: always a valid position. */
  function IndexFor(x: real): (k: nat)
    requires 0.0 <= x < 1.0
    ensures k < |Alphabet|
  {
    assert 0.0 <= x * 32.0 < 32.0;
    (x * |Alphabet| as real).Floor
  }

  /** `chars.charAt(Math.floor(x * chars.length))` for a draw `x`. */
  function CharFor(x: real): (c: char)
    requires 0.0 <= x < 1.0
    ensures c in Alphabet
  {
    Alphabet[IndexFor(x)]
  }

  /** `generateCode(length)` when its draws are `random(from)`, `random(from + 1)`, ... */
  function CodeFrom(random: nat -> real, from: nat, length: nat): (code: string)
    requires Uniform(random)
    ensures |code| == length
  {
    seq(length, (i: int) requires 0 <= i => CharFor(random(from + i)))
  }

  /** Character `i` of a generated code comes from draw `from + i`, so every character is
      from the alphabet. */
  lemma CodeFromChars(random: nat -> real, from: nat, length: nat)
    requires Uniform(random)
    ensures var code := CodeFrom(random, from, length);
      && (forall i :: 0 <= i < length ==> code[i] == CharFor(random(from + i)))
      && (forall i :: 0 <= i < length ==> code[i] in Alphabet)
  {
  }

  /** One more draw appends one more character. */
  lemma CodeFromSnoc(random: nat -> real, from: nat, length: nat)
    requires Uniform(random)
    ensures CodeFrom(random, from, length + 1) == CodeFrom(random, from, length) + [CharFor(random(from + length))]
  {
    var code, longer := CodeFrom(random, from, length), CodeFrom(random, from, length + 1);
    var expected := code + [CharFor(random(from + length))];
    CodeFromChars(random, from, length);
    CodeFromChars(random, from, length + 1);
    forall i | 0 <= i < length + 1 ensures longer[i] == expected[i] {
      if i < length {
        assert expected[i] == code[i];
      }
    }
  }

  /** `Room.findOne({ code })` finds a room. */
  predicate CodeInUse(rooms: seq<Room>, code: string) {
    exists i :: 0 <= i < |rooms| && rooms[i].code == code
  }

  /** `generateUniqueCode`, with `tries` attempts left: the code it returns and the index of
      the next unused draw. */
  function PickCode(random: nat -> real, from: nat, rooms: seq<Room>, tries: nat): (r: (string, nat))
    requires Uniform(random)
    decreases tries
  {
    if tries == 0 then (CodeFrom(random, from, 8), from + 8)
    else
      var code := CodeFrom(random, from, 6);
      if !CodeInUse(rooms, code) then (code, from + 6) else PickCode(random, from + 6, rooms, tries - 1)
  }

  /** `generateUniqueCode` returns a code of six or eight characters from the alphabet. */
  lemma {:induction false} PickCodeShape(random: nat -> real, from: nat, rooms: seq<Room>, tries: nat)
    requires Uniform(random)
    ensures var code := PickCode(random, from, rooms, tries).0;
      && (forall i :: 0 <= i < |code| ==> code[i] in Alphabet)
      && (|code| == 6 || |code| == 8)
    decreases tries
  {
    if tries == 0 {
      CodeFromChars(random, from, 8);
    } else if CodeInUse(rooms, CodeFrom(random, from, 6)) {
      assert PickCode(random, from, rooms, tries) == PickCode(random, from + 6, rooms, tries - 1);
      PickCodeShape(random, from + 6, rooms, tries - 1);
    } else {
      assert PickCode(random, from, rooms, tries).0 == CodeFrom(random, from, 6);
      CodeFromChars(random, from, 6);
    }
  }

  /** A six-character result is a code that no room uses. */
  lemma {:induction false} PickCodeUnused(random: nat -> real, from: nat, rooms: seq<Room>, tries: nat)
    requires Uniform(random)
    ensures var (code, next) := PickCode(random, from, rooms, tries);
      |code| == 6 ==> !CodeInUse(rooms, code) && from + 6 <= next <= from + 6 * tries
    decreases tries
  {
    if tries > 0 {
      PickCodeUnused(random, from + 6, rooms, tries - 1);
    }
  }

  /** The six-character code of attempt number `t` (from 0) of a `generateUniqueCode` call
      whose first draw is `random(from)`. */
  function Attempt(random: nat -> real, from: nat, t: nat): string
    requires Uniform(random)
  {
    CodeFrom(random, from + 6 * t, 6)
  }

  lemma AttemptShift(random: nat -> real, from: nat, u: nat)
    requires Uniform(random)
    ensures Attempt(random, from, u + 1) == Attempt(random, from + 6, u)
  {
    assert from + 6 * (u + 1) == (from + 6) + 6 * u;
  }

  /** An eight-character result, the unchecked fallback, comes only after every one of the
      `tries` six-character attempts was taken. */
  lemma {:induction false} PickCodeFallback(random: nat -> real, from: nat, rooms: seq<Room>, tries: nat)
    requires Uniform(random)
    ensures var r := PickCode(random, from, rooms, tries);
      |r.0| == 8 ==> && r.1 == from + 6 * tries + 8
                     && forall t :: 0 <= t < tries ==> CodeInUse(rooms, Attempt(random, from, t))
    decreases tries
  {
    if tries > 0 && CodeInUse(rooms, CodeFrom(random, from, 6)) {
      var rest := PickCode(random, from + 6, rooms, tries - 1);
      assert PickCode(random, from, rooms, tries) == rest;
      PickCodeFallback(random, from + 6, rooms, tries - 1);
      if |rest.0| == 8 {
        forall t | 0 <= t < tries ensures CodeInUse(rooms, Attempt(random, from, t)) {
          if t == 0 {
            assert Attempt(random, from, 0) == CodeFrom(random, from, 6);
          } else {
            AttemptShift(random, from, t - 1);
          }
        }
      }
    }
  }

  /** Decimal digits of `n`, as a template string prints a member count. */
  function NatToString(n: nat): (s: string)
    ensures |s| >= 1
    decreases n
  {
    var d := "0123456789"[n % 10];
    if n < 10 then [d] else NatToString(n / 10) + [d]
  }
}
