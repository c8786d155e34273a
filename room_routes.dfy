/** The room endpoints (backend/routes/rooms.js) over the room collection: create, join,
    leave, update settings, regenerate the join code, and look up the caller's room. */
module RoomRoutes {
  import opened Wrappers
  import opened RoomModel
  import Sorting
  import Text
  import TextLength

  /** A request field checked with `isInt`: absent, a JSON number, or a string of digits
      (both of which `isInt` accepts). */
  datatype IntField = Absent | Number(n: int) | NumericString(n: int)

  /** `isInt({ min: lo, max: hi })` on a field that must be present. */
  predicate IntIn(f: IntField, lo: int, hi: int) {
    !f.Absent? && lo <= f.n <= hi
  }

  /** `body('name').optional().isString().isLength({ min: 1, max: 50 })`, with `isLength`
      counting as `TextLength.CheckedLen` does. */
  predicate NameOk(name: Option<string>) {
    name.Some? ==> 1 <= TextLength.CheckedLen(name.value) <= 50
  }

  /** `body('code').isString().isLength({ min: 4, max: 10 })`. */
  predicate JoinCodeOk(code: Option<string>) {
    code.Some? && 4 <= TextLength.CheckedLen(code.value) <= 10
  }

  /** `Room.findOne({ members: user })`. */
  function MemberOf(rooms: seq<Room>, user: UserId): (k: Option<nat>)
    ensures k.Some? ==> k.value < |rooms| && user in rooms[k.value].members
    ensures k.None? <==> forall i :: 0 <= i < |rooms| ==> user !in rooms[i].members
  {
    Sorting.FindFirst(rooms, (r: Room) => user in r.members)
  }

  /** `Room.findById(id)`. */
  function ById(rooms: seq<Room>, id: RoomId): (k: Option<nat>)
    ensures k.Some? ==> k.value < |rooms| && rooms[k.value].id == id
    ensures k.None? <==> forall i :: 0 <= i < |rooms| ==> rooms[i].id != id
  {
    Sorting.FindFirst(rooms, (r: Room) => r.id == id)
  }

  /** `Room.findOne({ code })`. */
  function ByCode(rooms: seq<Room>, code: string): (k: Option<nat>)
    ensures k.Some? ==> k.value < |rooms| && rooms[k.value].code == code
    ensures k.None? <==> !CodeInUse(rooms, code)
  {
    Sorting.FindFirst(rooms, (r: Room) => r.code == code)
  }

  /** Another room than the one at position `k` has the code (the unique index refuses the save). */
  predicate CodeTakenByOther(rooms: seq<Room>, k: nat, code: string) {
    exists i :: 0 <= i < |rooms| && i != k && rooms[i].code == code
  }

  /** A room after PUT /api/rooms/:id: a string `name` replaces the name (trimmed by the
      schema); `maxSize` replaces the capacity only when it is a JSON number. */
  function Settings(room: Room, name: Option<string>, maxSize: IntField): Room {
    room.(name := if name.Some? then Text.Trim(name.value) else room.name,
          maxSize := if maxSize.Number? then maxSize.n else room.maxSize)
  }

  /** The message of the 400 answer to a capacity below the member count. */
  function CapacityMessage(count: nat): string {
    "maxSize cannot be less than current member count (" + NatToString(count) + ")"
  }

  /** What POST /api/rooms/leave did. */
  datatype LeaveResult = RoomDeleted | Left(room: Room)

  /** The collection invariant: every room is well formed and has an id below `nextId`;
      no two rooms share an id or a join code, and no user is a member of two rooms. */
  ghost predicate RoomsValid(rooms: seq<Room>, nextId: nat) {
    && (forall i :: 0 <= i < |rooms| ==> WellFormed(rooms[i]) && rooms[i].id < nextId)
    && (forall i, j :: 0 <= i < |rooms| && 0 <= j < |rooms| && i != j ==>
          rooms[i].id != rooms[j].id && rooms[i].code != rooms[j].code
          && Disjoint(rooms[i].members, rooms[j].members))
  }

  /** A room whose code and members stay as they were keeps the collection valid, as long
      as it is still well formed. */
  lemma SettingsKeepValid(rooms: seq<Room>, nextId: nat, k: nat, r: Room)
    requires RoomsValid(rooms, nextId) && k < |rooms| && WellFormed(r)
    requires r.id == rooms[k].id && r.code == rooms[k].code && r.members == rooms[k].members
    ensures RoomsValid(rooms[k := r], nextId)
  {
    forall i | 0 <= i < |rooms| && i != k
      ensures rooms[i].code != r.code
      ensures Disjoint(rooms[i].members, r.members) && Disjoint(r.members, rooms[i].members)
    {
      assert rooms[i].code != rooms[k].code;
      assert Disjoint(rooms[i].members, rooms[k].members) && Disjoint(rooms[k].members, rooms[i].members);
    }
    ReplaceKeepsValid(rooms, nextId, k, r);
  }

  /** Under the invariant, a user is in at most one room, so `findOne({ members: user })`
      does not depend on the order of the collection. */
  lemma AtMostOneRoom(rooms: seq<Room>, nextId: nat, user: UserId, i: nat, j: nat)
    requires RoomsValid(rooms, nextId)
    requires i < |rooms| && j < |rooms| && user in rooms[i].members && user in rooms[j].members
    ensures i == j
  {
    assert i != j ==> Disjoint(rooms[i].members, rooms[j].members);
  }

  lemma ReplaceKeepsValid(rooms: seq<Room>, nextId: nat, k: nat, r: Room)
    requires RoomsValid(rooms, nextId) && k < |rooms|
    requires WellFormed(r) && r.id == rooms[k].id
    requires forall i :: 0 <= i < |rooms| && i != k ==> rooms[i].code != r.code
    requires forall i :: 0 <= i < |rooms| && i != k ==>
               Disjoint(rooms[i].members, r.members) && Disjoint(r.members, rooms[i].members)
    ensures RoomsValid(rooms[k := r], nextId)
  {
  }

  lemma AppendKeepsValid(rooms: seq<Room>, nextId: nat, r: Room)
    requires RoomsValid(rooms, nextId)
    requires WellFormed(r) && r.id == nextId && !CodeInUse(rooms, r.code)
    requires forall i :: 0 <= i < |rooms| ==>
               Disjoint(rooms[i].members, r.members) && Disjoint(r.members, rooms[i].members)
    ensures RoomsValid(rooms + [r], nextId + 1)
  {
    var rs := rooms + [r];
    forall i, j | 0 <= i < |rs| && 0 <= j < |rs| && i != j
      ensures rs[i].id != rs[j].id && rs[i].code != rs[j].code && Disjoint(rs[i].members, rs[j].members)
    {
      if i == |rooms| {
        assert rs[j] == rooms[j];
      } else if j == |rooms| {
        assert rs[i] == rooms[i];
      }
    }
  }

  lemma RemoveKeepsValid(rooms: seq<Room>, nextId: nat, k: nat)
    requires RoomsValid(rooms, nextId) && k < |rooms|
    ensures RoomsValid(rooms[..k] + rooms[k + 1..], nextId)
  {
    var rs := rooms[..k] + rooms[k + 1..];
    assert forall i :: 0 <= i < |rs| ==> rs[i] == rooms[if i < k then i else i + 1];
  }

  /** The room collection, in insertion order, with `Math.random` as the draws
      `random(0)`, `random(1)`, ... of which the first `drawn` are used up. */
  class RoomStore {
    var rooms: seq<Room>
    var nextId: nat
    const random: nat -> real
    var drawn: nat

    ghost predicate Valid()
      reads this
    {
      Uniform(random) && RoomsValid(rooms, nextId)
    }

    constructor (random: nat -> real)
      requires Uniform(random)
      ensures Valid() && rooms == [] && nextId == 0 && drawn == 0 && this.random == random
    {
      this.random := random;
      rooms, nextId, drawn := [], 0, 0;
    }

    /** `generateCode(length)`. */
    method GenerateCode(length: nat) returns (code: string)
      requires Uniform(random)
      modifies this`drawn
      ensures code == CodeFrom(random, old(drawn), length) && drawn == old(drawn) + length
    {
      var draws, from := random, drawn;
      code := "";
      for i := 0 to length
        invariant code == CodeFrom(draws, from, i)
      {
        CodeFromSnoc(draws, from, i);
        code := code + [CharFor(draws(from + i))];
      }
      drawn := from + length;
    }

    /** `generateUniqueCode()`: up to five six-character codes checked against the stored
        ones, then an unchecked eight-character code. */
    method GenerateUniqueCode() returns (code: string)
      requires Uniform(random)
      modifies this`drawn
      ensures (code, drawn) == PickCode(random, old(drawn), rooms, 5)
    {
      code := TryCodes(5);
    }

    /** The retry loop of `generateUniqueCode` with `tries` attempts. */
    method TryCodes(tries: nat) returns (code: string)
      requires Uniform(random)
      modifies this`drawn
      ensures (code, drawn) == PickCode(random, old(drawn), rooms, tries)
    {
      for i := 0 to tries
        invariant PickCode(random, old(drawn), rooms, tries) == PickCode(random, drawn, rooms, tries - i)
      {
        code := GenerateCode(6);
        if !CodeInUse(rooms, code) {
          return;
        }
      }
      code := GenerateCode(8);
    }

    /** GET /api/rooms/me. */
    method GetMine(user: UserId) returns (r: Option<Room>)
      ensures r.None? <==> forall i :: 0 <= i < |rooms| ==> user !in rooms[i].members
      ensures r.Some? ==> r.value in rooms && user in r.value.members
    {
      var k := MemberOf(rooms, user);
      if k.None? {
        return None;
      }
      r := Some(rooms[k.value]);
    }

    /** POST /api/rooms/create: the caller becomes owner and only member. */
    method Create(user: UserId, name: Option<string>, maxSize: IntField) returns (r: Outcome<Room>)
      requires Valid()
      modifies this
      ensures Valid()
      ensures !(NameOk(name) && IntIn(maxSize, 2, 5)) ==>
                r == Fail(400, ValidationFailed) && rooms == old(rooms) && drawn == old(drawn)
      ensures NameOk(name) && IntIn(maxSize, 2, 5) && MemberOf(old(rooms), user).Some? ==>
                r == Fail(400, "You already belong to a room") && rooms == old(rooms) && drawn == old(drawn)
      ensures NameOk(name) && IntIn(maxSize, 2, 5) && MemberOf(old(rooms), user).None? ==>
                var (code, next) := PickCode(random, old(drawn), old(rooms), 5);
                && drawn == next
                && (CodeInUse(old(rooms), code) ==> r == Fail(500, ServerError) && rooms == old(rooms))
                && (!CodeInUse(old(rooms), code) ==>
                      && r == Ok(Room(old(nextId), Text.Trim(name.GetOr(DefaultName)), code, user, [user], maxSize.n))
                      && rooms == old(rooms) + [r.value])
    {
      if !(NameOk(name) && IntIn(maxSize, 2, 5)) {
        return Fail(400, ValidationFailed);
      }
      var existing := MemberOf(rooms, user);
      if existing.Some? {
        return Fail(400, "You already belong to a room");
      }
      var code := GenerateUniqueCode();
      var room := Room(nextId, Text.Trim(name.GetOr(DefaultName)), code, user, [user], maxSize.n);
      // the unique index on `code` refuses the save
      if ByCode(rooms, code).Some? {
        return Fail(500, ServerError);
      }
      AppendKeepsValid(rooms, nextId, room);
      rooms, nextId := rooms + [room], nextId + 1;
      r := Ok(room);
    }

    /** POST /api/rooms/join. */
    method Join(user: UserId, code: Option<string>) returns (r: Outcome<Room>)
      requires Valid()
      modifies this
      ensures Valid() && drawn == old(drawn) && nextId == old(nextId)
      ensures r.Fail? ==> rooms == old(rooms)
      ensures !JoinCodeOk(code) ==> r == Fail(400, ValidationFailed)
      ensures JoinCodeOk(code) && MemberOf(old(rooms), user).Some? ==>
                r == Fail(400, "You already belong to a room")
      ensures JoinCodeOk(code) && MemberOf(old(rooms), user).None? && ByCode(old(rooms), code.value).None? ==>
                r == Fail(404, "Room not found")
      ensures JoinCodeOk(code) && MemberOf(old(rooms), user).None? && ByCode(old(rooms), code.value).Some?
              && |old(rooms)[ByCode(old(rooms), code.value).value].members|
                 >= old(rooms)[ByCode(old(rooms), code.value).value].maxSize ==>
                r == Fail(400, "Room is full")
      ensures JoinCodeOk(code) && MemberOf(old(rooms), user).None? && ByCode(old(rooms), code.value).Some?
              && |old(rooms)[ByCode(old(rooms), code.value).value].members|
                 < old(rooms)[ByCode(old(rooms), code.value).value].maxSize ==>
                r.Ok?
      // the check for a caller already in this room can never fire: the caller is in no room
      ensures r != Fail(400, "You are already in this room")
      ensures r.Ok? ==> && JoinCodeOk(code) && MemberOf(old(rooms), user).None?
                        && var k := ByCode(old(rooms), code.value);
                        && k.Some?
                        && |old(rooms)[k.value].members| < old(rooms)[k.value].maxSize
                        && r.value == old(rooms)[k.value].(members := old(rooms)[k.value].members + [user])
                        && rooms == old(rooms)[k.value := r.value]
    {
      if !JoinCodeOk(code) {
        return Fail(400, ValidationFailed);
      }
      var already := MemberOf(rooms, user);
      if already.Some? {
        return Fail(400, "You already belong to a room");
      }
      var k := ByCode(rooms, code.value);
      if k.None? {
        return Fail(404, "Room not found");
      }
      var room := rooms[k.value];
      if |room.members| >= room.maxSize {
        return Fail(400, "Room is full");
      }
      assert user !in room.members;
      var joined := room.(members := room.members + [user]);
      forall i | 0 <= i < |rooms| && i != k.value
        ensures Disjoint(rooms[i].members, joined.members) && Disjoint(joined.members, rooms[i].members)
      {
        assert Disjoint(rooms[i].members, room.members) && Disjoint(room.members, rooms[i].members);
      }
      ReplaceKeepsValid(rooms, nextId, k.value, joined);
      rooms := rooms[k.value := joined];
      r := Ok(joined);
    }

    /** POST /api/rooms/leave: the last member out deletes the room; an owner who leaves
        hands the room to the first remaining member. */
    method Leave(user: UserId) returns (r: Outcome<LeaveResult>)
      requires Valid()
      modifies this
      ensures Valid() && drawn == old(drawn) && nextId == old(nextId)
      ensures r.Fail? <==> MemberOf(old(rooms), user).None?
      ensures r.Fail? ==> r == Fail(400, "You are not in a room") && rooms == old(rooms)
      ensures r.Ok? ==> var k := MemberOf(old(rooms), user).value;
        var room := old(rooms)[k];
        var rest := Without(room.members, user);
        && (rest == [] ==> r.value == RoomDeleted && rooms == old(rooms)[..k] + old(rooms)[k + 1..])
        && (rest != [] ==>
              && r.value == Left(room.(members := rest, owner := if room.owner == user then rest[0] else room.owner))
              && rooms == old(rooms)[k := r.value.room])
    {
      var k := MemberOf(rooms, user);
      if k.None? {
        return Fail(400, "You are not in a room");
      }
      var room := rooms[k.value];
      var rest := Without(room.members, user);
      if rest == [] {
        RemoveKeepsValid(rooms, nextId, k.value);
        rooms := rooms[..k.value] + rooms[k.value + 1..];
        return Ok(RoomDeleted);
      }
      var left := room.(members := rest);
      if room.owner == user {
        left := left.(owner := rest[0]);
      }
      LeaveKeepsWellFormed(room, user);
      forall i | 0 <= i < |rooms| && i != k.value
        ensures Disjoint(rooms[i].members, left.members) && Disjoint(left.members, rooms[i].members)
      {
        assert Disjoint(rooms[i].members, room.members) && Disjoint(room.members, rooms[i].members);
      }
      ReplaceKeepsValid(rooms, nextId, k.value, left);
      rooms := rooms[k.value := left];
      r := Ok(Left(left));
    }

    /** PUT /api/rooms/:id: the owner renames the room or changes its capacity. */
    method Update(id: RoomId, user: UserId, name: Option<string>, maxSize: IntField) returns (r: Outcome<Room>)
      requires Valid()
      modifies this
      ensures Valid() && drawn == old(drawn) && nextId == old(nextId)
      ensures r.Fail? ==> rooms == old(rooms)
      ensures !(NameOk(name) && (maxSize.Absent? || IntIn(maxSize, 2, 5))) ==> r == Fail(400, ValidationFailed)
      ensures NameOk(name) && (maxSize.Absent? || IntIn(maxSize, 2, 5)) ==>
        var k := ById(old(rooms), id);
        && (k.None? ==> r == Fail(404, "Room not found"))
        && (k.Some? && old(rooms)[k.value].owner != user ==> r == Fail(403, "Only room owner can update settings"))
        && (k.Some? && old(rooms)[k.value].owner == user && maxSize.Number?
            && maxSize.n < |old(rooms)[k.value].members| ==>
              r == Fail(400, CapacityMessage(|old(rooms)[k.value].members|)))
        && ((k.Some? && old(rooms)[k.value].owner == user
             && !(maxSize.Number? && maxSize.n < |old(rooms)[k.value].members|)) ==> r.Ok?)
      ensures r.Ok? ==> var k := ById(old(rooms), id);
        && k.Some? && old(rooms)[k.value].owner == user
        && r.value == Settings(old(rooms)[k.value], name, maxSize)
        && rooms == old(rooms)[k.value := r.value]
    {
      if !(NameOk(name) && (maxSize.Absent? || IntIn(maxSize, 2, 5))) {
        return Fail(400, ValidationFailed);
      }
      var k := ById(rooms, id);
      if k.None? {
        return Fail(404, "Room not found");
      }
      var room := rooms[k.value];
      if room.owner != user {
        return Fail(403, "Only room owner can update settings");
      }
      var updated := room;
      if name.Some? {
        updated := updated.(name := Text.Trim(name.value));
      }
      if maxSize.Number? {
        if maxSize.n < |room.members| {
          return Fail(400, CapacityMessage(|room.members|));
        }
        updated := updated.(maxSize := maxSize.n);
      }
      assert updated == Settings(room, name, maxSize);
      SettingsKeepValid(rooms, nextId, k.value, updated);
      rooms := rooms[k.value := updated];
      r := Ok(updated);
    }

    /** POST /api/rooms/:id/regenerate-code: the owner gets a fresh join code. */
    method RegenerateCode(id: RoomId, user: UserId) returns (r: Outcome<Room>)
      requires Valid()
      modifies this
      ensures Valid() && nextId == old(nextId)
      ensures r.Fail? ==> rooms == old(rooms)
      ensures ById(old(rooms), id).None? ==> r == Fail(404, "Room not found") && drawn == old(drawn)
      ensures var k := ById(old(rooms), id);
        k.Some? && old(rooms)[k.value].owner != user ==>
          r == Fail(403, "Only room owner can regenerate code") && drawn == old(drawn)
      ensures var k := ById(old(rooms), id);
        k.Some? && old(rooms)[k.value].owner == user ==>
          var (code, next) := PickCode(random, old(drawn), old(rooms), 5);
          && drawn == next
          && (CodeTakenByOther(old(rooms), k.value, code) ==> r == Fail(500, ServerError))
          && (!CodeTakenByOther(old(rooms), k.value, code) ==>
                r == Ok(old(rooms)[k.value].(code := code)) && rooms == old(rooms)[k.value := r.value])
    {
      var k := ById(rooms, id);
      if k.None? {
        return Fail(404, "Room not found");
      }
      var room := rooms[k.value];
      if room.owner != user {
        return Fail(403, "Only room owner can regenerate code");
      }
      var code := GenerateUniqueCode();
      // the unique index on `code` refuses the save
      if CodeTakenByOther(rooms, k.value, code) {
        return Fail(500, ServerError);
      }
      var renewed := room.(code := code);
      ReplaceKeepsValid(rooms, nextId, k.value, renewed);
      rooms := rooms[k.value := renewed];
      r := Ok(renewed);
    }
  }
}
