/** The habit endpoints (backend/routes/habits.js; backend/controllers/habitController.js
    holds the same handlers): list, create, patch, complete, soft delete and analytics,
    over an in-memory collection of habit documents. */
module HabitRoutes {
  import opened Wrappers
  import opened Time
  import opened HabitModel
  import Sorting
  import Text
  import TextLength
  import Tally

  /** `Habit.findOne({ _id: id, user })`: the first document with that id and owner. */
  function Lookup(vs: seq<HabitView>, id: HabitId, user: UserId): (r: Option<nat>)
    ensures r.Some? ==> r.value < |vs| && vs[r.value].id == id && vs[r.value].user == user
    ensures r.None? <==> forall j :: 0 <= j < |vs| ==> !(vs[j].id == id && vs[j].user == user)
  {
    Sorting.FindFirst(vs, (v: HabitView) => v.id == id && v.user == user)
  }

  /** `Habit.find({ user, isActive: true }).sort({ createdAt: -1 })`. */
  function ActiveHabits(vs: seq<HabitView>, user: UserId): (r: seq<HabitView>)
    ensures forall i :: 0 <= i < |r| ==> r[i] in vs && r[i].user == user && r[i].isActive
    ensures forall i :: 0 <= i < |vs| && vs[i].user == user && vs[i].isActive ==> vs[i] in r
    ensures forall v :: multiset(r)[v] == if v.user == user && v.isActive then multiset(vs)[v] else 0
    ensures Sorting.Descending(r, CreatedAtOf)
  {
    var owned := (v: HabitView) => v.user == user && v.isActive;
    var mine := Sorting.Filter(vs, owned);
    Sorting.FilterCounts(vs, owned);
    var r := Sorting.SortDescending(mine, CreatedAtOf);
    Sorting.SameMembers(mine, r);
    forall i | 0 <= i < |r| ensures r[i] in vs && r[i].user == user && r[i].isActive {
      assert r[i] in multiset(mine);
    }
    r
  }

  /** The request checks of POST /api/habits (express-validator; `isLength` counts as
      `TextLength.CheckedLen` does, `notEmpty` asks for a non-empty string). */
  predicate CreateRequestValid(title: Option<string>, description: Option<string>,
                               category: Option<string>, frequency: Option<string>)
  {
    && title.Some? && title.value != [] && TextLength.CheckedLen(title.value) <= 100
    && (description.Some? ==> TextLength.CheckedLen(description.value) <= 500)
    && category.Some? && category.value in Categories
    && frequency.Some? && frequency.value in Frequencies
  }

  /** The request checks of PUT /api/habits/:id: the same, but every field is optional. */
  predicate UpdateRequestValid(p: HabitPatch) {
    && (p.title.Some? ==> p.title.value != [] && TextLength.CheckedLen(p.title.value) <= 100)
    && (p.description.Some? ==> TextLength.CheckedLen(p.description.value) <= 500)
    && (p.category.Some? ==> p.category.value in Categories)
    && (p.frequency.Some? ==> p.frequency.value in Frequencies)
  }

  /** The request checks of POST /api/habits/:id/complete. */
  predicate CompleteRequestValid(count: Option<int>, notes: Option<string>) {
    (count.Some? ==> count.value >= 1) && (notes.Some? ==> TextLength.CheckedLen(notes.value) <= 200)
  }

  /** `targetCount || 1`: an absent or zero target becomes 1. */
  function TargetOrOne(targetCount: Option<int>): (t: int)
    ensures targetCount.None? || targetCount.value == 0 ==> t == 1
    ensures targetCount.Some? && targetCount.value != 0 ==> t == targetCount.value
  {
    if targetCount.None? || targetCount.value == 0 then 1 else targetCount.value
  }

  /** The document `new Habit({...})` builds from a POST body that passed the request checks. */
  function NewHabit(id: HabitId, user: UserId, title: string, description: Option<string>,
                    category: string, frequency: string, targetCount: Option<int>, now: int): (v: HabitView)
    ensures v.id == id && v.user == user && v.createdAt == now && v.isActive
    ensures v.title == Text.Trim(title) && v.description == Text.TrimOpt(description)
    ensures v.category == category && v.frequency == frequency && v.targetCount == TargetOrOne(targetCount)
    ensures v.streakCurrent == 0 && v.streakLongest == 0 && v.completions == []
  {
    HabitView(id, user, Text.Trim(title), Text.TrimOpt(description), category, frequency,
              TargetOrOne(targetCount), true, now, 0, 0, [])
  }

  /** A character the two length measures disagree on never reaches a plain title or
      description, and there the request checks leave `save()` only two ways to fail: a
      title that trims to nothing or a target below 1. */
  lemma CreatePlainAccepted(id: HabitId, user: UserId, title: Option<string>, description: Option<string>,
                            category: Option<string>, frequency: Option<string>,
                            targetCount: Option<int>, now: int)
    requires CreateRequestValid(title, description, category, frequency)
    requires TextLength.Plain(title.value)
    requires description.Some? ==> TextLength.Plain(description.value)
    ensures SchemaAccepts(NewHabit(id, user, title.value, description, category.value, frequency.value, targetCount, now))
            <==> Text.Trim(title.value) != [] && TargetOrOne(targetCount) >= 1
  {
    TextLength.PlainLengths(title.value);
    TextLength.TrimmedUnits(title.value);
    if description.Some? {
      TextLength.PlainLengths(description.value);
      TextLength.TrimmedUnits(description.value);
    }
  }

  /** The same for a PUT: with plain strings in the patch, a document that was stored stays
      storable unless the new title trims to nothing or the new target is below 1. */
  lemma PatchPlainAccepted(v: HabitView, p: HabitPatch)
    requires SchemaAccepts(v) && UpdateRequestValid(p)
    requires p.title.Some? ==> TextLength.Plain(p.title.value)
    requires p.description.Some? ==> TextLength.Plain(p.description.value)
    ensures SchemaAccepts(Patched(v, p)) <==>
      && (p.title.Some? ==> Text.Trim(p.title.value) != [])
      && (p.targetCount.Some? ==> p.targetCount.value >= 1)
  {
    var w := Patched(v, p);
    PatchedKeepsTheRest(v, p);
    assert w.category in Categories && w.frequency in Frequencies;
    if p.title.Some? {
      TextLength.PlainLengths(p.title.value);
      TextLength.TrimmedUnits(p.title.value);
    }
    assert TextLength.Utf16Len(w.title) <= 100;
    if p.description.Some? {
      TextLength.PlainLengths(p.description.value);
      TextLength.TrimmedUnits(p.description.value);
    }
    assert w.description.Some? ==> TextLength.Utf16Len(w.description.value) <= 500;
  }

  /** `habit.completions.find(c => midnight(c.date) == today)`: a completion on `day`. */
  function CompletedOn(cs: seq<Completion>, day: int): (b: bool)
    ensures b <==> exists i :: 0 <= i < |cs| && Day(cs[i].date) == day
  {
    if cs == [] then false
    else if Day(cs[0].date) == day then true
    else
      var b := CompletedOn(cs[1..], day);
      assert b ==> exists i :: 0 <= i < |cs| && Day(cs[i].date) == day by {
        if b {
          var i :| 0 <= i < |cs[1..]| && Day(cs[1..][i].date) == day;
          assert Day(cs[i + 1].date) == day;
        }
      }
      b
  }

  /** The integer part of GET /api/habits/analytics (the average streak is a float and is
      not modelled). */
  datatype HabitAnalytics = HabitAnalytics(totalHabits: nat, totalCompletions: nat,
                                           longestStreak: int, dailyCompletions: map<int, nat>)

  /** `habits.reduce((sum, h) => sum + h.completions.length, 0)`. */
  function TotalCompletions(vs: seq<HabitView>): (n: nat)
    ensures vs == [] ==> n == 0
    ensures forall i :: 0 <= i < |vs| ==> |vs[i].completions| <= n
  {
    if vs == [] then 0 else |vs[0].completions| + TotalCompletions(vs[1..])
  }

  /** `Math.max(...habits.map(h => h.streak.longest), 0)`. */
  function LongestStreak(vs: seq<HabitView>): (m: int)
    ensures m >= 0
    ensures forall i :: 0 <= i < |vs| ==> vs[i].streakLongest <= m
    ensures m == 0 || exists i :: 0 <= i < |vs| && vs[i].streakLongest == m
  {
    if vs == [] then 0
    else
      var rest := LongestStreak(vs[1..]);
      assert forall i :: 1 <= i < |vs| ==> vs[i] == vs[1..][i - 1];
      assert rest == 0 || exists i :: 0 <= i < |vs| && vs[i].streakLongest == rest by {
        if rest != 0 {
          var i :| 0 <= i < |vs[1..]| && vs[1..][i].streakLongest == rest;
          assert vs[i + 1].streakLongest == rest;
        }
      }
      Max(vs[0].streakLongest, rest)
  }

  /** A completion counts in the 30-day histogram when its timestamp is not before `cutoff`. */
  function Recent(cs: seq<Completion>, cutoff: int): seq<Completion> {
    Sorting.Filter(cs, (c: Completion) => c.date >= cutoff)
  }

  /** The histogram after the completions `cs` have been counted into `m`, one by one. */
  function CountInto(m: map<int, nat>, cs: seq<Completion>, cutoff: int): map<int, nat>
    decreases |cs|
  {
    if cs == [] then m
    else
      var m' := CountInto(m, cs[..|cs| - 1], cutoff);
      var c := cs[|cs| - 1];
      if c.date >= cutoff then Tally.Bump(m', Day(c.date)) else m'
  }

  /** `dailyCompletions` after the habits `vs` have been visited, one by one. */
  function Histogram(vs: seq<HabitView>, cutoff: int): map<int, nat>
    decreases |vs|
  {
    if vs == [] then map[]
    else CountInto(Histogram(vs[..|vs| - 1], cutoff), vs[|vs| - 1].completions, cutoff)
  }

  /** Every recent completion adds one to the histogram's total. */
  lemma {:induction false} CountIntoTotal(m: map<int, nat>, cs: seq<Completion>, cutoff: int)
    ensures Tally.Total(CountInto(m, cs, cutoff)) == Tally.Total(m) + |Recent(cs, cutoff)|
    decreases |cs|
  {
    if cs != [] {
      var init, c := cs[..|cs| - 1], cs[|cs| - 1];
      assert cs == init + [c];
      CountIntoTotal(m, init, cutoff);
      Sorting.FilterAppend(init, [c], (c: Completion) => c.date >= cutoff);
      if c.date >= cutoff {
        Tally.BumpTotal(CountInto(m, init, cutoff), Day(c.date));
      }
    }
  }

  /** The positions in `cs` of the completions that count, in the histogram, for `day`. */
  ghost function Hits(cs: seq<Completion>, cutoff: int, day: int): set<nat> {
    set i: nat | i < |cs| && cs[i].date >= cutoff && Day(cs[i].date) == day
  }

  /** Per day key, the histogram counts exactly the recent completions of that day. */
  lemma {:induction false} CountIntoPerDay(m: map<int, nat>, cs: seq<Completion>, cutoff: int, day: int)
    ensures Tally.CountOf(CountInto(m, cs, cutoff), day) == Tally.CountOf(m, day) + |Hits(cs, cutoff, day)|
    decreases |cs|
  {
    if cs == [] {
      assert Hits(cs, cutoff, day) == {};
    } else {
      var n := |cs| - 1;
      var init, c := cs[..n], cs[n];
      CountIntoPerDay(m, init, cutoff, day);
      var before := Hits(init, cutoff, day);
      if c.date >= cutoff && Day(c.date) == day {
        assert Hits(cs, cutoff, day) == before + {n};
        assert n !in before;
      } else {
        assert Hits(cs, cutoff, day) == before;
      }
    }
  }

  /** A day key appears only for a day on which some recent completion falls. */
  lemma {:induction false} CountIntoKeys(m: map<int, nat>, cs: seq<Completion>, cutoff: int)
    ensures forall k :: k in CountInto(m, cs, cutoff) ==>
      k in m || exists i :: 0 <= i < |cs| && cs[i].date >= cutoff && Day(cs[i].date) == k
    decreases |cs|
  {
    if cs != [] {
      var init := cs[..|cs| - 1];
      CountIntoKeys(m, init, cutoff);
      forall k | k in CountInto(m, cs, cutoff)
        ensures k in m || exists i :: 0 <= i < |cs| && cs[i].date >= cutoff && Day(cs[i].date) == k
      {
        if k !in CountInto(m, init, cutoff) {
          assert cs[|cs| - 1].date >= cutoff && Day(cs[|cs| - 1].date) == k;
        } else if k !in m {
          var i :| 0 <= i < |init| && init[i].date >= cutoff && Day(init[i].date) == k;
          assert cs[i] == init[i];
        }
      }
    }
  }

  /** All completions of all habits that fall on or after `cutoff`. */
  function RecentCount(vs: seq<HabitView>, cutoff: int): nat
    decreases |vs|
  {
    if vs == [] then 0 else RecentCount(vs[..|vs| - 1], cutoff) + |Recent(vs[|vs| - 1].completions, cutoff)|
  }

  lemma {:induction false} RecentCountBound(vs: seq<HabitView>, cutoff: int)
    ensures RecentCount(vs, cutoff) <= TotalCompletions(vs)
    decreases |vs|
  {
    if vs != [] {
      var init, v := vs[..|vs| - 1], vs[|vs| - 1];
      RecentCountBound(init, cutoff);
      TotalCompletionsSnoc(init, v);
      assert vs == init + [v];
    }
  }

  lemma {:induction false} TotalCompletionsSnoc(vs: seq<HabitView>, v: HabitView)
    ensures TotalCompletions(vs + [v]) == TotalCompletions(vs) + |v.completions|
  {
    if vs == [] {
      assert [v][1..] == [];
    } else {
      assert (vs + [v])[1..] == vs[1..] + [v];
      TotalCompletionsSnoc(vs[1..], v);
    }
  }

  /** The histogram's values add up to the number of recent completions, so never to more
      than `totalCompletions`. */
  lemma {:induction false} HistogramTotal(vs: seq<HabitView>, cutoff: int)
    ensures Tally.Total(Histogram(vs, cutoff)) == RecentCount(vs, cutoff)
    ensures Tally.Total(Histogram(vs, cutoff)) <= TotalCompletions(vs)
    decreases |vs|
  {
    if vs != [] {
      HistogramTotal(vs[..|vs| - 1], cutoff);
      CountIntoTotal(Histogram(vs[..|vs| - 1], cutoff), vs[|vs| - 1].completions, cutoff);
    }
    RecentCountBound(vs, cutoff);
  }

  /** How many recent completions of all the habits `vs` fall on `day`. */
  ghost function DayHits(vs: seq<HabitView>, cutoff: int, day: int): nat
    decreases |vs|
  {
    if vs == [] then 0
    else DayHits(vs[..|vs| - 1], cutoff, day) + |Hits(vs[|vs| - 1].completions, cutoff, day)|
  }

  /** Per day key, the whole histogram counts exactly the recent completions of that day,
      over every habit. */
  lemma {:induction false} HistogramPerDay(vs: seq<HabitView>, cutoff: int, day: int)
    ensures Tally.CountOf(Histogram(vs, cutoff), day) == DayHits(vs, cutoff, day)
    decreases |vs|
  {
    if vs != [] {
      var init := vs[..|vs| - 1];
      HistogramPerDay(init, cutoff, day);
      CountIntoPerDay(Histogram(init, cutoff), vs[|vs| - 1].completions, cutoff, day);
    }
  }

  /** Every stored document passed the schema and has a consistent streak, ids are below
      `nextId`, and no id is stored twice. */
  ghost predicate Stored(docs: seq<HabitView>, nextId: nat) {
    && (forall i :: 0 <= i < |docs| ==> SchemaAccepts(docs[i]) && StreakOk(docs[i]) && docs[i].id < nextId)
    && (forall i, j :: 0 <= i < j < |docs| ==> docs[i].id != docs[j].id)
  }

  /** Writing back a loaded document that still passes the schema keeps the collection stored. */
  lemma ReplaceKeepsStored(docs: seq<HabitView>, nextId: nat, k: nat, v: HabitView)
    requires Stored(docs, nextId) && k < |docs| && v.id == docs[k].id
    requires SchemaAccepts(v) && StreakOk(v)
    ensures Stored(docs[k := v], nextId)
  {
    var n := docs[k := v];
    forall i, j | 0 <= i < j < |n| ensures n[i].id != n[j].id {
      assert n[i].id == docs[i].id && n[j].id == docs[j].id;
    }
  }

  /** The habit collection: the stored documents in insertion order. A handler loads a
      document into a `Habit` object, changes that object, and saves it back. */
  class HabitStore {
    var docs: seq<HabitView>
    var nextId: nat

    /** The collection invariant: see `Stored`. */
    ghost predicate Valid()
      reads this
    {
      Stored(docs, nextId)
    }

    constructor ()
      ensures Valid() && docs == [] && nextId == 0
    {
      docs, nextId := [], 0;
    }

    /** GET /api/habits: the caller's active habits, newest first. */
    method GetHabits(user: UserId) returns (r: seq<HabitView>)
      ensures r == ActiveHabits(docs, user)
    {
      r := ActiveHabits(docs, user);
    }

    /** POST /api/habits. */
    method CreateHabit(user: UserId, title: Option<string>, description: Option<string>,
                       category: Option<string>, frequency: Option<string>,
                       targetCount: Option<int>, now: int) returns (r: Outcome<HabitView>)
      requires Valid()
      modifies this
      ensures Valid()
      ensures !CreateRequestValid(title, description, category, frequency) ==> r == Fail(400, ValidationFailed)
      ensures CreateRequestValid(title, description, category, frequency) ==>
        var v := NewHabit(old(nextId), user, title.value, description, category.value, frequency.value,
                          targetCount, now);
        && (!SchemaAccepts(v) ==> r == Fail(500, ServerError))
        && (SchemaAccepts(v) ==> r == Ok(v) && docs == old(docs) + [v] && nextId == old(nextId) + 1)
      ensures r.Fail? ==> docs == old(docs) && nextId == old(nextId)
    {
      if !CreateRequestValid(title, description, category, frequency) {
        return Fail(400, ValidationFailed);
      }
      var h := new Habit(nextId, user, now, Text.Trim(title.value), Text.TrimOpt(description),
                         category.value, frequency.value, TargetOrOne(targetCount));
      if !SchemaAccepts(h.View()) {
        return Fail(500, ServerError);
      }
      Append(h.View());
      r := Ok(h.View());
    }

    /** `save()` of a new document, which takes the next id. */
    method Append(v: HabitView)
      requires Valid() && v.id == nextId && SchemaAccepts(v) && StreakOk(v)
      modifies this
      ensures Valid() && docs == old(docs) + [v] && nextId == old(nextId) + 1
    {
      docs := docs + [v];
      nextId := nextId + 1;
    }

    /** PUT /api/habits/:id: a patch of the fields the request carries. */
    method UpdateHabit(id: HabitId, user: UserId, p: HabitPatch) returns (r: Outcome<HabitView>)
      requires Valid()
      modifies this
      ensures Valid() && nextId == old(nextId)
      ensures !UpdateRequestValid(p) ==> r == Fail(400, ValidationFailed)
      ensures UpdateRequestValid(p) && Lookup(old(docs), id, user).None? ==> r == Fail(404, "Habit not found")
      ensures UpdateRequestValid(p) && Lookup(old(docs), id, user).Some? ==>
        var n := Patched(old(docs)[Lookup(old(docs), id, user).value], p);
        && (!SchemaAccepts(n) ==> r == Fail(500, ServerError))
        && (SchemaAccepts(n) ==> r.Ok?)
      ensures r.Fail? ==> docs == old(docs)
      ensures r.Ok? ==> var k := Lookup(old(docs), id, user);
        && k.Some? && r.value == Patched(old(docs)[k.value], p)
        && docs == old(docs)[k.value := r.value]
    {
      if !UpdateRequestValid(p) {
        return Fail(400, ValidationFailed);
      }
      var k := Lookup(docs, id, user);
      if k.None? {
        return Fail(404, "Habit not found");
      }
      var habit := new Habit.Load(docs[k.value]);
      habit.ApplyPatch(p);
      if !SchemaAccepts(habit.View()) {
        return Fail(500, ServerError);
      }
      ReplaceKeepsStored(docs, nextId, k.value, habit.View());
      docs := docs[k.value := habit.View()];
      r := Ok(habit.View());
    }

    /** POST /api/habits/:id/complete: at most one completion per day, then a new streak. */
    method CompleteHabit(id: HabitId, user: UserId, count: Option<int>, notes: Option<string>, now: int)
      returns (r: Outcome<HabitView>)
      requires Valid()
      modifies this
      ensures Valid() && nextId == old(nextId)
      ensures !CompleteRequestValid(count, notes) ==> r == Fail(400, ValidationFailed)
      ensures CompleteRequestValid(count, notes) && Lookup(old(docs), id, user).None?
              ==> r == Fail(404, "Habit not found")
      ensures CompleteRequestValid(count, notes) && Lookup(old(docs), id, user).Some?
              && CompletedOn(old(docs)[Lookup(old(docs), id, user).value].completions, Day(now))
              ==> r == Fail(400, "Habit already completed today")
      ensures CompleteRequestValid(count, notes) && Lookup(old(docs), id, user).Some?
              && !CompletedOn(old(docs)[Lookup(old(docs), id, user).value].completions, Day(now))
              ==> (!NotesFit(notes) ==> r == Fail(500, ServerError)) && (NotesFit(notes) ==> r.Ok?)
      ensures r.Fail? ==> docs == old(docs)
      ensures r.Ok? ==> var k := Lookup(old(docs), id, user);
        && k.Some?
        && var before := old(docs)[k.value];
        && !CompletedOn(before.completions, Day(now))
        && multiset(r.value.completions) == multiset(before.completions) + multiset{Completion(now, count.GetOr(1), notes)}
        && Sorting.Descending(r.value.completions, DateOf)
        && (r.value.streakCurrent, r.value.streakLongest)
           == StreakAfter(DaysOf(r.value.completions), Day(now), before.streakLongest)
        && r.value == before.(completions := r.value.completions,
                              streakCurrent := r.value.streakCurrent,
                              streakLongest := r.value.streakLongest)
        && docs == old(docs)[k.value := r.value]
    {
      if !CompleteRequestValid(count, notes) {
        return Fail(400, ValidationFailed);
      }
      var k := Lookup(docs, id, user);
      if k.None? {
        return Fail(404, "Habit not found");
      }
      var habit := new Habit.Load(docs[k.value]);
      if CompletedOn(habit.completions, Day(now)) {
        return Fail(400, "Habit already completed today");
      }
      ghost var before := habit.completions;
      habit.Complete(Completion(now, count.GetOr(1), notes), now);
      AddedCompletionFits(before, habit.completions, Completion(now, count.GetOr(1), notes));
      if !SchemaAccepts(habit.View()) {
        return Fail(500, ServerError);
      }
      ReplaceKeepsStored(docs, nextId, k.value, habit.View());
      docs := docs[k.value := habit.View()];
      r := Ok(habit.View());
    }

    /** DELETE /api/habits/:id: a soft delete. */
    method DeleteHabit(id: HabitId, user: UserId) returns (r: Outcome<()>)
      requires Valid()
      modifies this
      ensures Valid() && nextId == old(nextId)
      ensures r.Fail? <==> Lookup(old(docs), id, user).None?
      ensures r.Fail? ==> r == Fail(404, "Habit not found") && docs == old(docs)
      ensures r.Ok? ==> var k := Lookup(old(docs), id, user).value;
        docs == old(docs)[k := old(docs)[k].(isActive := false)]
    {
      var k := Lookup(docs, id, user);
      if k.None? {
        return Fail(404, "Habit not found");
      }
      var habit := new Habit.Load(docs[k.value]);
      habit.Deactivate();
      ReplaceKeepsStored(docs, nextId, k.value, habit.View());
      docs := docs[k.value := habit.View()];
      r := Ok(());
    }

    /** GET /api/habits/analytics, with `now` for `new Date()`. */
    method Analytics(user: UserId, now: int) returns (a: HabitAnalytics)
      ensures var mine := Sorting.Filter(docs, (v: HabitView) => v.user == user && v.isActive);
        && a.totalHabits == |mine|
        && a.totalCompletions == TotalCompletions(mine)
        && a.longestStreak == LongestStreak(mine)
        && a.dailyCompletions == Histogram(mine, DaysBefore(now, 30))
        && Tally.Total(a.dailyCompletions) <= a.totalCompletions
    {
      var habits := Sorting.Filter(docs, (v: HabitView) => v.user == user && v.isActive);
      var thirtyDaysAgo := DaysBefore(now, 30);
      var daily: map<int, nat> := map[];
      for i := 0 to |habits|
        invariant daily == Histogram(habits[..i], thirtyDaysAgo)
      {
        var cs := habits[i].completions;
        assert habits[..i + 1][..i] == habits[..i];
        for j := 0 to |cs|
          invariant daily == CountInto(Histogram(habits[..i], thirtyDaysAgo), cs[..j], thirtyDaysAgo)
        {
          assert cs[..j + 1][..j] == cs[..j];
          if cs[j].date >= thirtyDaysAgo {
            daily := daily[Day(cs[j].date) := Tally.CountOf(daily, Day(cs[j].date)) + 1];
          }
        }
        assert cs[..|cs|] == cs;
      }
      assert habits[..|habits|] == habits;
      HistogramTotal(habits, thirtyDaysAgo);
      a := HabitAnalytics(|habits|, TotalCompletions(habits), LongestStreak(habits), daily);
    }
  }
}
