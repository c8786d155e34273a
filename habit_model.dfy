/** The habit document (backend/models/Habit.js) and its streak engine `updateStreak`. */
module HabitModel {
  import opened Wrappers
  import opened Time
  import Sorting
  import Text
  import TextLength

  type UserId = nat
  type HabitId = nat

  const Categories: seq<string> := ["health", "productivity", "learning", "fitness", "mindfulness", "social", "other"]
  const Frequencies: seq<string> := ["daily", "weekly", "monthly"]

  /** One entry of `completions`: when (a timestamp), how many, and an optional note. */
  datatype Completion = Completion(date: int, count: int, notes: Option<string>)

  function DateOf(c: Completion): int { c.date }

  /** The midnight-truncated day of every completion, in list order. */
  function DaysOf(cs: seq<Completion>): (ds: seq<int>)
    ensures |ds| == |cs|
    ensures forall i :: 0 <= i < |cs| ==> ds[i] == Day(cs[i].date)
  {
    if cs == [] then [] else [Day(cs[0].date)] + DaysOf(cs[1..])
  }

  function Max(a: int, b: int): int { if a < b then b else a }

  /** The three counters of the walk in `updateStreak`: `currentStreak`, `longestStreak`
      and `tempStreak`. */
  datatype Walk = Walk(current: int, longest: int, temp: int)

  /** One iteration of the walk, at index `i` of the newest-first day list `days`. */
  function Step(w: Walk, days: seq<int>, today: int, i: nat): Walk
    requires i < |days|
  {
    if i == 0 then
      // the newest completion starts a run only if it is from today or yesterday
      if today - days[0] <= 1 then Walk(1, w.longest, 1) else w
    else if days[i - 1] - days[i] == 1 then
      var t := w.temp + 1;
      Walk(if i == 1 then t else w.current, w.longest, t)
    else
      Walk(if i == 1 then 0 else w.current, Max(w.longest, w.temp), 1)
  }

  /** The counters after the first `n` iterations. */
  function WalkTo(days: seq<int>, today: int, n: nat): Walk
    requires n <= |days|
  {
    if n == 0 then Walk(0, 0, 0) else Step(WalkTo(days, today, n - 1), days, today, n - 1)
  }

  /** `streak.current` and `streak.longest` after `updateStreak`, for the newest-first day
      list `days`, today's day number and the stored `streak.longest`. */
  function StreakAfter(days: seq<int>, today: int, oldLongest: int): (int, int) {
    if days == [] then (0, oldLongest)
    else
      var w := WalkTo(days, today, |days|);
      (w.current, Max(oldLongest, Max(w.longest, w.temp)))
  }

  /** Invariants of the walk: the run counters never exceed the number of completions seen,
      `current` is 0, 1 or 2, and `current` never exceeds the best run known so far. */
  lemma {:induction false} WalkBounds(days: seq<int>, today: int, n: nat)
    requires n <= |days|
    ensures var w := WalkTo(days, today, n);
      && 0 <= w.temp <= n && 0 <= w.longest <= n
      && 0 <= w.current <= 2 && w.current <= n
      && w.current <= Max(w.longest, w.temp)
  {
    if n > 0 {
      WalkBounds(days, today, n - 1);
    }
  }

  /** A stale newest completion (more than a day before today) leaves, at index 0, both
      `current` and the run counter at 0. */
  lemma {:induction false} StaleNewestStartsNoRun(days: seq<int>, today: int)
    requires |days| >= 1 && today - days[0] > 1
    ensures WalkTo(days, today, 1) == Walk(0, 0, 0)
  {
    assert WalkTo(days, today, 0) == Walk(0, 0, 0);
  }

  /** When the two newest completions are not exactly one day apart, `current` is 0 from
      index 1 on, even if the newest is from today. */
  lemma {:induction false} GapAfterNewestResetsCurrent(days: seq<int>, today: int, n: nat)
    requires 2 <= n <= |days| && days[0] - days[1] != 1
    ensures WalkTo(days, today, n).current == 0
  {
    if n > 2 {
      GapAfterNewestResetsCurrent(days, today, n - 1);
    }
  }

  /** What one call of `updateStreak` promises about the streak it stores. */
  lemma StreakAfterBounds(days: seq<int>, today: int, oldLongest: int)
    requires oldLongest >= 0
    ensures var (current, longest) := StreakAfter(days, today, oldLongest);
      && longest >= oldLongest
      && 0 <= current <= 2
      && current <= longest
      && (days == [] ==> current == 0 && longest == oldLongest)
      && (longest > oldLongest ==> longest <= |days|)
      && (|days| >= 2 && days[0] - days[1] != 1 ==> current == 0)
  {
    if days != [] {
      WalkBounds(days, today, |days|);
      if |days| >= 2 && days[0] - days[1] != 1 {
        GapAfterNewestResetsCurrent(days, today, |days|);
      }
    }
  }

  /** The JSON form of a habit document, as a handler returns it. */
  datatype HabitView = HabitView(
    id: HabitId, user: UserId, title: string, description: Option<string>,
    category: string, frequency: string, targetCount: int, isActive: bool,
    createdAt: int, streakCurrent: int, streakLongest: int, completions: seq<Completion>)

  function CreatedAtOf(v: HabitView): int { v.createdAt }

  /** A stored streak is never negative and `current` never exceeds `longest`. */
  ghost predicate StreakOk(v: HabitView) {
    0 <= v.streakCurrent <= v.streakLongest
  }

  /** A completion's note is within the schema's `maxlength` of 200 UTF-16 units (the
      schema does not trim it). */
  predicate NotesFit(notes: Option<string>) {
    notes.Some? ==> TextLength.Utf16Len(notes.value) <= 200
  }

  /** What `save()` checks of a habit document: a title that is not empty and within 100
      UTF-16 units, a description within 500, a category and a frequency from their enums,
      a target of at least 1, and every completion's note within 200. */
  predicate SchemaAccepts(v: HabitView) {
    && v.title != [] && TextLength.Utf16Len(v.title) <= 100
    && (v.description.Some? ==> TextLength.Utf16Len(v.description.value) <= 500)
    && v.category in Categories && v.frequency in Frequencies
    && v.targetCount >= 1
    && forall i :: 0 <= i < |v.completions| ==> NotesFit(v.completions[i].notes)
  }

  /** When one completion joins notes that all fit, they all still fit exactly when the
      new one does. */
  lemma AddedCompletionFits(before: seq<Completion>, after: seq<Completion>, c: Completion)
    requires multiset(after) == multiset(before) + multiset{c}
    requires forall i :: 0 <= i < |before| ==> NotesFit(before[i].notes)
    ensures (forall i :: 0 <= i < |after| ==> NotesFit(after[i].notes)) <==> NotesFit(c.notes)
  {
    assert c in multiset(after);
    var k :| 0 <= k < |after| && after[k] == c;
    if NotesFit(c.notes) {
      forall i | 0 <= i < |after| ensures NotesFit(after[i].notes) {
        assert after[i] in multiset(after);
        if after[i] != c {
          assert after[i] in multiset(before);
          var j :| 0 <= j < |before| && before[j] == after[i];
        }
      }
    }
  }

  /** The fields of a PUT body; `None` is a field the request leaves undefined. */
  datatype HabitPatch = HabitPatch(title: Option<string>, description: Option<string>,
                                   category: Option<string>, frequency: Option<string>,
                                   targetCount: Option<int>)

  /** The document after the PUT handler's `if (x !== undefined) habit.x = x` assignments
      (the schema trims the strings it stores). */
  function Patched(v: HabitView, p: HabitPatch): HabitView {
    v.(title := if p.title.Some? then Text.Trim(p.title.value) else v.title,
       description := if p.description.Some? then Text.TrimOpt(p.description) else v.description,
       category := p.category.GetOr(v.category),
       frequency := p.frequency.GetOr(v.frequency),
       targetCount := p.targetCount.GetOr(v.targetCount))
  }

  /** A patch touches exactly the fields it carries: everything else, the streak, the
      completions, the owner and the active flag included, is kept. */
  lemma PatchedKeepsTheRest(v: HabitView, p: HabitPatch)
    ensures var w := Patched(v, p);
      && w.id == v.id && w.user == v.user && w.isActive == v.isActive && w.createdAt == v.createdAt
      && w.streakCurrent == v.streakCurrent && w.streakLongest == v.streakLongest
      && w.completions == v.completions
      && (p.category.None? ==> w.category == v.category)
      && (p.category.Some? ==> w.category == p.category.value)
      && (p.frequency.None? ==> w.frequency == v.frequency)
      && (p.targetCount.None? ==> w.targetCount == v.targetCount)
      && (p.targetCount.Some? ==> w.targetCount == p.targetCount.value)
      && (p.title.None? ==> w.title == v.title)
      && (p.description.None? ==> w.description == v.description)
      && (p == HabitPatch(None, None, None, None, None) ==> w == v)
  {
  }

  /** Applying the same patch twice is the same as applying it once. */
  lemma {:induction false} PatchedIdempotent(v: HabitView, p: HabitPatch)
    ensures Patched(Patched(v, p), p) == Patched(v, p)
  {
    var w := Patched(v, p);
    var u := Patched(w, p);
    if p.title.Some? {
      Text.TrimIdempotent(p.title.value);
    }
    assert u.title == w.title;
    if p.description.Some? {
      Text.TrimIdempotent(p.description.value);
    }
    assert u.description == w.description;
  }

  /** A habit document whose fields the handlers change in place. */
  class Habit {
    const id: HabitId
    const user: UserId
    const createdAt: int
    var title: string
    var description: Option<string>
    var category: string
    var frequency: string
    var targetCount: int
    var isActive: bool
    var streakCurrent: int
    var streakLongest: int
    var completions: seq<Completion>

    /** `new Habit({...})`: schema defaults for everything the caller does not give. */
    constructor (id: HabitId, user: UserId, createdAt: int, title: string, description: Option<string>,
                 category: string, frequency: string, targetCount: int)
      ensures this.id == id && this.user == user && this.createdAt == createdAt
      ensures this.title == title && this.description == description
      ensures this.category == category && this.frequency == frequency && this.targetCount == targetCount
      ensures isActive && streakCurrent == 0 && streakLongest == 0 && completions == []
      ensures Valid()
    {
      this.id, this.user, this.createdAt := id, user, createdAt;
      this.title, this.description := title, description;
      this.category, this.frequency, this.targetCount := category, frequency, targetCount;
      isActive, streakCurrent, streakLongest, completions := true, 0, 0, [];
    }

    /** `Habit.findOne(...)`: a document object loaded from its stored form. */
    constructor Load(v: HabitView)
      ensures View() == v
    {
      id, user, createdAt := v.id, v.user, v.createdAt;
      title, description, category, frequency, targetCount := v.title, v.description, v.category, v.frequency, v.targetCount;
      isActive, streakCurrent, streakLongest, completions := v.isActive, v.streakCurrent, v.streakLongest, v.completions;
    }

    /** The streak counters are never negative and `current` never exceeds `longest`. */
    ghost predicate Valid()
      reads this
    {
      0 <= streakCurrent <= streakLongest
    }

    function View(): HabitView
      reads this
    {
      HabitView(id, user, title, description, category, frequency, targetCount, isActive,
                createdAt, streakCurrent, streakLongest, completions)
    }

    /** `updateStreak`: sorts `completions` newest first in place, then walks them once,
        with `now` standing in for `new Date()`. */
    method UpdateStreak(now: int)
      requires Valid()
      modifies this`completions, this`streakCurrent, this`streakLongest
      ensures completions == (if old(completions) == [] then [] else Sorting.SortDescending(old(completions), DateOf))
      ensures Sorting.Descending(completions, DateOf)
      ensures multiset(completions) == multiset(old(completions))
      ensures (streakCurrent, streakLongest) == StreakAfter(DaysOf(completions), Day(now), old(streakLongest))
      ensures streakLongest >= old(streakLongest)
      ensures Valid() && streakCurrent <= 2
      ensures old(completions) == [] ==> streakCurrent == 0 && streakLongest == old(streakLongest)
    {
      if |completions| == 0 {
        streakCurrent := 0;
        StreakAfterBounds([], Day(now), streakLongest);
        return;
      }
      var sorted := Sorting.SortDescending(completions, DateOf);
      completions := sorted;
      var today := Day(now);
      var currentStreak, longestStreak, tempStreak := WalkCompletions(sorted, today);
      longestStreak := Max(longestStreak, tempStreak);
      var stored := streakLongest;
      StreakAfterBounds(DaysOf(sorted), today, stored);
      streakCurrent := currentStreak;
      streakLongest := Max(stored, longestStreak);
    }

    /** The `for` loop of `updateStreak` over the newest-first completions. */
    static method WalkCompletions(sorted: seq<Completion>, today: int)
      returns (currentStreak: int, longestStreak: int, tempStreak: int)
      ensures Walk(currentStreak, longestStreak, tempStreak) == WalkTo(DaysOf(sorted), today, |sorted|)
    {
      ghost var days := DaysOf(sorted);
      currentStreak, longestStreak, tempStreak := 0, 0, 0;
      for i := 0 to |sorted|
        invariant Walk(currentStreak, longestStreak, tempStreak) == WalkTo(days, today, i)
      {
        assert WalkTo(days, today, i + 1) == Step(WalkTo(days, today, i), days, today, i);
        var completionDate := Day(sorted[i].date);
        if i == 0 {
          var daysDiff := today - completionDate;
          if daysDiff <= 1 {
            currentStreak := 1;
            tempStreak := 1;
          }
        } else {
          var prevDate := Day(sorted[i - 1].date);
          var daysDiff := prevDate - completionDate;
          if daysDiff == 1 {
            tempStreak := tempStreak + 1;
            if i == 1 { currentStreak := tempStreak; }
          } else {
            longestStreak := Max(longestStreak, tempStreak);
            tempStreak := 1;
            if i == 1 { currentStreak := 0; }
          }
        }
      }
    }

    /** The PUT handler's assignments `if (x !== undefined) habit.x = x`. */
    method ApplyPatch(p: HabitPatch)
      modifies this`title, this`description, this`category, this`frequency, this`targetCount
      ensures View() == Patched(old(View()), p)
    {
      var after := Patched(View(), p);
      title, description, category, frequency, targetCount :=
        after.title, after.description, after.category, after.frequency, after.targetCount;
    }

    /** The soft delete `habit.isActive = false`. */
    method Deactivate()
      modifies this`isActive
      ensures View() == old(View()).(isActive := false)
    {
      isActive := false;
    }

    /** `habit.completions.push(c)` followed by `updateStreak`. */
    method Complete(c: Completion, now: int)
      requires Valid()
      modifies this`completions, this`streakCurrent, this`streakLongest
      ensures multiset(completions) == multiset(old(completions)) + multiset{c}
      ensures Sorting.Descending(completions, DateOf)
      ensures (streakCurrent, streakLongest) == StreakAfter(DaysOf(completions), Day(now), old(streakLongest))
      ensures Valid()
    {
      completions := completions + [c];
      UpdateStreak(now);
    }
  }
}
