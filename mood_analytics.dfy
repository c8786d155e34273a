/** The integer parts of GET /api/moods/analytics: the entries of the last `days` days,
    the count per mood, the entries grouped by day, and the weekly windows. */
module MoodAnalytics {
  import opened Wrappers
  import opened Time
  import opened Moods
  import Sorting
  import Tally

  /** `Mood.find({ user, date: { $gte: startDate } }).sort({ date: 1 })`, where `startDate`
      is `days` days before now. */
  function Fetch(docs: seq<Mood>, user: UserId, now: int, days: int): (r: seq<Mood>)
    ensures forall m :: m in r <==> m in docs && m.user == user && m.date >= DaysBefore(now, days)
    ensures forall m :: multiset(r)[m] ==
              if m.user == user && m.date >= DaysBefore(now, days) then multiset(docs)[m] else 0
    ensures Sorting.Ascending(r, DateOf)
  {
    var recent := (m: Mood) => m.user == user && m.date >= DaysBefore(now, days);
    var found := Sorting.Filter(docs, recent);
    Sorting.FilterCounts(docs, recent);
    var r := Sorting.SortAscending(found, DateOf);
    Sorting.SameMembers(found, r);
    r
  }

  // ---------------------------------------------------------------- moodDistribution

  /** `moodCounts`: one counter per mood of the enum. */
  datatype Distribution = Distribution(verySad: nat, sad: nat, neutral: nat, happy: nat, veryHappy: nat)

  const NoMoods := Distribution(0, 0, 0, 0, 0)

  function CountFor(d: Distribution, k: MoodKind): nat {
    match k
    case VerySad => d.verySad
    case Sad => d.sad
    case Neutral => d.neutral
    case Happy => d.happy
    case VeryHappy => d.veryHappy
  }

  function Sum(d: Distribution): nat {
    d.verySad + d.sad + d.neutral + d.happy + d.veryHappy
  }

  /** `moodCounts[mood]++`. */
  function Bumped(d: Distribution, k: MoodKind): (r: Distribution)
    ensures CountFor(r, k) == CountFor(d, k) + 1
    ensures forall other :: other != k ==> CountFor(r, other) == CountFor(d, other)
  {
    match k
    case VerySad => d.(verySad := d.verySad + 1)
    case Sad => d.(sad := d.sad + 1)
    case Neutral => d.(neutral := d.neutral + 1)
    case Happy => d.(happy := d.happy + 1)
    case VeryHappy => d.(veryHappy := d.veryHappy + 1)
  }

  /** How many of the entries have the given mood. */
  function Occurrences(ms: seq<Mood>, k: MoodKind): nat
    decreases |ms|
  {
    if ms == [] then 0
    else Occurrences(ms[..|ms| - 1], k) + (if ms[|ms| - 1].mood == k then 1 else 0)
  }

  /** The counters after the entries `ms`, one bump per entry. */
  function Tallied(ms: seq<Mood>): Distribution
    decreases |ms|
  {
    if ms == [] then NoMoods else Bumped(Tallied(ms[..|ms| - 1]), ms[|ms| - 1].mood)
  }

  /** Each counter holds the number of entries with its mood, so the counters add up to
      the number of entries (`totalEntries`). */
  lemma {:induction false} TalliedCounts(ms: seq<Mood>)
    ensures forall k :: CountFor(Tallied(ms), k) == Occurrences(ms, k)
    ensures Sum(Tallied(ms)) == |ms|
    decreases |ms|
  {
    if ms != [] {
      var init := ms[..|ms| - 1];
      TalliedCounts(init);
      var d := Tallied(init);
      match ms[|ms| - 1].mood
      case VerySad => assert Sum(Bumped(d, VerySad)) == Sum(d) + 1;
      case Sad => assert Sum(Bumped(d, Sad)) == Sum(d) + 1;
      case Neutral => assert Sum(Bumped(d, Neutral)) == Sum(d) + 1;
      case Happy => assert Sum(Bumped(d, Happy)) == Sum(d) + 1;
      case VeryHappy => assert Sum(Bumped(d, VeryHappy)) == Sum(d) + 1;
    }
  }

  /** The `moodCounts[m.mood]++` part of the `forEach`. */
  method Distribute(ms: seq<Mood>) returns (d: Distribution)
    ensures d == Tallied(ms)
  {
    d := NoMoods;
    for i := 0 to |ms|
      invariant d == Tallied(ms[..i])
    {
      assert ms[..i + 1][..i] == ms[..i];
      d := Bumped(d, ms[i].mood);
    }
    assert ms[..|ms|] == ms;
  }

  // ---------------------------------------------------------------- dailyMoods

  /** What `dailyMoods[dateKey].push(...)` records of an entry. */
  datatype Entry = Entry(mood: MoodKind, intensity: int)

  function EntryOf(m: Mood): Entry { Entry(m.mood, m.intensity) }

  /** The entries of one day, in the order of `ms`. */
  function DayEntries(ms: seq<Mood>, day: int): seq<Entry>
    decreases |ms|
  {
    if ms == [] then []
    else DayEntries(ms[..|ms| - 1], day) + (if Day(ms[|ms| - 1].date) == day then [EntryOf(ms[|ms| - 1])] else [])
  }

  /** The days on which some mood falls, as the `dateKey`s of the loop. */
  function DaysOf(ms: seq<Mood>): set<int>
    decreases |ms|
  {
    if ms == [] then {} else DaysOf(ms[..|ms| - 1]) + {Day(ms[|ms| - 1].date)}
  }

  ghost predicate HasDay(ms: seq<Mood>, day: int) {
    exists j :: 0 <= j < |ms| && Day(ms[j].date) == day
  }

  /** `DaysOf` holds exactly the days some mood falls on. */
  lemma {:induction false} DaysOfMeaning(ms: seq<Mood>, day: int)
    ensures day in DaysOf(ms) <==> HasDay(ms, day)
    decreases |ms|
  {
    if ms != [] {
      var init := ms[..|ms| - 1];
      DaysOfMeaning(init, day);
      if HasDay(init, day) {
        var j :| 0 <= j < |init| && Day(init[j].date) == day;
        assert ms[j] == init[j];
      }
      if HasDay(ms, day) && Day(ms[|ms| - 1].date) != day {
        var j :| 0 <= j < |ms| && Day(ms[j].date) == day;
        assert init[j] == ms[j];
      }
    }
  }

  /** A day has entries exactly when some mood falls on it. */
  lemma {:induction false} DayEntriesEmpty(ms: seq<Mood>, day: int)
    ensures DayEntries(ms, day) == [] <==> day !in DaysOf(ms)
    decreases |ms|
  {
    if ms != [] {
      DayEntriesEmpty(ms[..|ms| - 1], day);
    }
  }

  /** The sizes of the day buckets. */
  ghost function Sizes(daily: map<int, seq<Entry>>): map<int, nat> {
    map d | d in daily :: |daily[d]|
  }

  /** The `dailyMoods` part of the `forEach`: each entry is pushed to the bucket of its day. */
  method GroupByDay(ms: seq<Mood>) returns (daily: map<int, seq<Entry>>)
    ensures daily.Keys == DaysOf(ms)
    ensures forall d :: d in daily ==> daily[d] == DayEntries(ms, d)
    ensures Tally.Total(Sizes(daily)) == |ms|
  {
    daily := map[];
    for i := 0 to |ms|
      invariant daily.Keys == DaysOf(ms[..i])
      invariant forall d :: d in daily ==> daily[d] == DayEntries(ms[..i], d)
      invariant Tally.Total(Sizes(daily)) == i
    {
      var key := Day(ms[i].date);
      ghost var before := daily;
      daily := Push(daily, key, EntryOf(ms[i]));
      Sorting.PrefixSnoc(ms, i);
      GroupKeys(ms[..i], ms[i], before, daily);
      GroupBuckets(ms[..i], ms[i], before, daily);
      GroupSizes(before, key, EntryOf(ms[i]), daily);
    }
    assert ms[..|ms|] == ms;
  }

  /** `if (!dailyMoods[dateKey]) dailyMoods[dateKey] = []; dailyMoods[dateKey].push(e)`. */
  method Push(daily: map<int, seq<Entry>>, key: int, e: Entry) returns (after: map<int, seq<Entry>>)
    ensures Pushed(daily, key, e, after)
  {
    after := daily;
    if key !in after {
      after := after[key := []];
    }
    after := after[key := after[key] + [e]];
  }

  /** Pushing one entry to the bucket of its day, as a map update. */
  ghost predicate Pushed(before: map<int, seq<Entry>>, key: int, e: Entry, after: map<int, seq<Entry>>) {
    after == before[key := (if key in before then before[key] else []) + [e]]
  }

  /** The keys after one push are the days of the moods so far. */
  lemma GroupKeys(init: seq<Mood>, m: Mood, before: map<int, seq<Entry>>, after: map<int, seq<Entry>>)
    requires before.Keys == DaysOf(init)
    requires Pushed(before, Day(m.date), EntryOf(m), after)
    ensures after.Keys == DaysOf(init + [m])
  {
    assert (init + [m])[..|init|] == init;
  }

  /** The buckets after one push hold the entries of each day so far. */
  lemma GroupBuckets(init: seq<Mood>, m: Mood, before: map<int, seq<Entry>>, after: map<int, seq<Entry>>)
    requires before.Keys == DaysOf(init)
    requires forall d :: d in before ==> before[d] == DayEntries(init, d)
    requires Pushed(before, Day(m.date), EntryOf(m), after)
    ensures forall d :: d in after ==> after[d] == DayEntries(init + [m], d)
  {
    var next := init + [m];
    assert next[..|next| - 1] == init && next[|next| - 1] == m;
    forall d | d in after ensures after[d] == DayEntries(next, d) {
      if d == Day(m.date) && d !in before {
        DayEntriesEmpty(init, d);
      }
    }
  }

  /** One push adds one to the total size of the buckets. */
  lemma GroupSizes(before: map<int, seq<Entry>>, key: int, e: Entry, after: map<int, seq<Entry>>)
    requires Pushed(before, key, e, after)
    ensures Tally.Total(Sizes(after)) == Tally.Total(Sizes(before)) + 1
  {
    var bumped := Tally.Bump(Sizes(before), key);
    assert Sizes(after).Keys == after.Keys == bumped.Keys;
    forall d | d in after ensures Sizes(after)[d] == bumped[d] {
      if d == key {
        assert Tally.CountOf(Sizes(before), key) == if key in before then |before[key]| else 0;
      }
    }
    assert Sizes(after) == bumped;
    Tally.BumpTotal(Sizes(before), key);
  }

  // ---------------------------------------------------------------- weeklyTrends

  /** One week of `weeklyTrends`: the bounds (both included), the sum of the mood scores
      whose average is reported, and the number of entries. */
  datatype WeekTrend = WeekTrend(start: int, end: int, valueSum: nat, count: nat)

  /** The entries dated from `lo` to `hi`, both included. */
  function Within(ms: seq<Mood>, lo: int, hi: int): (r: seq<Mood>)
    ensures |r| <= |ms|
    ensures forall m :: m in r <==> m in ms && lo <= m.date <= hi
    decreases |ms|
  {
    if ms == [] then []
    else
      var m := ms[|ms| - 1];
      assert ms == ms[..|ms| - 1] + [m];
      Within(ms[..|ms| - 1], lo, hi) + (if lo <= m.date <= hi then [m] else [])
  }

  /** A week holds each entry between its bounds as often as the fetched entries do. */
  lemma {:induction false} WithinCounts(ms: seq<Mood>, lo: int, hi: int)
    ensures forall m :: multiset(Within(ms, lo, hi))[m] == if lo <= m.date <= hi then multiset(ms)[m] else 0
    decreases |ms|
  {
    if ms != [] {
      var init := ms[..|ms| - 1];
      assert ms == init + [ms[|ms| - 1]];
      WithinCounts(init, lo, hi);
    }
  }

  /** The sum of the mood scores, the numerator of a week's average. */
  function ValueSum(ms: seq<Mood>): nat
    decreases |ms|
  {
    if ms == [] then 0 else ValueSum(ms[..|ms| - 1]) + MoodValue(ms[|ms| - 1].mood)
  }

  /** The two ways of placing the weeks: as the handler does, from `i + 6` days before now
      to `i` days before now, which skips the day between `i + 7` and `i + 6` days back;
      or tiled, from just after `i + 7` days back, so that consecutive weeks meet. */
  datatype Windowing = AsWritten | Tiled

  function Window(w: Windowing, now: int, i: int): (r: (int, int))
    ensures r.1 == WindowEnd(now, i)
  {
    match w
    case AsWritten => (now - (i + 6) * MsPerDay, WindowEnd(now, i))
    case Tiled => (now - (i + 7) * MsPerDay + 1, WindowEnd(now, i))
  }

  /** Both ways end a window `i` days before now. */
  function WindowEnd(now: int, i: int): int {
    now - i * MsPerDay
  }

  predicate InWindow(date: int, bounds: (int, int)) {
    bounds.0 <= date <= bounds.1
  }

  /** The number of turns of `for (let i = 0; i < days; i += 7)`. */
  function Weeks(days: int): nat {
    if days <= 0 then 0 else (days + 6) / 7
  }

  /** The trend of one window, when it holds any entry. */
  function TrendOf(ms: seq<Mood>, bounds: (int, int)): (t: Option<WeekTrend>)
    ensures t.Some? <==> Within(ms, bounds.0, bounds.1) != []
    ensures t.Some? ==> t.value.start == bounds.0 && t.value.end == bounds.1
                        && t.value.count == |Within(ms, bounds.0, bounds.1)| >= 1
  {
    var week := Within(ms, bounds.0, bounds.1);
    if |week| > 0 then Some(WeekTrend(bounds.0, bounds.1, ValueSum(week), |week|)) else None
  }

  /** `weeklyTrends` after `n` turns of the loop: each non-empty week is put in front. */
  function Trends(ms: seq<Mood>, now: int, n: nat, w: Windowing): seq<WeekTrend>
    decreases n
  {
    if n == 0 then []
    else
      var t := TrendOf(ms, Window(w, now, 7 * (n - 1)));
      (if t.Some? then [t.value] else []) + Trends(ms, now, n - 1, w)
  }

  /** A later turn looks further back: its week ends earlier. */
  lemma WindowEnds(now: int, i: nat)
    ensures WindowEnd(now, i + 7) < WindowEnd(now, i) <= now
  {
    assert (i + 7) * MsPerDay == i * MsPerDay + 7 * MsPerDay;
  }

  /** At most one week per turn; only weeks holding an entry, each with its count. */
  lemma {:induction false} TrendsCounts(ms: seq<Mood>, now: int, n: nat, w: Windowing)
    ensures var t := Trends(ms, now, n, w);
      && |t| <= n
      && (forall k :: 0 <= k < |t| ==> t[k].count >= 1 && t[k].count == |Within(ms, t[k].start, t[k].end)|)
    decreases n
  {
    if n > 0 {
      TrendsCounts(ms, now, n - 1, w);
    }
  }

  /** Every week of `t` ends between `lo` and `hi`. */
  predicate EndsWithin(t: seq<WeekTrend>, lo: int, hi: int) {
    forall k :: 0 <= k < |t| ==> lo <= t[k].end <= hi
  }

  /** The weeks of `t` end strictly later one after the other. */
  predicate EndsAscending(t: seq<WeekTrend>) {
    forall k, l :: 0 <= k < l < |t| ==> t[k].end < t[l].end
  }

  /** Putting one earlier week in front keeps the weeks in order. */
  lemma PrependEarlier(head: seq<WeekTrend>, rest: seq<WeekTrend>, first: int, second: int, hi: int)
    requires |head| <= 1 && (forall k :: 0 <= k < |head| ==> head[k].end == first)
    requires first < second <= hi && EndsWithin(rest, second, hi) && EndsAscending(rest)
    ensures EndsWithin(head + rest, first, hi) && EndsAscending(head + rest)
  {
    var t := head + rest;
    forall k, l | 0 <= k < l < |t| ensures t[k].end < t[l].end {
      if k >= |head| {
        assert t[k] == rest[k - |head|] && t[l] == rest[l - |head|];
      } else {
        assert t[l] == rest[l - |head|];
      }
    }
    forall k | 0 <= k < |t| ensures first <= t[k].end <= hi {
      if k >= |head| {
        assert t[k] == rest[k - |head|];
      }
    }
  }

  /** What turn `n` puts in front: the trend of its window, if the window holds any entry. */
  lemma TrendsFront(ms: seq<Mood>, now: int, n: nat, w: Windowing) returns (front: seq<WeekTrend>)
    requires n > 0
    ensures Trends(ms, now, n, w) == front + Trends(ms, now, n - 1, w)
    ensures |front| <= 1 && forall k :: 0 <= k < |front| ==> front[k].end == WindowEnd(now, 7 * (n - 1))
  {
    var head := TrendOf(ms, Window(w, now, 7 * (n - 1)));
    front := if head.Some? then [head.value] else [];
  }

  /** One more turn keeps the weeks oldest first: its week ends before all the others. */
  lemma TrendsStep(ms: seq<Mood>, now: int, n: nat, w: Windowing)
    requires n > 1
    requires EndsWithin(Trends(ms, now, n - 1, w), WindowEnd(now, 7 * (n - 2)), now)
    requires EndsAscending(Trends(ms, now, n - 1, w))
    ensures EndsWithin(Trends(ms, now, n, w), WindowEnd(now, 7 * (n - 1)), now)
    ensures EndsAscending(Trends(ms, now, n, w))
  {
    var front := TrendsFront(ms, now, n, w);
    WindowEnds(now, 7 * (n - 2));
    PrependEarlier(front, Trends(ms, now, n - 1, w), WindowEnd(now, 7 * (n - 1)), WindowEnd(now, 7 * (n - 2)), now);
  }

  /** The oldest week first, because each turn puts its week in front of the later ones;
      every week ends no later than now and no earlier than the last turn's week. */
  lemma {:induction false} TrendsOldestFirst(ms: seq<Mood>, now: int, n: nat, w: Windowing)
    requires n > 0
    ensures EndsWithin(Trends(ms, now, n, w), WindowEnd(now, 7 * (n - 1)), now)
    ensures EndsAscending(Trends(ms, now, n, w))
    decreases n
  {
    if n == 1 {
      var front := TrendsFront(ms, now, n, w);
      assert Trends(ms, now, 0, w) == [];
      assert front + [] == front;
    } else {
      TrendsOldestFirst(ms, now, n - 1, w);
      TrendsStep(ms, now, n, w);
    }
  }

  /** The tiled weeks of `n` turns cover the last `7 * n` days exactly once: a moment in that
      span lies in one week and in no other. */
  lemma TiledWeeksCover(now: int, n: nat, date: int)
    requires now - 7 * n * MsPerDay < date <= now
    ensures var j := (now - date) / (7 * MsPerDay);
      && j < n && InWindow(date, Window(Tiled, now, 7 * j))
      && forall k :: 0 <= k < n && k != j ==> !InWindow(date, Window(Tiled, now, 7 * k))
  {
    var j := (now - date) / (7 * MsPerDay);
    assert 7 * MsPerDay * j <= now - date < 7 * MsPerDay * (j + 1);
    forall k | 0 <= k < n && k != j ensures !InWindow(date, Window(Tiled, now, 7 * k)) {
      if k < j {
        assert 7 * MsPerDay * (k + 1) <= 7 * MsPerDay * j;
      } else {
        assert 7 * MsPerDay * (j + 1) <= 7 * MsPerDay * k;
      }
    }
  }

  /** As written, the moment one millisecond before the start of week `j` lies in no week
      at all: it is after the end of week `j + 1`. */
  lemma WrittenWeeksMiss(now: int, j: nat, k: nat)
    ensures !InWindow(now - (7 * j + 6) * MsPerDay - 1, Window(AsWritten, now, 7 * k))
  {
    if k <= j {
      assert (7 * k + 6) * MsPerDay <= (7 * j + 6) * MsPerDay;
    } else {
      assert 7 * k * MsPerDay >= (7 * j + 7) * MsPerDay;
    }
  }

  /** A mood logged six days and one millisecond ago is among the entries of a 14-day
      analytics request, yet no week of the handler counts it; the tiled weeks do. */
  lemma WeekGapAsWritten(m: Mood)
    requires m.date == 100 * MsPerDay - 6 * MsPerDay - 1
    ensures m.date >= DaysBefore(100 * MsPerDay, 14)
    ensures Trends([m], 100 * MsPerDay, Weeks(14), AsWritten) == []
    ensures |Trends([m], 100 * MsPerDay, Weeks(14), Tiled)| == 1
  {
    var now := 100 * MsPerDay;
    assert Weeks(14) == 2;
    assert Within([m], Window(AsWritten, now, 0).0, Window(AsWritten, now, 0).1) == [];
    assert Within([m], Window(AsWritten, now, 7).0, Window(AsWritten, now, 7).1) == [];
    assert Within([m], Window(Tiled, now, 0).0, Window(Tiled, now, 0).1) == [m];
    assert Within([m], Window(Tiled, now, 7).0, Window(Tiled, now, 7).1) == [];
  }

  /** The `for` loop that fills `weeklyTrends`; the handler places its weeks `AsWritten`,
      and with `Tiled` the same loop gives the weeks that meet. */
  method WeeklyTrends(ms: seq<Mood>, now: int, days: int, w: Windowing) returns (trends: seq<WeekTrend>)
    ensures trends == Trends(ms, now, Weeks(days), w)
  {
    trends := [];
    var i := 0;
    ghost var n: nat := 0;
    while i < days
      invariant i == 7 * n && trends == Trends(ms, now, n, w)
      invariant n == 0 || 7 * (n - 1) < days
      decreases days - i
    {
      TrendsNext(ms, now, n, w);
      trends := AddWeek(ms, Window(w, now, i), trends);
      i, n := i + 7, n + 1;
    }
    LoopTurns(days, n);
  }

  /** One turn: the entries of the window and, when there are any, their trend in front. */
  method AddWeek(ms: seq<Mood>, bounds: (int, int), trends: seq<WeekTrend>) returns (r: seq<WeekTrend>)
    ensures r == (if TrendOf(ms, bounds).Some? then [TrendOf(ms, bounds).value] else []) + trends
  {
    var week := Within(ms, bounds.0, bounds.1);
    r := trends;
    if |week| > 0 {
      r := [WeekTrend(bounds.0, bounds.1, ValueSum(week), |week|)] + trends;
    }
  }

  /** Turn `n + 1` looks at the window starting `7 * n` days back. */
  lemma TrendsNext(ms: seq<Mood>, now: int, n: nat, w: Windowing)
    ensures var t := TrendOf(ms, Window(w, now, 7 * n));
      Trends(ms, now, n + 1, w) == (if t.Some? then [t.value] else []) + Trends(ms, now, n, w)
  {
    assert 7 * (n + 1 - 1) == 7 * n;
  }

  /** The loop stops after `Weeks(days)` turns. */
  lemma LoopTurns(days: int, n: nat)
    requires 7 * n >= days && (n == 0 || 7 * (n - 1) < days)
    ensures n == Weeks(days)
  {
  }

  /** The integer part of the analytics response. */
  datatype Report = Report(totalEntries: nat, moodDistribution: Distribution,
                           dailyMoods: map<int, seq<Entry>>, weeklyTrends: seq<WeekTrend>)

  /** `rep` is the analytics of the fetched entries `ms` over `days` days. */
  ghost predicate Summarizes(rep: Report, ms: seq<Mood>, now: int, days: int) {
    && rep.totalEntries == |ms|
    && rep.moodDistribution == Tallied(ms)
    && rep.dailyMoods.Keys == DaysOf(ms)
    && (forall d :: d in rep.dailyMoods ==> rep.dailyMoods[d] == DayEntries(ms, d))
    && rep.weeklyTrends == Trends(ms, now, Weeks(days), AsWritten)
  }

  /** The counters and the day buckets each account for every entry once. */
  lemma SummaryTotals(rep: Report, ms: seq<Mood>, now: int, days: int)
    requires Summarizes(rep, ms, now, days)
    requires Tally.Total(Sizes(rep.dailyMoods)) == |ms|
    ensures Sum(rep.moodDistribution) == rep.totalEntries
  {
    TalliedCounts(ms);
  }

  /** The computation of the analytics handler after the query: one pass that counts and
      groups, then the loop over the weeks. */
  method Summarize(ms: seq<Mood>, now: int, days: int) returns (rep: Report)
    ensures Summarizes(rep, ms, now, days)
    ensures Sum(rep.moodDistribution) == rep.totalEntries
    ensures Tally.Total(Sizes(rep.dailyMoods)) == rep.totalEntries
  {
    var counts := Distribute(ms);
    TalliedCounts(ms);
    var daily := GroupByDay(ms);
    var weeks := WeeklyTrends(ms, now, days, AsWritten);
    rep := Report(|ms|, counts, daily, weeks);
  }
}
