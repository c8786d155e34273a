/** Two discrepancies between `updateStreak` as written (backend/models/Habit.js:74-120,
    modelled by `HabitModel.StreakAfter`) and the streak it evidently means: the length
    of the run of consecutive days that ends at the newest completion when that one is
    from today or yesterday, and the longest such run anywhere in the history. */
module StreakFindings {
  import opened HabitModel

  /** Indices `lo .. hi-1` of the newest-first day list form consecutive days. */
  ghost predicate Chain(days: seq<int>, lo: int, hi: int)
    requires 0 <= lo <= hi <= |days|
  {
    forall j :: lo < j < hi ==> days[j - 1] - days[j] == 1
  }

  /** The newest completion is from today or yesterday. */
  predicate Fresh(days: seq<int>, today: int) {
    days != [] && today - days[0] <= 1
  }

  /** `c` is the intended current streak: the length of the maximal run of consecutive
      days that starts at the newest completion, or 0 when that completion is stale. */
  ghost predicate IsCurrentRun(days: seq<int>, today: int, c: int) {
    if !Fresh(days, today) then c == 0
    else 1 <= c <= |days| && Chain(days, 0, c) && (c == |days| || days[c - 1] - days[c] != 1)
  }

  /** No run of consecutive days within the first `n` entries is longer than `l`. */
  ghost predicate Bounds(days: seq<int>, n: int, l: int)
    requires n <= |days|
  {
    forall lo, hi :: 0 <= lo <= hi <= n && Chain(days, lo, hi) ==> hi - lo <= l
  }

  /** Some run of consecutive days within the first `n` entries has length `l`. */
  ghost predicate Attained(days: seq<int>, n: int, l: int)
    requires n <= |days|
  {
    exists lo, hi :: 0 <= lo <= hi <= n && hi - lo == l && Chain(days, lo, hi)
  }

  /** The walk with both defects repaired: a stale newest completion still opens a run of
      one (`temp := 1`), and `current` follows `temp` for as long as the run that starts
      at the newest completion continues (`currentStreak === i`, not `i === 1`). */
  function FixedStep(w: Walk, days: seq<int>, today: int, i: nat): Walk
    requires i < |days|
  {
    if i == 0 then Walk(if today - days[0] <= 1 then 1 else 0, w.longest, 1)
    else if days[i - 1] - days[i] == 1 then
      Walk(if w.current == i then w.temp + 1 else w.current, w.longest, w.temp + 1)
    else Walk(w.current, Max(w.longest, w.temp), 1)
  }

  function FixedWalkTo(days: seq<int>, today: int, n: nat): Walk
    requires n <= |days|
  {
    if n == 0 then Walk(0, 0, 0) else FixedStep(FixedWalkTo(days, today, n - 1), days, today, n - 1)
  }

  /** `streak.current` and `streak.longest` as the corrected walk stores them. */
  function FixedStreak(days: seq<int>, today: int, oldLongest: int): (int, int) {
    if days == [] then (0, oldLongest)
    else
      var w := FixedWalkTo(days, today, |days|);
      (w.current, Max(oldLongest, Max(w.longest, w.temp)))
  }

  /** After `n >= 1` steps, `temp` is the length of the maximal run ending at index `n-1`. */
  lemma {:induction false} FixedTemp(days: seq<int>, today: int, n: nat)
    requires 1 <= n <= |days|
    ensures var w := FixedWalkTo(days, today, n);
      && 1 <= w.temp <= n && Chain(days, n - w.temp, n)
      && (n - w.temp == 0 || days[n - w.temp - 1] - days[n - w.temp] != 1)
      && 0 <= w.longest
  {
    if n == 1 {
      assert FixedWalkTo(days, today, 0) == Walk(0, 0, 0);
    } else {
      FixedTemp(days, today, n - 1);
    }
  }

  /** After `n >= 1` steps, the larger of `longest` and `temp` is the longest run so far. */
  lemma {:induction false} FixedBest(days: seq<int>, today: int, n: nat)
    requires 1 <= n <= |days|
    ensures var w := FixedWalkTo(days, today, n);
      Attained(days, n, Max(w.longest, w.temp)) && Bounds(days, n, Max(w.longest, w.temp))
  {
    var w := FixedWalkTo(days, today, n);
    FixedTemp(days, today, n);
    if n == 1 {
      assert FixedWalkTo(days, today, 0) == Walk(0, 0, 0);
      assert Chain(days, 0, 1);
    } else {
      FixedBest(days, today, n - 1);
      var v := FixedWalkTo(days, today, n - 1);
      var b := Max(v.longest, v.temp);
      var lo0, hi0 :| 0 <= lo0 <= hi0 <= n - 1 && hi0 - lo0 == b && Chain(days, lo0, hi0);
      var m := Max(w.longest, w.temp);
      assert m >= b;
      assert Attained(days, n, m) by {
        if m == b {
          assert 0 <= lo0 <= hi0 <= n && hi0 - lo0 == m && Chain(days, lo0, hi0);
        } else {
          assert m == w.temp;
          assert 0 <= n - w.temp <= n <= n && n - (n - w.temp) == m && Chain(days, n - w.temp, n);
        }
      }
      forall lo, hi | 0 <= lo <= hi <= n && Chain(days, lo, hi) ensures hi - lo <= m {
        if hi < n {
          assert Chain(days, lo, hi);
        }
      }
    }
  }

  /** After `n >= 1` steps, `current` is the run that starts at the newest completion (when
      that one is fresh), as far as it reaches into the first `n` entries. */
  lemma {:induction false} FixedCurrent(days: seq<int>, today: int, n: nat)
    requires 1 <= n <= |days|
    ensures var w := FixedWalkTo(days, today, n);
      && 0 <= w.current <= n
      && (!Fresh(days, today) ==> w.current == 0)
      && (Fresh(days, today) ==> 1 <= w.current && Chain(days, 0, w.current))
      && (Fresh(days, today) && w.current < n ==> days[w.current - 1] - days[w.current] != 1)
  {
    if n == 1 {
      assert FixedWalkTo(days, today, 0) == Walk(0, 0, 0);
    } else {
      FixedCurrent(days, today, n - 1);
      FixedTemp(days, today, n - 1);
      var v := FixedWalkTo(days, today, n - 1);
      var i := n - 1;
      var w := FixedWalkTo(days, today, n);
      assert w == FixedStep(v, days, today, i);
      if Fresh(days, today) && v.current == i && days[i - 1] - days[i] == 1 {
        // the run from the newest completion reaches index i-1, so temp's maximal run does
        assert v.temp == i && w.current == n;
        assert Chain(days, 0, n);
      } else {
        assert w.current == v.current;
      }
    }
  }

  /** The corrected walk stores the intended streak: `current` is the maximal run that
      starts at the newest completion if that one is fresh (0 otherwise), and `longest` is
      the stored value or the longest run in the history, whichever is larger. */
  lemma FixedStreakIsIntended(days: seq<int>, today: int, oldLongest: int)
    requires oldLongest >= 0
    ensures var (current, longest) := FixedStreak(days, today, oldLongest);
      && IsCurrentRun(days, today, current)
      && longest >= oldLongest && Bounds(days, |days|, longest)
      && (longest == oldLongest || Attained(days, |days|, longest))
  {
    if days != [] {
      FixedTemp(days, today, |days|);
      FixedBest(days, today, |days|);
      FixedCurrent(days, today, |days|);
    } else {
      forall lo, hi | 0 <= lo <= hi <= |days| && Chain(days, lo, hi) ensures hi - lo <= oldLongest { }
    }
  }

  /** As written: two consecutive completions that are both stale still produce a current
      streak of 1, and the longest streak counts their run of two as 1. */
  lemma StaleRunAsWritten()
    ensures StreakAfter([10, 9], 20, 0) == (1, 1)
    ensures FixedStreak([10, 9], 20, 0) == (0, 2)
  {
    var days := [10, 9];
    assert WalkTo(days, 20, 1) == Walk(0, 0, 0) by {
      assert WalkTo(days, 20, 0) == Walk(0, 0, 0);
    }
    assert FixedWalkTo(days, 20, 1) == Walk(0, 0, 1) by {
      assert FixedWalkTo(days, 20, 0) == Walk(0, 0, 0);
    }
  }

  /** As written: a run of three days ending today reports a current streak of 2. */
  lemma LongRunAsWritten()
    ensures StreakAfter([12, 11, 10], 12, 0) == (2, 3)
    ensures FixedStreak([12, 11, 10], 12, 0) == (3, 3)
  {
  }
}
