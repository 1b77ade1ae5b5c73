/** The frame-timing tracker: every running figure equals its batch definition over all counted
    intervals. */
module FrameStats {
  import opened Welford
  import opened RunningStats

  function LastStamp(stamps: seq<int>): int {
    if stamps == [] then 0 else stamps[|stamps| - 1]
  }

  /** The intervals a run of timestamps counts: not those after a zero stamp, which reads as
      "no stamp yet", and not those that do not go forward. */
  function Intervals(stamps: seq<int>): seq<int> {
    if stamps == [] then []
    else
      var n := |stamps| - 1;
      var before, last := Intervals(stamps[..n]), LastStamp(stamps[..n]);
      if last == 0 || stamps[n] - last <= 0 then before else before + [stamps[n] - last]
  }

  lemma IntervalsAppend(stamps: seq<int>, now: int)
    ensures var last := LastStamp(stamps);
            Intervals(stamps + [now]) == if last == 0 || now - last <= 0 then Intervals(stamps)
                                         else Intervals(stamps) + [now - last]
    ensures LastStamp(stamps + [now]) == now
  {
    assert (stamps + [now])[..|stamps|] == stamps;
  }

  /** Stamp k counts an interval: it is later than a stamp that is not zero. */
  predicate CountsAt(stamps: seq<int>, k: int) {
    0 < k < |stamps| && stamps[k - 1] != 0 && stamps[k - 1] < stamps[k]
  }

  function CountedBefore(stamps: seq<int>, k: nat): nat {
    if k == 0 then 0 else CountedBefore(stamps, k - 1) + if CountsAt(stamps, k - 1) then 1 else 0
  }

  lemma {:induction false} CountedFront(stamps: seq<int>, k: nat)
    requires k < |stamps|
    ensures CountedBefore(stamps[..|stamps| - 1], k) == CountedBefore(stamps, k)
  {
    if k > 0 {
      CountedFront(stamps, k - 1);
    }
  }

  /** There is one interval for every stamp that counts one, in order, and it is the time since the
      stamp before. */
  lemma {:induction false} IntervalsMeaning(stamps: seq<int>, k: nat)
    ensures |Intervals(stamps)| == CountedBefore(stamps, |stamps|)
    ensures CountsAt(stamps, k) ==>
              && CountedBefore(stamps, k) < |Intervals(stamps)|
              && Intervals(stamps)[CountedBefore(stamps, k)] == stamps[k] - stamps[k - 1]
  {
    if stamps != [] {
      var n := |stamps| - 1;
      var front := stamps[..n];
      IntervalsMeaning(front, k);
      CountedFront(stamps, n);
      assert LastStamp(front) == if n == 0 then 0 else stamps[n - 1];
      if CountsAt(stamps, k) && k < n {
        assert CountsAt(front, k);
        CountedFront(stamps, k);
      }
    }
  }

  predicate Missed(budget: int, x: int) {
    budget != 0 && x > budget
  }

  function MissCount(budget: int, xs: seq<int>): int {
    if xs == [] then 0
    else MissCount(budget, xs[..|xs| - 1]) + if Missed(budget, xs[|xs| - 1]) then 1 else 0
  }

  /** With a budget, the count is that of the intervals over it; without one it is zero. */
  lemma {:induction false} MissCountMeaning(budget: int, xs: seq<int>)
    ensures MissCount(budget, xs) == if budget == 0 then 0 else |set k | 0 <= k < |xs| && xs[k] > budget|
  {
    if xs != [] {
      var n := |xs| - 1;
      MissCountMeaning(budget, xs[..n]);
      var before := set k | 0 <= k < |xs[..n]| && xs[..n][k] > budget;
      var all := set k | 0 <= k < |xs| && xs[k] > budget;
      assert all == before + if xs[n] > budget then {n} else {};
      assert n !in before;
    }
  }

  /** How many intervals at the end are over budget. */
  function Trailing(budget: int, xs: seq<int>): nat {
    if xs == [] || !Missed(budget, xs[|xs| - 1]) then 0 else Trailing(budget, xs[..|xs| - 1]) + 1
  }

  function LongestStreak(budget: int, xs: seq<int>): int {
    if xs == [] then 0 else MaxInt(LongestStreak(budget, xs[..|xs| - 1]), Trailing(budget, xs))
  }

  predicate AllMissed(budget: int, xs: seq<int>, i: nat, j: nat) {
    i <= j <= |xs| && forall k | i <= k < j :: Missed(budget, xs[k])
  }

  lemma {:induction false} TrailingMeaning(budget: int, xs: seq<int>)
    ensures var t := Trailing(budget, xs);
            && t <= |xs| && AllMissed(budget, xs, |xs| - t, |xs|)
            && (t < |xs| ==> !Missed(budget, xs[|xs| - t - 1]))
  {
    if xs != [] && Missed(budget, xs[|xs| - 1]) {
      TrailingMeaning(budget, xs[..|xs| - 1]);
    }
  }

  lemma TrailingLongest(budget: int, xs: seq<int>, i: nat)
    requires AllMissed(budget, xs, i, |xs|)
    ensures |xs| - i <= Trailing(budget, xs)
  {
    TrailingMeaning(budget, xs);
    var t := Trailing(budget, xs);
    assert i < |xs| - t ==> i <= |xs| - t - 1 < |xs|;
  }

  /** The reported streak is the length of a stretch of missed frames, and no stretch is
      longer. */
  lemma {:induction false} LongestStreakMeaning(budget: int, xs: seq<int>)
    ensures exists i: nat, j: nat | i <= j <= |xs| :: AllMissed(budget, xs, i, j) && j - i == LongestStreak(budget, xs)
    ensures forall i: nat, j: nat | i <= j <= |xs| && AllMissed(budget, xs, i, j) :: j - i <= LongestStreak(budget, xs)
  {
    if xs == [] {
      assert AllMissed(budget, xs, 0, 0);
    } else {
      var n := |xs| - 1;
      LongestStreakMeaning(budget, xs[..n]);
      TrailingMeaning(budget, xs);
      var t := Trailing(budget, xs);
      if LongestStreak(budget, xs) == t {
        assert AllMissed(budget, xs, |xs| - t, |xs|);
      } else {
        var i: nat, j: nat :|
          i <= j <= n && AllMissed(budget, xs[..n], i, j) && j - i == LongestStreak(budget, xs[..n]);
        assert AllMissed(budget, xs, i, j);
      }
      forall i: nat, j: nat | i <= j <= |xs| && AllMissed(budget, xs, i, j) ensures j - i <= LongestStreak(budget, xs) {
        if j == |xs| {
          TrailingLongest(budget, xs, i);
        } else {
          assert AllMissed(budget, xs[..n], i, j);
        }
      }
    }
  }

  function PacingErrors(budget: int, xs: seq<int>): seq<int> {
    var n := |xs| - 1;
    if budget == 0 || n < 0 then [] else PacingErrors(budget, xs[..n]) + [AbsInt(xs[n] - budget)]
  }

  /** With a budget, each interval's pacing error is its distance from the budget. */
  lemma {:induction false} PacingMeaning(budget: int, xs: seq<int>, i: nat)
    ensures |PacingErrors(budget, xs)| == if budget == 0 then 0 else |xs|
    ensures budget != 0 && i < |xs| ==>
              PacingErrors(budget, xs)[i] == if xs[i] <= budget then budget - xs[i] else xs[i] - budget
  {
    if xs != [] {
      PacingMeaning(budget, xs[..|xs| - 1], i);
    }
  }

  datatype Frames = Frames(
    moments: Moments, min: int, max: int,
    missed: int, streak: int, maxStreak: int, pacingSum: int, pacingMax: int)

  function FramesOf(budget: int, xs: seq<int>): (f: Frames)
    ensures f.moments.count == |xs|
  {
    Frames(MomentsOf(xs), Least(xs), Greatest(xs),
           MissCount(budget, xs), Trailing(budget, xs), LongestStreak(budget, xs),
           Sum(PacingErrors(budget, xs)), Greatest(PacingErrors(budget, xs)))
  }

  function AfterInterval(budget: int, s: Frames, x: int): Frames
    requires s.moments.count >= 0
  {
    var measured := s.(moments := Observe(s.moments, x), min := MinInt(s.min, x), max := MaxInt(s.max, x));
    if budget == 0 then measured
    else
      var over := x > budget;
      var error := AbsInt(x - budget);
      measured.(missed := if over then s.missed + 1 else s.missed,
                streak := if over then s.streak + 1 else 0,
                maxStreak := if over then MaxInt(s.maxStreak, s.streak + 1) else s.maxStreak,
                pacingSum := s.pacingSum + error, pacingMax := MaxInt(s.pacingMax, error))
  }

  lemma {:induction false} FramesStep(budget: int, xs: seq<int>, x: int)
    ensures AfterInterval(budget, FramesOf(budget, xs), x) == FramesOf(budget, xs + [x])
  {
    hide Mean, SquaredDeviation;
    assert (xs + [x])[..|xs|] == xs;
    ObserveStep(xs, x);
    StreakStep(budget, xs, x);
    if budget != 0 {
      var errors, error := PacingErrors(budget, xs), AbsInt(x - budget);
      assert PacingErrors(budget, xs + [x]) == errors + [error];
      SumAppend(errors, error);
      assert (errors + [error])[..|errors|] == errors;
    }
  }

  lemma {:induction false} StreakStep(budget: int, xs: seq<int>, x: int)
    ensures var over := Missed(budget, x);
            && Trailing(budget, xs + [x]) == (if over then Trailing(budget, xs) + 1 else 0)
            && LongestStreak(budget, xs + [x]) ==
               (if over then MaxInt(LongestStreak(budget, xs), Trailing(budget, xs) + 1) else LongestStreak(budget, xs))
            && MissCount(budget, xs + [x]) == MissCount(budget, xs) + (if over then 1 else 0)
  {
    assert (xs + [x])[..|xs|] == xs;
    StreakNonNegative(budget, xs);
  }

  lemma {:induction false} StreakNonNegative(budget: int, xs: seq<int>)
    ensures LongestStreak(budget, xs) >= 0
  {
    if xs != [] {
      StreakNonNegative(budget, xs[..|xs| - 1]);
    }
  }

  class FrameTimingStat {
    const budget: int
    var count: int
    var min: int
    var max: int
    var mean: real
    var m2: real
    var missed: int
    var streak: int
    var maxStreak: int
    var pacingSum: int
    var pacingMax: int
    var lastStamp: int
    ghost var stamps: seq<int>

    function Figures(): Frames
      reads this
    {
      Frames(Moments(count, mean, m2), min, max, missed, streak, maxStreak, pacingSum, pacingMax)
    }

    ghost predicate Valid()
      reads this
    {
      Figures() == FramesOf(budget, Intervals(stamps)) && lastStamp == LastStamp(stamps)
    }

    constructor (budget: int)
      ensures Valid() && stamps == [] && this.budget == budget
    {
      this.budget := budget;
      count, min, max, mean, m2 := 0, SENTINEL, 0, 0.0, 0.0;
      missed, streak, maxStreak, pacingSum, pacingMax := 0, 0, 0, 0, 0;
      lastStamp, stamps := 0, [];
    }

    method ObserveFrame(now: int)
      requires Valid()
      modifies this
      ensures Valid() && stamps == old(stamps) + [now]
    {
      hide FramesOf, AfterInterval;
      ghost var xs := Intervals(stamps);
      IntervalsAppend(stamps, now);
      stamps := stamps + [now];
      if lastStamp == 0 {
        lastStamp := now;
        return;
      }
      var interval := now - lastStamp;
      lastStamp := now;
      if interval <= 0 {
        return;
      }
      FramesStep(budget, xs, interval);
      Update(interval);
    }

    /** The updates made for a counted interval, in order. */
    method Update(interval: int)
      requires count >= 0
      modifies this
      ensures Figures() == AfterInterval(budget, old(Figures()), interval)
      ensures lastStamp == old(lastStamp) && stamps == old(stamps)
    {
      hide Observe, MinInt, MaxInt, AbsInt;
      min := MinInt(min, interval);
      max := MaxInt(max, interval);
      UpdateMoments(interval);
      if budget != 0 {
        if interval > budget {
          missed := missed + 1;
          streak := streak + 1;
          maxStreak := MaxInt(maxStreak, streak);
        } else {
          streak := 0;
        }
        var error := AbsInt(interval - budget);
        pacingSum := pacingSum + error;
        pacingMax := MaxInt(pacingMax, error);
      }
    }

    method UpdateMoments(interval: int)
      requires count >= 0
      modifies `count, `mean, `m2
      ensures Moments(count, mean, m2) == Observe(old(Moments(count, mean, m2)), interval)
    {
      count := count + 1;
      var delta := interval as real - mean;
      mean := mean + delta / count as real;
      var delta2 := interval as real - mean;
      m2 := m2 + delta * delta2;
    }

    method VarianceNow() returns (v: real)
      requires Valid()
      ensures v == Variance(Intervals(stamps)) && v >= 0.0
    {
      VarianceOf(Intervals(stamps));
      if count < 2 {
        return 0.0;
      }
      return m2 / count as real;
    }
  }
}
