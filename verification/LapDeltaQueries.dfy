/** What the lap delta index holds after any run of calls, and what its queries answer. */
module LapDeltaQueries {
  import opened Python
  import opened Reals
  import opened LapDelta

  // ---------- Whole runs ----------

  datatype Call = Record(lap: int, d: real, t: int) | SetBest(lap: int) | Flashback(lap: int, d: real)

  function Step(s: Index, c: Call): Index {
    match c
    case Record(lap, d, t) => AfterRecord(s, lap, d, t)
    case SetBest(lap) => AfterSetBest(s, lap)
    case Flashback(lap, d) => AfterFlashback(s, lap, d)
  }

  function Run(calls: seq<Call>): Index {
    if calls == [] then Empty() else Step(Run(calls[..|calls| - 1]), calls[|calls| - 1])
  }

  lemma {:induction false} RunGood(calls: seq<Call>)
    ensures Good(Run(calls))
  {
    if calls != [] {
      var s, c := Run(calls[..|calls| - 1]), calls[|calls| - 1];
      RunGood(calls[..|calls| - 1]);
      match c {
        case Record(lap, d, t) => RecordKeepsGood(s, lap, d, t);
        case SetBest(lap) =>
        case Flashback(lap, d) => FlashbackKeepsGood(s, lap, d);
      }
    }
  }

  /** The point a call stores. */
  function Stores(c: Call): Option<LapPoint> {
    match c
    case Record(lap, d, t) => Some(LapPoint(lap, d, t))
    case SetBest(_) => None
    case Flashback(lap, d) => Some(LapPoint(lap, d, 0))
  }

  /** A later call leaves an earlier point alone: it stores nothing on that lap at or before
      it, and is not a flashback to an earlier lap. */
  predicate Spares(c: Call, p: LapPoint) {
    && (Stores(c).Some? && c.lap == p.lap ==> p.distance < c.d)
    && (c.Flashback? ==> p.lap <= c.lap)
  }

  predicate Survives(calls: seq<Call>, i: nat, p: LapPoint)
    requires i < |calls|
  {
    Stores(calls[i]) == Some(p) && forall j | i < j < |calls| :: Spares(calls[j], p)
  }

  ghost predicate Surviving(calls: seq<Call>, p: LapPoint) {
    exists i | 0 <= i < |calls| :: Survives(calls, i, p)
  }

  lemma SurvivingStep(calls: seq<Call>, c: Call, p: LapPoint)
    ensures Surviving(calls + [c], p) <==> Stores(c) == Some(p) || (Surviving(calls, p) && Spares(c, p))
  {
    var all, n := calls + [c], |calls|;
    if Stores(c) == Some(p) {
      assert Survives(all, n, p);
    }
    if Surviving(calls, p) && Spares(c, p) {
      var i :| 0 <= i < n && Survives(calls, i, p);
      assert Survives(all, i, p);
    }
    if Surviving(all, p) && Stores(c) != Some(p) {
      var i :| 0 <= i <= n && Survives(all, i, p);
      assert all[n] == c && i < n;
      assert forall j | 0 <= j < n :: all[j] == calls[j];
      assert Survives(calls, i, p);
    }
  }

  lemma StepMembers(s: Index, c: Call, p: LapPoint)
    requires Good(s)
    ensures p in PointsOf(Step(s, c).laps, p.lap) <==>
            Stores(c) == Some(p) || (p in PointsOf(s.laps, p.lap) && Spares(c, p))
  {
    if !c.SetBest? {
      BelowMembers(PointsOf(s.laps, c.lap), c.d);
    }
  }

  /** Over any run, what is stored of a lap is exactly the points that no later call undid,
      in order of distance. */
  lemma {:induction false} RunStoresSurvivors(calls: seq<Call>, p: LapPoint)
    ensures p in PointsOf(Run(calls).laps, p.lap) <==> Surviving(calls, p)
  {
    if calls != [] {
      var before, c := calls[..|calls| - 1], calls[|calls| - 1];
      RunStoresSurvivors(before, p);
      RunGood(before);
      StepMembers(Run(before), c, p);
      SurvivingStep(before, c, p);
      assert calls == before + [c];
    }
  }

  // ---------- Queries ----------

  /** A lap answers exactly for the distances it spans. */
  lemma TimeAtSpan(points: seq<LapPoint>, d: real)
    requires Ascending(points)
    ensures TimeAt(points, d).Some? <==> points != [] && points[0].distance <= d <= points[|points| - 1].distance
  {
  }

  lemma TimeAtSample(points: seq<LapPoint>, i: nat)
    requires Ascending(points) && i < |points|
    ensures TimeAt(points, points[i].distance) == Some(points[i].time)
  {
    BisectUnique(Distances(points), points[i].distance, i);
    assert i > 0 ==> points[0].distance < points[i].distance;
    assert i < |points| - 1 ==> points[i].distance < points[|points| - 1].distance;
  }

  lemma TimeAtInside(points: seq<LapPoint>, i: nat, d: real)
    requires Ascending(points) && i + 1 < |points| && points[i].distance < d < points[i + 1].distance
    ensures TimeAt(points, d) == Some(Blend(points[i], points[i + 1], d))
  {
    hide Blend;
    BisectUnique(Distances(points), d, i + 1);
    assert i > 0 ==> points[0].distance < points[i].distance;
    assert i + 1 < |points| - 1 ==> points[i + 1].distance < points[|points| - 1].distance;
  }

  lemma TruncateInteger(n: int)
    ensures Truncate(n as real) == n
  {
    assert (n as real).Floor == n;
    assert ((-n) as real).Floor == -n;
    assert -(n as real) == (-n) as real;
  }

  lemma TruncateBetween(x: real, low: int, high: int)
    requires low as real <= x <= high as real
    ensures low <= Truncate(x) <= high
  {
    TruncateInteger(low);
    TruncateInteger(high);
    TruncateMonotone(low as real, x);
    TruncateMonotone(x, high as real);
  }

  lemma InterpolatedBetween(lo: LapPoint, hi: LapPoint, d: real)
    requires lo.distance < hi.distance && lo.distance <= d <= hi.distance
    ensures lo.time <= hi.time ==> lo.time as real <= Interpolated(lo, hi, d) <= hi.time as real
    ensures hi.time <= lo.time ==> hi.time as real <= Interpolated(lo, hi, d) <= lo.time as real
  {
    QuotientUnit(d - lo.distance, hi.distance - lo.distance);
    LerpBetween(lo.time as real, hi.time as real, (d - lo.distance) / (hi.distance - lo.distance));
  }

  lemma BlendBetween(lo: LapPoint, hi: LapPoint, d: real)
    requires lo.distance < hi.distance && lo.distance <= d <= hi.distance
    ensures lo.time <= hi.time ==> lo.time <= Blend(lo, hi, d) <= hi.time
    ensures hi.time <= lo.time ==> hi.time <= Blend(lo, hi, d) <= lo.time
  {
    InterpolatedBetween(lo, hi, d);
    var x := Interpolated(lo, hi, d);
    if lo.time <= hi.time {
      TruncateBetween(x, lo.time, hi.time);
    } else {
      TruncateBetween(x, hi.time, lo.time);
    }
  }

  lemma InterpolatedMonotone(lo: LapPoint, hi: LapPoint, d: real, e: real)
    requires lo.distance < hi.distance && d <= e && lo.time <= hi.time
    ensures Interpolated(lo, hi, d) <= Interpolated(lo, hi, e)
  {
    var span := hi.distance - lo.distance;
    QuotientOrder(d - lo.distance, e - lo.distance, span);
    LerpMonotone(lo.time as real, hi.time as real, (d - lo.distance) / span, (e - lo.distance) / span);
  }

  lemma BlendMonotone(lo: LapPoint, hi: LapPoint, d: real, e: real)
    requires lo.distance < hi.distance && d <= e && lo.time <= hi.time
    ensures Blend(lo, hi, d) <= Blend(lo, hi, e)
  {
    InterpolatedMonotone(lo, hi, d, e);
    TruncateMonotone(Interpolated(lo, hi, d), Interpolated(lo, hi, e));
  }

  /** Where a spanned distance falls: on sample i, or strictly between samples i and i + 1. */
  lemma Locate(points: seq<LapPoint>, d: real) returns (i: nat)
    requires Ascending(points) && points != [] && points[0].distance <= d <= points[|points| - 1].distance
    ensures i < |points| && points[i].distance <= d
    ensures points[i].distance < d ==> i + 1 < |points| && d < points[i + 1].distance
  {
    var k := BisectLeft(Distances(points), d);
    i := if points[k].distance == d then k else k - 1;
  }

  /** The answer lies between the times of the samples around the distance. */
  lemma TimeAtBetween(points: seq<LapPoint>, d: real) returns (i: nat)
    requires Ascending(points) && points != [] && points[0].distance <= d <= points[|points| - 1].distance
    ensures i < |points| && points[i].distance <= d && TimeAt(points, d).Some?
    ensures points[i].distance == d ==> TimeAt(points, d).value == points[i].time
    ensures points[i].distance < d ==>
              && i + 1 < |points| && d < points[i + 1].distance
              && (points[i].time <= TimeAt(points, d).value <= points[i + 1].time
                  || points[i + 1].time <= TimeAt(points, d).value <= points[i].time)
  {
    i := Locate(points, d);
    if points[i].distance == d {
      TimeAtSample(points, i);
    } else {
      TimeAtInside(points, i, d);
      BlendBetween(points[i], points[i + 1], d);
    }
  }

  lemma AscendingNext(points: seq<LapPoint>, j: nat, i: nat)
    requires Ascending(points) && i < |points|
    ensures j < i ==> points[j + 1].distance <= points[i].distance
  {
  }

  predicate TimesAscend(points: seq<LapPoint>) {
    forall i, j | 0 <= i < j < |points| :: points[i].time <= points[j].time
  }

  /** On a lap whose times do not go back, the answer does not go back either. */
  lemma TimeAtMonotone(points: seq<LapPoint>, d: real, e: real)
    requires Ascending(points) && points != [] && points[0].distance <= d <= e <= points[|points| - 1].distance
    requires TimesAscend(points)
    ensures TimeAt(points, d).Some? && TimeAt(points, e).Some?
    ensures TimeAt(points, d).value <= TimeAt(points, e).value
  {
    var i := TimeAtBetween(points, d);
    var j := TimeAtBetween(points, e);
    if i == j {
      if points[i].distance < d {
        TimeAtInside(points, i, d);
        TimeAtInside(points, i, e);
        BlendMonotone(points[i], points[i + 1], d, e);
      }
    } else {
      AscendingNext(points, j, i);
    }
  }

  /** Call i stored a point of this lap that no later call undid. */
  predicate StoredOn(calls: seq<Call>, i: nat, lap: int)
    requires i < |calls|
  {
    Stores(calls[i]).Some? && calls[i].lap == lap && Survives(calls, i, Stores(calls[i]).value)
  }

  /** Of the calls that were not undone, none stored an earlier time than one before it. */
  predicate CallsAscend(calls: seq<Call>, lap: int) {
    forall i, j | 0 <= i < j < |calls| && StoredOn(calls, i, lap) && StoredOn(calls, j, lap) ::
      Stores(calls[i]).value.time <= Stores(calls[j]).value.time
  }

  /** The place of a surviving call's point in its lap. */
  lemma PlaceOf(calls: seq<Call>, i: nat, lap: int) returns (a: nat)
    requires i < |calls| && StoredOn(calls, i, lap)
    ensures var points := PointsOf(Run(calls).laps, lap);
            a < |points| && points[a] == Stores(calls[i]).value
  {
    var p := Stores(calls[i]).value;
    assert Surviving(calls, p);
    RunStoresSurvivors(calls, p);
    a :| a < |PointsOf(Run(calls).laps, lap)| && PointsOf(Run(calls).laps, lap)[a] == p;
  }

  /** The surviving call that stored a point of a lap. */
  lemma CallOf(calls: seq<Call>, lap: int, a: nat) returns (i: nat)
    requires a < |PointsOf(Run(calls).laps, lap)|
    ensures i < |calls| && StoredOn(calls, i, lap) && Stores(calls[i]) == Some(PointsOf(Run(calls).laps, lap)[a])
  {
    var p := PointsOf(Run(calls).laps, lap)[a];
    RunGood(calls);
    assert p in Run(calls).laps[lap] && p.lap == lap;
    RunStoresSurvivors(calls, p);
    i :| 0 <= i < |calls| && Survives(calls, i, p);
  }

  lemma PlacesAscend(points: seq<LapPoint>, a: nat, b: nat)
    requires Ascending(points) && a < |points| && b < |points| && points[a].distance < points[b].distance
    ensures a < b
  {
  }

  lemma TimesThenCalls(calls: seq<Call>, lap: int)
    requires TimesAscend(PointsOf(Run(calls).laps, lap))
    ensures CallsAscend(calls, lap)
  {
    hide Run, Survives;
    var points := PointsOf(Run(calls).laps, lap);
    LapAscending(calls, lap);
    forall i, j | 0 <= i < j < |calls| && StoredOn(calls, i, lap) && StoredOn(calls, j, lap)
      ensures Stores(calls[i]).value.time <= Stores(calls[j]).value.time
    {
      var a := PlaceOf(calls, i, lap);
      var b := PlaceOf(calls, j, lap);
      SparedLater(calls, i, j, lap);
      PlacesAscend(points, a, b);
    }
  }

  lemma LapAscending(calls: seq<Call>, lap: int)
    ensures Ascending(PointsOf(Run(calls).laps, lap))
  {
    RunGood(calls);
  }

  /** Of two surviving points of a lap, the one stored later is farther. */
  lemma SparedLater(calls: seq<Call>, i: nat, j: nat, lap: int)
    requires i < j < |calls| && StoredOn(calls, i, lap) && StoredOn(calls, j, lap)
    ensures Stores(calls[i]).value.distance < Stores(calls[j]).value.distance
  {
    assert Spares(calls[j], Stores(calls[i]).value);
  }

  lemma CallsThenTimes(calls: seq<Call>, lap: int)
    requires CallsAscend(calls, lap)
    ensures TimesAscend(PointsOf(Run(calls).laps, lap))
  {
    hide Run, Survives;
    var points := PointsOf(Run(calls).laps, lap);
    LapAscending(calls, lap);
    forall a, b | 0 <= a < b < |points| ensures points[a].time <= points[b].time {
      var i := CallOf(calls, lap, a);
      var j := CallOf(calls, lap, b);
      if j < i {
        SparedLater(calls, j, i, lap);
      }
    }
  }

  /** A reachable lap's times do not go back, from one distance to the next, exactly when its
      surviving calls stored them in ascending order. */
  lemma LapTimesAscend(calls: seq<Call>, lap: int)
    ensures TimesAscend(PointsOf(Run(calls).laps, lap)) <==> CallsAscend(calls, lap)
  {
    hide TimesAscend, CallsAscend, Run;
    if TimesAscend(PointsOf(Run(calls).laps, lap)) {
      TimesThenCalls(calls, lap);
    }
    if CallsAscend(calls, lap) {
      CallsThenTimes(calls, lap);
    }
  }

  /** So lookups on such a lap of a reachable state do not go back. */
  lemma ReachableMonotone(calls: seq<Call>, lap: int, d: real, e: real)
    requires CallsAscend(calls, lap)
    requires var points := PointsOf(Run(calls).laps, lap);
             points != [] && points[0].distance <= d <= e <= points[|points| - 1].distance
    ensures var points := PointsOf(Run(calls).laps, lap);
            && TimeAt(points, d).Some? && TimeAt(points, e).Some?
            && TimeAt(points, d).value <= TimeAt(points, e).value
  {
    RunGood(calls);
    LapTimesAscend(calls, lap);
    TimeAtMonotone(PointsOf(Run(calls).laps, lap), d, e);
  }

  /** The untimed point of a flashback breaks the order until it is passed by a rewrite: after
      going back to 30 and driving on, the lookup there gives zero. */
  lemma FlashbackAnchor()
    ensures var calls := [Record(1, 10.0, 100), Record(1, 50.0, 500), Flashback(1, 30.0), Record(1, 40.0, 400)];
            var points := PointsOf(Run(calls).laps, 1);
            && points == [LapPoint(1, 10.0, 100), LapPoint(1, 30.0, 0), LapPoint(1, 40.0, 400)]
            && TimeAt(points, 30.0) == Some(0) && !CallsAscend(calls, 1)
  {
    hide Run, Below, TimeAt, CallsAscend;
    var a, b, c, d := Record(1, 10.0, 100), Record(1, 50.0, 500), Flashback(1, 30.0), Record(1, 40.0, 400);
    var p, q, r, s := LapPoint(1, 10.0, 100), LapPoint(1, 50.0, 500), LapPoint(1, 30.0, 0), LapPoint(1, 40.0, 400);
    NothingRun(1);
    StoreStep([], a, [a], [], 0, [p]);
    StoreStep([a], b, [a, b], [p], 1, [p, q]);
    StoreStep([a, b], c, [a, b, c], [p, q], 1, [p, r]);
    StoreStep([a, b, c], d, [a, b, c, d], [p, r], 2, [p, r, s]);
    TimeAtSample([p, r, s], 1);
    LapTimesAscend([a, b, c, d], 1);
    assert [p, r, s][0].time > [p, r, s][1].time;
  }

  lemma NothingRun(lap: int)
    ensures PointsOf(Run([]).laps, lap) == []
  {
  }

  /** A call that stores a point keeps the first k points of its lap. */
  lemma StoreStep(calls: seq<Call>, c: Call, all: seq<Call>, points: seq<LapPoint>, k: nat, after: seq<LapPoint>)
    requires all == calls + [c]
    requires Stores(c).Some? && points == PointsOf(Run(calls).laps, c.lap) && k <= |points|
    requires forall i | 0 <= i < k :: points[i].distance < c.d
    requires forall i | k <= i < |points| :: points[i].distance >= c.d
    requires after == points[..k] + [Stores(c).value]
    ensures PointsOf(Run(all).laps, c.lap) == after
  {
    assert all[..|calls|] == calls;
    BelowSplit(points, c.d, k);
  }

  /** In every reachable state a delta is answered exactly when a best lap is set that has
      points spanning the current distance. */
  lemma DeltaAnswers(calls: seq<Call>)
    ensures var s := Run(calls);
            Delta(s).Some? <==>
              && s.best.Some? && s.last.Some? && s.best.value in s.laps
              && var points := s.laps[s.best.value];
                 points != [] && points[0].distance <= s.last.value.distance <= points[|points| - 1].distance
  {
    RunGood(calls);
    var s := Run(calls);
    if s.best.Some? && s.last.Some? {
      TimeAtSpan(PointsOf(s.laps, s.best.value), s.last.value.distance);
    }
  }

  /** In every reachable state, comparing the current lap with itself gives zero. */
  lemma DeltaOfSelf(calls: seq<Call>)
    requires var s := Run(calls); s.last.Some? && s.best == Some(s.last.value.lap)
    ensures Delta(Run(calls)).Some? && Delta(Run(calls)).value.delta == 0
  {
    RunGood(calls);
    var p := Run(calls).last.value;
    var points := Run(calls).laps[p.lap];
    TimeAtSample(points, |points| - 1);
  }
}
