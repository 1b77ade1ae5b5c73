/** What a delta is worth: the current time less the best lap's time at the same place, told from
    the calls alone. */
module LapDeltaValues {
  import opened Python
  import opened Reals
  import opened LapDelta
  import opened LapDeltaQueries

  /** The point of the last call that stored one. */
  function LastStored(calls: seq<Call>): Option<LapPoint> {
    if calls == [] then None
    else
      var stored := Stores(calls[|calls| - 1]);
      if stored.Some? then stored else LastStored(calls[..|calls| - 1])
  }

  function LastBest(calls: seq<Call>): Option<int> {
    if calls == [] then None
    else
      var last := calls[|calls| - 1];
      if last.SetBest? then Some(last.lap) else LastBest(calls[..|calls| - 1])
  }

  /** A delta is about the last point stored and the best lap last chosen. */
  lemma {:induction false} RunRemembers(calls: seq<Call>)
    ensures Run(calls).last == LastStored(calls) && Run(calls).best == LastBest(calls)
  {
    if calls != [] {
      RunRemembers(calls[..|calls| - 1]);
    }
  }

  /** Where no later call undid it, a stored point is in its lap. */
  lemma StoredPlace(calls: seq<Call>, p: LapPoint) returns (a: nat)
    requires Surviving(calls, p)
    ensures var points := PointsOf(Run(calls).laps, p.lap);
            a < |points| && points[a] == p && Ascending(points)
  {
    RunGood(calls);
    RunStoresSurvivors(calls, p);
    a :| a < |PointsOf(Run(calls).laps, p.lap)| && PointsOf(Run(calls).laps, p.lap)[a] == p;
  }

  /** When a call that was not undone stored the best lap's time at the current distance, the delta
      is the current time less that time: positive when the current lap is slower. */
  lemma DeltaAtStored(calls: seq<Call>, current: LapPoint, best: LapPoint)
    requires LastStored(calls) == Some(current) && LastBest(calls) == Some(best.lap)
    requires Surviving(calls, best) && best.distance == current.distance
    ensures Delta(Run(calls))
            == Some(DeltaResult(current.time - best.time, current, best.lap, best.time, current.distance))
  {
    RunRemembers(calls);
    var a := StoredPlace(calls, best);
    TimeAtSample(PointsOf(Run(calls).laps, best.lap), a);
  }

  /** x without its fraction, towards zero. */
  predicate IntegerPart(n: int, x: real) {
    if x >= 0.0 then n as real <= x < n as real + 1.0 else n as real - 1.0 < x <= n as real
  }

  /** Between two stored points the time is read off the line through them and cut to an integer. */
  lemma TimeOnLine(points: seq<LapPoint>, i: nat, d: real) returns (x: real)
    requires Ascending(points) && i + 1 < |points| && points[i].distance < d < points[i + 1].distance
    ensures var lo, hi := points[i], points[i + 1];
            && OnLine(lo.distance, lo.time as real, hi.distance, hi.time as real, d, x)
            && TimeAt(points, d).Some? && IntegerPart(TimeAt(points, d).value, x)
  {
    hide OnLine, TimeAt;
    var lo, hi := points[i], points[i + 1];
    x := Interpolated(lo, hi, d);
    TimeAtInside(points, i, d);
    LerpOnLine(lo.distance, lo.time as real, hi.distance, hi.time as real, d);
  }

  /** No point of the lap lies strictly between these two. */
  ghost predicate NextTo(calls: seq<Call>, lo: LapPoint, hi: LapPoint) {
    && lo.lap == hi.lap && lo.distance < hi.distance && Surviving(calls, lo) && Surviving(calls, hi)
    && forall p | Surviving(calls, p) && p.lap == lo.lap :: p.distance <= lo.distance || hi.distance <= p.distance
  }

  lemma NextPlaces(calls: seq<Call>, lo: LapPoint, hi: LapPoint) returns (i: nat)
    requires NextTo(calls, lo, hi)
    ensures var points := PointsOf(Run(calls).laps, lo.lap);
            i + 1 < |points| && points[i] == lo && points[i + 1] == hi && Ascending(points)
  {
    i := StoredPlace(calls, lo);
    var j := StoredPlace(calls, hi);
    var points := PointsOf(Run(calls).laps, lo.lap);
    PlacesAscend(points, i, j);
    if i + 1 < j {
      var p := points[i + 1];
      RunGood(calls);
      assert p in Run(calls).laps[lo.lap] && p.lap == lo.lap;
      assert lo.distance < p.distance < hi.distance;
      RunStoresSurvivors(calls, p);
    }
  }

  /** Between two neighbouring stored points of the best lap, the delta is the current time less the
      integer part of the time read off the line through them, so it lies between the current time
      less either of theirs. */
  lemma DeltaBetween(calls: seq<Call>, current: LapPoint, lo: LapPoint, hi: LapPoint) returns (x: real)
    requires LastStored(calls) == Some(current) && LastBest(calls) == Some(lo.lap)
    requires NextTo(calls, lo, hi) && lo.distance < current.distance < hi.distance
    ensures OnLine(lo.distance, lo.time as real, hi.distance, hi.time as real, current.distance, x)
    ensures Delta(Run(calls)).Some?
    ensures var r := Delta(Run(calls)).value;
            && IntegerPart(r.bestTime, x) && r.delta == current.time - r.bestTime
            && r.current == current && r.best == lo.lap && r.distance == current.distance
            && (lo.time <= hi.time ==> current.time - hi.time <= r.delta <= current.time - lo.time)
            && (hi.time <= lo.time ==> current.time - lo.time <= r.delta <= current.time - hi.time)
  {
    hide OnLine, IntegerPart, TimeAt, Blend, NextTo;
    RunRemembers(calls);
    var i := NextPlaces(calls, lo, hi);
    var points := PointsOf(Run(calls).laps, lo.lap);
    x := TimeOnLine(points, i, current.distance);
    TimeAtInside(points, i, current.distance);
    BlendBetween(lo, hi, current.distance);
  }
}
