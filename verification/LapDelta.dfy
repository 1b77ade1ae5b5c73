/** The lap delta index: strictly ordered distance/time points for each lap, rewritten when
    the timeline goes back, and compared against a chosen best lap. */
module LapDelta {
  import opened Python
  import opened Reals

  datatype LapPoint = LapPoint(lap: int, distance: real, time: int)

  datatype DeltaResult = DeltaResult(delta: int, current: LapPoint, best: int, bestTime: int, distance: real)

  // ---------- Specification ----------

  type Laps = map<int, seq<LapPoint>>

  datatype Index = Index(laps: Laps, best: Option<int>, last: Option<LapPoint>)

  function Empty(): Index {
    Index(map[], None, None)
  }

  function PointsOf(laps: Laps, lap: int): seq<LapPoint> {
    if lap in laps then laps[lap] else []
  }

  /** The points short of d. */
  function Below(points: seq<LapPoint>, d: real): seq<LapPoint> {
    if points == [] then []
    else
      var n := |points| - 1;
      var before := Below(points[..n], d);
      if points[n].distance < d then before + [points[n]] else before
  }

  /** Recording keeps the points short of the new one and adds it. */
  function AfterRecord(s: Index, lap: int, d: real, t: int): Index {
    var p := LapPoint(lap, d, t);
    s.(laps := s.laps[lap := Below(PointsOf(s.laps, lap), d) + [p]], last := Some(p))
  }

  /** A flashback also forgets every later lap; its point has no time yet. */
  function AfterFlashback(s: Index, lap: int, d: real): Index {
    var p := LapPoint(lap, d, 0);
    var kept := Keeping(s.laps, lap, {});
    s.(laps := kept[lap := Below(PointsOf(s.laps, lap), d) + [p]], last := Some(p))
  }

  function AfterSetBest(s: Index, lap: int): Index {
    s.(best := Some(lap))
  }

  /** bisect_left on an ascending list: how many leading distances are short of d. */
  function BisectLeft(distances: seq<real>, d: real): (k: nat)
    ensures k <= |distances|
    ensures k < |distances| ==> distances[k] >= d
    ensures k > 0 ==> distances[k - 1] < d
  {
    if distances == [] || distances[0] >= d then 0 else 1 + BisectLeft(distances[1..], d)
  }

  function Distances(points: seq<LapPoint>): (ds: seq<real>)
    ensures |ds| == |points|
    ensures forall i | 0 <= i < |points| :: ds[i] == points[i].distance
  {
    seq(|points|, i requires 0 <= i < |points| => points[i].distance)
  }

  function Interpolated(lo: LapPoint, hi: LapPoint, d: real): real
    requires hi.distance != lo.distance
  {
    Lerp(lo.time as real, hi.time as real, (d - lo.distance) / (hi.distance - lo.distance))
  }

  function Blend(lo: LapPoint, hi: LapPoint, d: real): int {
    if hi.distance == lo.distance then lo.time else Truncate(Interpolated(lo, hi, d))
  }

  /** The lap's time at a distance, when its points span it. */
  function TimeAt(points: seq<LapPoint>, d: real): Option<int> {
    if points == [] || d < points[0].distance || d > points[|points| - 1].distance then None
    else
      var k := BisectLeft(Distances(points), d);
      if points[k].distance == d then Some(points[k].time)
      else if k == 0 then None
      else Some(Blend(points[k - 1], points[k], d))
  }

  function Delta(s: Index): Option<DeltaResult> {
    if s.best.None? || s.last.None? then None
    else
      var best, current := s.best.value, s.last.value;
      var time := TimeAt(PointsOf(s.laps, best), current.distance);
      if time.None? then None
      else Some(DeltaResult(current.time - time.value, current, best, time.value, current.distance))
  }

  // ---------- The invariant ----------

  predicate Ascending(points: seq<LapPoint>) {
    forall i, j | 0 <= i < j < |points| :: points[i].distance < points[j].distance
  }

  predicate GoodLap(lap: int, points: seq<LapPoint>) {
    points != [] && Ascending(points) && forall p | p in points :: p.lap == lap
  }

  predicate Good(s: Index) {
    && (forall lap | lap in s.laps :: GoodLap(lap, s.laps[lap]))
    && (s.last.Some? ==>
          var p := s.last.value;
          p.lap in s.laps && s.laps[p.lap] != [] && s.laps[p.lap][|s.laps[p.lap]| - 1] == p)
  }

  predicate CutsAt(ds: seq<real>, d: real, k: nat) {
    k <= |ds| && (forall i | 0 <= i < k :: ds[i] < d) && (k < |ds| ==> ds[k] >= d)
  }

  lemma CutsApart(ds: seq<real>, d: real, b: nat, k: nat)
    ensures CutsAt(ds, d, b) && b < k <= |ds| ==> !CutsAt(ds, d, k)
  {
    if CutsAt(ds, d, b) && b < k <= |ds| {
      assert ds[b] >= d;
    }
  }

  lemma {:induction false} BisectCuts(ds: seq<real>, d: real)
    ensures CutsAt(ds, d, BisectLeft(ds, d))
  {
    if ds != [] && ds[0] < d {
      BisectCuts(ds[1..], d);
      assert forall i | 1 <= i < |ds| :: ds[i] == ds[1..][i - 1];
    }
  }

  lemma BisectUnique(ds: seq<real>, d: real, k: nat)
    requires CutsAt(ds, d, k)
    ensures BisectLeft(ds, d) == k
  {
    BisectCuts(ds, d);
    CutsApart(ds, d, BisectLeft(ds, d), k);
    CutsApart(ds, d, k, BisectLeft(ds, d));
  }

  lemma {:induction false} BelowSplit(points: seq<LapPoint>, d: real, k: nat)
    requires k <= |points|
    requires forall i | 0 <= i < k :: points[i].distance < d
    requires forall i | k <= i < |points| :: points[i].distance >= d
    ensures Below(points, d) == points[..k]
  {
    if points != [] {
      var n := |points| - 1;
      if k <= n {
        BelowSplit(points[..n], d, k);
        assert points[..n][..k] == points[..k];
      } else {
        BelowSplit(points[..n], d, n);
        assert points[..n] + [points[n]] == points[..k];
      }
    }
  }

  lemma BelowIsPrefix(points: seq<LapPoint>, d: real)
    requires Ascending(points)
    ensures Below(points, d) == points[..BisectLeft(Distances(points), d)]
  {
    var k := BisectLeft(Distances(points), d);
    BisectCuts(Distances(points), d);
    forall i | 0 <= i < k ensures points[i].distance < d {
      assert Distances(points)[i] < d;
    }
    forall i | k <= i < |points| ensures points[i].distance >= d {
      assert points[k].distance >= d && (i > k ==> points[k].distance < points[i].distance);
    }
    BelowSplit(points, d, k);
  }

  lemma {:induction false} BelowMembers(points: seq<LapPoint>, d: real)
    ensures forall p :: p in Below(points, d) <==> p in points && p.distance < d
  {
    if points != [] {
      BelowMembers(points[..|points| - 1], d);
      assert points == points[..|points| - 1] + [points[|points| - 1]];
    }
  }

  lemma ExtendGood(lap: int, points: seq<LapPoint>, d: real, t: int)
    requires points == [] || GoodLap(lap, points)
    ensures GoodLap(lap, Below(points, d) + [LapPoint(lap, d, t)])
  {
    var kept := Below(points, d);
    var k := BisectLeft(Distances(points), d);
    assert kept == points[..k] by { BelowIsPrefix(points, d); }
    assert Ascending(kept);
    forall p | p in kept ensures p.distance < d && p.lap == lap {
      BelowMembers(points, d);
    }
    AppendAscending(kept, LapPoint(lap, d, t));
  }

  lemma AppendAscending(points: seq<LapPoint>, p: LapPoint)
    requires Ascending(points) && forall q | q in points :: q.distance < p.distance
    ensures Ascending(points + [p])
  {
  }

  lemma RecordKeepsGood(s: Index, lap: int, d: real, t: int)
    requires Good(s)
    ensures Good(AfterRecord(s, lap, d, t))
  {
    ExtendGood(lap, PointsOf(s.laps, lap), d, t);
  }

  lemma FlashbackKeepsGood(s: Index, lap: int, d: real)
    requires Good(s)
    ensures Good(AfterFlashback(s, lap, d))
    ensures forall l | l in AfterFlashback(s, lap, d).laps :: l <= lap
  {
    ExtendGood(lap, PointsOf(s.laps, lap), d, 0);
  }

  // ---------- The object ----------

  lemma AllBelow(points: seq<LapPoint>, d: real)
    requires Ascending(points) && (points == [] || points[|points| - 1].distance < d)
    ensures BisectLeft(Distances(points), d) == |points|
  {
    BisectUnique(Distances(points), d, |points|);
  }

  /** The second list of every lap holds the distances of the first. */
  predicate Mirrors(laps: Laps, lapDistances: map<int, seq<real>>) {
    lapDistances.Keys == laps.Keys && forall lap | lap in laps :: lapDistances[lap] == Distances(laps[lap])
  }

  /** Cutting both lists of a lap at the same place and appending the point to both. */
  lemma RewriteLap(laps: Laps, lapDistances: map<int, seq<real>>, lap: int, p: LapPoint, keep: nat)
    requires Mirrors(laps, lapDistances) && Ascending(PointsOf(laps, lap))
    requires keep == BisectLeft(Distances(PointsOf(laps, lap)), p.distance)
    ensures var points := PointsOf(laps, lap);
            && Below(points, p.distance) == points[..keep]
            && Mirrors(laps[lap := points[..keep] + [p]],
                       lapDistances[lap := Distances(points)[..keep] + [p.distance]])
  {
    var points := PointsOf(laps, lap);
    BelowIsPrefix(points, p.distance);
    assert Distances(points[..keep] + [p]) == Distances(points)[..keep] + [p.distance];
  }

  /** The entries of laps up to `lap`, and of those still to be looked at. */
  function Keeping<V>(m: map<int, V>, lap: int, left: set<int>): map<int, V> {
    map l | l in m && (l <= lap || l in left) :: m[l]
  }

  lemma KeepingAll<V>(m: map<int, V>, lap: int)
    ensures Keeping(m, lap, m.Keys) == m
  {
  }

  lemma KeepingStep<V>(m: map<int, V>, lap: int, left: set<int>, l: int)
    requires l in left
    ensures Keeping(m, lap, left - {l}) == if l > lap then Keeping(m, lap, left) - {l} else Keeping(m, lap, left)
  {
  }

  class LapDeltaManager {
    var laps: map<int, seq<LapPoint>>
    var lapDistances: map<int, seq<real>>
    var bestLap: Option<int>
    var lastRecorded: Option<LapPoint>

    function State(): Index
      reads this
    {
      Index(laps, bestLap, lastRecorded)
    }

    predicate Valid()
      reads this
    {
      Good(State()) && Mirrors(laps, lapDistances)
    }

    constructor ()
      ensures Valid() && State() == Empty()
    {
      laps, lapDistances, bestLap, lastRecorded := map[], map[], None, None;
    }

    method RecordDataPoint(lap: int, d: real, t: int)
      requires Valid()
      modifies this
      ensures Valid() && State() == AfterRecord(old(State()), lap, d, t)
    {
      RecordKeepsGood(State(), lap, d, t);
      var points := if lap in laps then laps[lap] else [];
      var distances := if lap in lapDistances then lapDistances[lap] else [];
      assert distances == Distances(points) && points == PointsOf(laps, lap);
      var keep := |points|;
      if points == [] || d > distances[|distances| - 1] {
        AllBelow(points, d);
      } else {
        keep := BisectLeft(distances, d);
      }
      RewriteLap(laps, lapDistances, lap, LapPoint(lap, d, t), keep);
      Store(lap, points[..keep], distances[..keep], LapPoint(lap, d, t));
    }

    /** Appends the point to both lists of its lap. */
    method Store(lap: int, points: seq<LapPoint>, distances: seq<real>, p: LapPoint)
      modifies this
      ensures laps == old(laps)[lap := points + [p]]
      ensures lapDistances == old(lapDistances)[lap := distances + [p.distance]]
      ensures lastRecorded == Some(p) && bestLap == old(bestLap)
    {
      laps := laps[lap := points + [p]];
      lapDistances := lapDistances[lap := distances + [p.distance]];
      lastRecorded := Some(p);
    }

    method SetBestLap(lap: int)
      requires Valid()
      modifies this
      ensures Valid() && State() == AfterSetBest(old(State()), lap)
    {
      bestLap := Some(lap);
    }

    method HandleFlashback(lap: int, d: real)
      requires Valid()
      modifies this
      ensures Valid() && State() == AfterFlashback(old(State()), lap, d)
    {
      FlashbackKeepsGood(State(), lap, d);
      ForgetLater(lap);
      var points := if lap in laps then laps[lap] else [];
      var distances := if lap in lapDistances then lapDistances[lap] else [];
      assert distances == Distances(points) && points == PointsOf(laps, lap);
      var keep := BisectLeft(distances, d);
      RewriteLap(laps, lapDistances, lap, LapPoint(lap, d, 0), keep);
      Store(lap, points[..keep], distances[..keep], LapPoint(lap, d, 0));
    }

    method ForgetLater(lap: int)
      requires lapDistances.Keys == laps.Keys
      modifies this
      ensures laps == Keeping(old(laps), lap, {})
      ensures lapDistances == Keeping(old(lapDistances), lap, {})
      ensures bestLap == old(bestLap) && lastRecorded == old(lastRecorded)
    {
      var left := laps.Keys;
      KeepingAll(laps, lap);
      KeepingAll(lapDistances, lap);
      while left != {}
        invariant left <= old(laps).Keys
        invariant laps == Keeping(old(laps), lap, left) && lapDistances == Keeping(old(lapDistances), lap, left)
        invariant bestLap == old(bestLap) && lastRecorded == old(lastRecorded)
        decreases |left|
      {
        ghost var some := SomeMember(left);
        var l :| l in left;
        KeepingStep(old(laps), lap, left, l);
        KeepingStep(old(lapDistances), lap, left, l);
        if l > lap {
          laps := laps - {l};
          lapDistances := lapDistances - {l};
        }
        left := left - {l};
      }
    }

    method GetDelta() returns (r: Option<DeltaResult>)
      requires Valid()
      ensures r == Delta(State())
    {
      hide GoodLap, Blend, BisectLeft;
      if bestLap.None? || lastRecorded.None? {
        return None;
      }
      var best, current := bestLap.value, lastRecorded.value;
      if best !in laps || laps[best] == [] {
        return None;
      }
      var time := InterpolatedTimeForDistance(best, current.distance);
      if time.None? {
        return None;
      }
      return Some(DeltaResult(current.time - time.value, current, best, time.value, current.distance));
    }

    method InterpolatedTimeForDistance(lap: int, d: real) returns (r: Option<int>)
      requires Valid()
      ensures r == TimeAt(PointsOf(laps, lap), d)
    {
      hide Blend;
      if lap !in lapDistances || lapDistances[lap] == [] {
        return None;
      }
      var distances, points := lapDistances[lap], laps[lap];
      if d < distances[0] || d > distances[|distances| - 1] {
        return None;
      }
      var k := BisectLeft(distances, d);
      if k < |distances| && distances[k] == d {
        return Some(points[k].time);
      }
      return Some(Blend(points[k - 1], points[k], d));
    }
  }
}
