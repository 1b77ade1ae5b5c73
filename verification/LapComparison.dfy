/** Where a lap loses time: the phase losses of each segment and of the whole comparison. */
module LapComparison {
  import opened Python
  import opened Sorting
  import opened LapModels
  import opened LapSync
  import opened BrakingZones

  // ---------- Deltas at a distance ----------

  /** The first of the first n points nearest to the distance. */
  function Nearest(points: seq<SyncedPoint>, d: real, n: nat): (k: nat)
    requires 0 < n <= |points|
    ensures k < n
  {
    if n == 1 then 0
    else
      var k := Nearest(points, d, n - 1);
      if Abs(points[n - 1].distance - d) < Abs(points[k].distance - d) then n - 1 else k
  }

  function DeltaAt(points: seq<SyncedPoint>, d: real): real
    requires points != []
  {
    points[Nearest(points, d, |points|)].delta
  }

  function PhaseLoss(points: seq<SyncedPoint>, start: real, end: real): real
    requires points != []
  {
    DeltaAt(points, end) - DeltaAt(points, start)
  }

  /** The point looked up is the earliest of those closest to the distance. */
  lemma {:induction false} NearestMeaning(points: seq<SyncedPoint>, d: real, n: nat)
    requires 0 < n <= |points|
    ensures var k := Nearest(points, d, n);
            && (forall i | 0 <= i < n :: Abs(points[k].distance - d) <= Abs(points[i].distance - d))
            && (forall i | 0 <= i < k :: Abs(points[k].distance - d) < Abs(points[i].distance - d))
  {
    if n > 1 {
      NearestMeaning(points, d, n - 1);
    }
  }

  lemma {:induction false} NearestIsItself(points: seq<SyncedPoint>, k: nat, n: nat)
    requires StrictlyIncreasing(Distances(points)) && k < |points| && 0 < n <= |points|
    ensures k < n ==> Nearest(points, points[k].distance, n) == k
  {
    if n > 1 && k < n {
      var ds := Distances(points);
      if k < n - 1 {
        NearestIsItself(points, k, n - 1);
      } else {
        assert ds[Nearest(points, points[k].distance, n - 1)] < ds[k];
      }
    }
  }

  /** The delta looked up at a point's own distance is that point's delta. */
  lemma DeltaAtPoint(points: seq<SyncedPoint>, k: nat)
    requires StrictlyIncreasing(Distances(points)) && k < |points|
    ensures DeltaAt(points, points[k].distance) == points[k].delta
  {
    NearestIsItself(points, k, |points|);
  }

  // ---------- One segment ----------

  /** The earliest point of least reference speed in the segment, counted from its start, or
      none when no point of it shows a speed. */
  function SlowestSeen(points: seq<SyncedPoint>, start: nat, end: nat): (r: Option<nat>)
    requires start <= end < |points|
    ensures r.Some? ==> start + r.value <= end
    decreases end
  {
    var before := if start == end then None else SlowestSeen(points, start, end - 1);
    if SpeedOf(points[end]).None? then before
    else if before.None? || Slower(points[end], points[start + before.value]) then Some(end - start)
    else before
  }

  function Apex(points: seq<SyncedPoint>, start: nat, end: nat): (apex: nat)
    requires start <= end < |points|
    ensures start <= apex <= end
  {
    var slowest := SlowestSeen(points, start, end);
    if slowest.Some? then start + slowest.value else start + (end - start + 1) / 2
  }

  /** No point of the segment is slower than the apex on the reference lap, and every earlier
      one is faster; there is none only if no point shows a speed. */
  lemma {:induction false} SlowestSeenMeaning(points: seq<SyncedPoint>, start: nat, end: nat)
    requires start <= end < |points|
    ensures var r := SlowestSeen(points, start, end);
            && (r.None? <==> forall i | start <= i <= end :: SpeedOf(points[i]).None?)
            && (r.Some? ==>
                  var apex := start + r.value;
                  && SpeedOf(points[apex]).Some?
                  && (forall i | start <= i <= end :: !Slower(points[i], points[apex]))
                  && (forall i | start <= i < apex :: Slower(points[apex], points[i])))
    decreases end
  {
    hide SpeedOf;
    if start < end {
      SlowestSeenMeaning(points, start, end - 1);
    }
  }

  datatype SegmentLoss = SegmentLoss(start: real, end: real, entry: real, mid: real, exit: real) {
    function Time(): real {
      entry + mid + exit
    }
  }

  /** The phases are cut 20 m before and after the apex, but not outside the segment. */
  function AnalyseSegment(points: seq<SyncedPoint>, zone: Zone): SegmentLoss
    requires 0 <= zone.0 <= zone.1 < |points|
  {
    var start, end := points[zone.0].distance, points[zone.1].distance;
    var apex := points[Apex(points, zone.0, zone.1)].distance;
    var entryEnd, midEnd := Max(start, apex - 20.0), Min(end, apex + 20.0);
    SegmentLoss(start, end, PhaseLoss(points, start, entryEnd), PhaseLoss(points, entryEnd, midEnd),
                PhaseLoss(points, midEnd, end))
  }

  /** The two cuts lie in order inside the segment, around its apex. */
  lemma PhasesInOrder(points: seq<SyncedPoint>, zone: Zone)
    requires StrictlyIncreasing(Distances(points)) && 0 <= zone.0 <= zone.1 < |points|
    ensures var start, end := points[zone.0].distance, points[zone.1].distance;
            var apex := points[Apex(points, zone.0, zone.1)].distance;
            start <= Max(start, apex - 20.0) <= apex <= Min(end, apex + 20.0) <= end
  {
    var ds, apex := Distances(points), Apex(points, zone.0, zone.1);
    assert zone.0 < apex ==> ds[zone.0] < ds[apex];
    assert apex < zone.1 ==> ds[apex] < ds[zone.1];
  }

  /** The three losses add up to the change of delta across the segment. */
  lemma SegmentTelescopes(points: seq<SyncedPoint>, zone: Zone)
    requires StrictlyIncreasing(Distances(points)) && 0 <= zone.0 <= zone.1 < |points|
    ensures AnalyseSegment(points, zone).Time() == points[zone.1].delta - points[zone.0].delta
  {
    DeltaAtPoint(points, zone.0);
    DeltaAtPoint(points, zone.1);
  }

  // ---------- The whole comparison ----------

  predicate ZonesInside(zones: seq<Zone>, n: nat) {
    forall k | 0 <= k < |zones| :: 0 <= zones[k].0 < zones[k].1 < n
  }

  function NonEmpty(zones: seq<Zone>): (r: seq<Zone>)
    ensures forall k | 0 <= k < |r| :: r[k] in zones && r[k].1 > r[k].0
  {
    if zones == [] then []
    else if zones[0].1 > zones[0].0 then [zones[0]] + NonEmpty(zones[1..]) else NonEmpty(zones[1..])
  }

  function AnalyseAll(points: seq<SyncedPoint>, zones: seq<Zone>): (segments: seq<SegmentLoss>)
    requires ZonesInside(zones, |points|)
    ensures |segments| == |zones|
  {
    if zones == [] then [] else [AnalyseSegment(points, zones[0])] + AnalyseAll(points, ZonesTail(zones, |points|))
  }

  function ZonesTail(zones: seq<Zone>, n: nat): (r: seq<Zone>)
    requires ZonesInside(zones, n) && zones != []
    ensures ZonesInside(r, n) && r == zones[1..]
  {
    zones[1..]
  }

  datatype Phase = Entry | Mid | Exit

  function Loss(s: SegmentLoss, phase: Phase): real {
    match phase case Entry => s.entry case Mid => s.mid case Exit => s.exit
  }

  function Total(segments: seq<SegmentLoss>, phase: Phase): real {
    if segments == [] then 0.0 else Loss(segments[0], phase) + Total(segments[1..], phase)
  }

  datatype Comparison = Comparison(
    gap: real, entry: real, mid: real, exit: real, segments: seq<SegmentLoss>, points: seq<SyncedPoint>)

  /** Largest loss first; equal losses keep their order along the lap. */
  predicate LossLe(a: SegmentLoss, b: SegmentLoss) {
    a.Time() >= b.Time()
  }

  function Compare(points: seq<SyncedPoint>): Comparison
    requires |points| >= 2
  {
    SegmentsKept(points);
    var segments := AnalyseAll(points, NonEmpty(Segments(points)));
    Comparison(points[|points| - 1].delta, Total(segments, Entry), Total(segments, Mid), Total(segments, Exit),
               Sort(LossLe, segments), points)
  }

  function AnalyzeLaps(target: LapTrace, reference: LapTrace, step: real): Result<Comparison> {
    var points :- SynchronizeLaps(target, reference, step);
    assert |points| >= 3 by {
      SyncReads(target, reference, step);
      SyncShape(target, reference, step);
    }
    Ok(Compare(points))
  }

  lemma {:induction false} NonEmptyKeepsAll(zones: seq<Zone>)
    requires forall k | 0 <= k < |zones| :: zones[k].0 < zones[k].1
    ensures NonEmpty(zones) == zones
  {
    if zones != [] {
      assert forall k | 0 <= k < |zones[1..]| :: zones[1..][k] == zones[k + 1];
      NonEmptyKeepsAll(zones[1..]);
    }
  }

  /** The filter on empty segments never drops one. */
  lemma SegmentsKept(points: seq<SyncedPoint>)
    requires |points| >= 2
    ensures NonEmpty(Segments(points)) == Segments(points) && ZonesInside(Segments(points), |points|)
  {
    SegmentsNonEmpty(points);
    NonEmptyKeepsAll(Segments(points));
  }

  /** The sum over zones of the change of delta across each. */
  function DeltaChange(points: seq<SyncedPoint>, zones: seq<Zone>): real
    requires ZonesInside(zones, |points|)
  {
    if zones == [] then 0.0
    else points[zones[0].1].delta - points[zones[0].0].delta + DeltaChange(points, ZonesTail(zones, |points|))
  }

  lemma {:induction false} TotalsTelescope(points: seq<SyncedPoint>, zones: seq<Zone>)
    requires StrictlyIncreasing(Distances(points)) && ZonesInside(zones, |points|)
    ensures var segments := AnalyseAll(points, zones);
            Total(segments, Entry) + Total(segments, Mid) + Total(segments, Exit) == DeltaChange(points, zones)
  {
    if zones != [] {
      SegmentTelescopes(points, zones[0]);
      hide AnalyseSegment, StrictlyIncreasing;
      TotalsTelescope(points, ZonesTail(zones, |points|));
      var segments := AnalyseAll(points, zones);
      assert segments[1..] == AnalyseAll(points, ZonesTail(zones, |points|));
    }
  }

  lemma {:induction false} TilesChange(points: seq<SyncedPoint>, zones: seq<Zone>, start: nat)
    requires ZonesInside(zones, |points|) && zones != [] && start < |points|
    requires Tiles(zones, start, |points| - 1)
    ensures DeltaChange(points, zones) == points[|points| - 1].delta - points[start].delta
  {
    if |zones| > 1 {
      TilesChange(points, ZonesTail(zones, |points|), zones[0].1);
    }
  }

  /** Over any comparison, the three totals add up to the change of delta across the
      segments. */
  lemma ComparisonTelescopes(points: seq<SyncedPoint>)
    requires |points| >= 2 && StrictlyIncreasing(Distances(points))
    ensures ZonesInside(Segments(points), |points|)
    ensures Compare(points).entry + Compare(points).mid + Compare(points).exit == DeltaChange(points, Segments(points))
  {
    SegmentsKept(points);
    TotalsTelescope(points, Segments(points));
  }
}
