/** What each phase of a segment loses, and what the totals of a comparison are sums of. */
module LapPhases {
  import opened Python
  import opened LapModels
  import opened LapSync
  import opened BrakingZones
  import opened LapComparison

  /** The earliest of the points closest to a distance. */
  predicate EarliestNearest(points: seq<SyncedPoint>, d: real, k: nat) {
    && k < |points|
    && (forall i | 0 <= i < |points| :: Abs(points[k].distance - d) <= Abs(points[i].distance - d))
    && (forall i | 0 <= i < k :: Abs(points[k].distance - d) < Abs(points[i].distance - d))
  }

  /** The earliest point of the segment with the least reference speed, or its middle when the
      reference shows no speed there. */
  predicate IsApex(points: seq<SyncedPoint>, zone: Zone, a: nat)
    requires 0 <= zone.0 <= zone.1 < |points|
  {
    && zone.0 <= a <= zone.1
    && if forall i | zone.0 <= i <= zone.1 :: SpeedKph !in points[i].reference
       then a == zone.0 + (zone.1 - zone.0 + 1) / 2
       else
         && SpeedKph in points[a].reference
         && (forall i | zone.0 <= i <= zone.1 && SpeedKph in points[i].reference ::
               points[a].reference[SpeedKph] <= points[i].reference[SpeedKph])
         && (forall i | zone.0 <= i < a && SpeedKph in points[i].reference ::
               points[a].reference[SpeedKph] < points[i].reference[SpeedKph])
  }

  lemma NearestIsEarliest(points: seq<SyncedPoint>, d: real, k: nat)
    requires EarliestNearest(points, d, k)
    ensures Nearest(points, d, |points|) == k
  {
    NearestMeaning(points, d, |points|);
  }

  lemma ApexIs(points: seq<SyncedPoint>, zone: Zone)
    requires 0 <= zone.0 <= zone.1 < |points|
    ensures IsApex(points, zone, Apex(points, zone.0, zone.1))
  {
    SlowestSeenMeaning(points, zone.0, zone.1);
    var a := Apex(points, zone.0, zone.1);
    assert forall i | zone.0 <= i <= zone.1 :: SpeedOf(points[i]).Some? ==> SpeedKph in points[i].reference;
    if SpeedOf(points[a]).Some? {
      assert SpeedKph in points[a].reference;
      forall i | zone.0 <= i <= zone.1 && SpeedKph in points[i].reference
        ensures points[a].reference[SpeedKph] <= points[i].reference[SpeedKph]
      {
        assert !Slower(points[i], points[a]);
      }
      forall i | zone.0 <= i < a && SpeedKph in points[i].reference
        ensures points[a].reference[SpeedKph] < points[i].reference[SpeedKph]
      {
        assert Slower(points[a], points[i]);
      }
    } else {
      forall i | zone.0 <= i <= zone.1 ensures SpeedKph !in points[i].reference {
        assert SpeedOf(points[i]).None?;
      }
    }
  }

  lemma ApexUnique(points: seq<SyncedPoint>, zone: Zone, a: nat, b: nat)
    requires 0 <= zone.0 <= zone.1 < |points| && IsApex(points, zone, a) && IsApex(points, zone, b)
    ensures a == b
  {
  }

  /** Where the entry of a segment ends: 20 m before its apex, but not before it starts. */
  function EntryCut(points: seq<SyncedPoint>, zone: Zone, a: nat): real
    requires 0 <= zone.0 <= zone.1 < |points| && a < |points|
  {
    var start, cut := points[zone.0].distance, points[a].distance - 20.0;
    if cut < start then start else cut
  }

  /** Where the exit of a segment begins: 20 m after its apex, but not after it ends. */
  function ExitCut(points: seq<SyncedPoint>, zone: Zone, a: nat): real
    requires 0 <= zone.0 <= zone.1 < |points| && a < |points|
  {
    var end, cut := points[zone.1].distance, points[a].distance + 20.0;
    if cut > end then end else cut
  }

  /** With a the apex and i and j the earliest points nearest to the cuts, each phase loses what the
      delta changes between its own two points. */
  lemma SegmentPhases(points: seq<SyncedPoint>, zone: Zone, a: nat, i: nat, j: nat)
    requires StrictlyIncreasing(Distances(points)) && 0 <= zone.0 <= zone.1 < |points|
    requires IsApex(points, zone, a)
    requires EarliestNearest(points, EntryCut(points, zone, a), i)
    requires EarliestNearest(points, ExitCut(points, zone, a), j)
    ensures var s := AnalyseSegment(points, zone);
            && s.start == points[zone.0].distance && s.end == points[zone.1].distance
            && s.entry == points[i].delta - points[zone.0].delta
            && s.mid == points[j].delta - points[i].delta
            && s.exit == points[zone.1].delta - points[j].delta
  {
    hide IsApex, EarliestNearest, Nearest, Apex;
    ApexIs(points, zone);
    ApexUnique(points, zone, a, Apex(points, zone.0, zone.1));
    NearestIsEarliest(points, EntryCut(points, zone, a), i);
    NearestIsEarliest(points, ExitCut(points, zone, a), j);
    DeltaAtPoint(points, zone.0);
    DeltaAtPoint(points, zone.1);
  }

  lemma NearestFound(points: seq<SyncedPoint>, d: real)
    requires points != []
    ensures EarliestNearest(points, d, Nearest(points, d, |points|))
  {
    NearestMeaning(points, d, |points|);
  }

  /** The points at which a segment's phases meet. */
  function Meets(points: seq<SyncedPoint>, zone: Zone): (r: (nat, nat))
    requires 0 <= zone.0 <= zone.1 < |points|
    ensures r.0 < |points| && r.1 < |points|
  {
    var a := Apex(points, zone.0, zone.1);
    (Nearest(points, EntryCut(points, zone, a), |points|), Nearest(points, ExitCut(points, zone, a), |points|))
  }

  lemma MeetsMeaning(points: seq<SyncedPoint>, zone: Zone)
    requires 0 <= zone.0 <= zone.1 < |points|
    ensures var a, meets := Apex(points, zone.0, zone.1), Meets(points, zone);
            && IsApex(points, zone, a)
            && EarliestNearest(points, EntryCut(points, zone, a), meets.0)
            && EarliestNearest(points, ExitCut(points, zone, a), meets.1)
  {
    hide IsApex, EarliestNearest, Nearest, Apex;
    var a := Apex(points, zone.0, zone.1);
    ApexIs(points, zone);
    NearestFound(points, EntryCut(points, zone, a));
    NearestFound(points, ExitCut(points, zone, a));
  }

  /** The change of delta over one phase of a segment. */
  function PhaseChange(points: seq<SyncedPoint>, zone: Zone, phase: Phase): real
    requires 0 <= zone.0 <= zone.1 < |points|
  {
    var (i, j) := Meets(points, zone);
    match phase
    case Entry => points[i].delta - points[zone.0].delta
    case Mid => points[j].delta - points[i].delta
    case Exit => points[zone.1].delta - points[j].delta
  }

  /** The change of delta over one phase of all segments. */
  function PhaseChanges(points: seq<SyncedPoint>, zones: seq<Zone>, phase: Phase): real
    requires ZonesInside(zones, |points|)
  {
    if zones == [] then 0.0
    else PhaseChange(points, zones[0], phase) + PhaseChanges(points, ZonesTail(zones, |points|), phase)
  }

  lemma SegmentLosses(points: seq<SyncedPoint>, zone: Zone, phase: Phase)
    requires StrictlyIncreasing(Distances(points)) && 0 <= zone.0 <= zone.1 < |points|
    ensures Loss(AnalyseSegment(points, zone), phase) == PhaseChange(points, zone, phase)
  {
    hide AnalyseSegment, StrictlyIncreasing, IsApex, EarliestNearest, EntryCut, ExitCut, Apex;
    var meets := Meets(points, zone);
    MeetsMeaning(points, zone);
    SegmentPhases(points, zone, Apex(points, zone.0, zone.1), meets.0, meets.1);
  }

  lemma TotalsSplit(points: seq<SyncedPoint>, zones: seq<Zone>, phase: Phase)
    requires ZonesInside(zones, |points|) && zones != []
    ensures Total(AnalyseAll(points, zones), phase)
            == Loss(AnalyseSegment(points, zones[0]), phase)
               + Total(AnalyseAll(points, ZonesTail(zones, |points|)), phase)
  {
    hide AnalyseSegment;
    assert AnalyseAll(points, zones)[1..] == AnalyseAll(points, ZonesTail(zones, |points|));
  }

  lemma {:induction false} TotalsOfPhase(points: seq<SyncedPoint>, zones: seq<Zone>, phase: Phase)
    requires StrictlyIncreasing(Distances(points)) && ZonesInside(zones, |points|)
    ensures PhaseChanges(points, zones, phase) == Total(AnalyseAll(points, zones), phase)
  {
    if zones != [] {
      hide AnalyseSegment, StrictlyIncreasing, PhaseChange, Loss;
      SegmentLosses(points, zones[0], phase);
      TotalsOfPhase(points, ZonesTail(zones, |points|), phase);
      TotalsSplit(points, zones, phase);
    }
  }

  /** Each total of a comparison is the change of delta over that phase of all its segments. */
  lemma ComparisonPhases(points: seq<SyncedPoint>)
    requires |points| >= 2 && StrictlyIncreasing(Distances(points))
    ensures ZonesInside(Segments(points), |points|)
    ensures var c := Compare(points);
            && c.entry == PhaseChanges(points, Segments(points), Entry)
            && c.mid == PhaseChanges(points, Segments(points), Mid)
            && c.exit == PhaseChanges(points, Segments(points), Exit)
  {
    hide AnalyseAll, Total, StrictlyIncreasing, Segments, PhaseChanges;
    SegmentsKept(points);
    TotalsOfPhase(points, Segments(points), Entry);
    TotalsOfPhase(points, Segments(points), Mid);
    TotalsOfPhase(points, Segments(points), Exit);
  }
}
