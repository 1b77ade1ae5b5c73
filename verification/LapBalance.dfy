/** How the losses of a comparison add up, for synchronized points and from the laps themselves. */
module LapBalance {
  import opened Python
  import opened Sorting
  import opened LapModels
  import opened LapSync
  import opened BrakingZones
  import opened LapComparison

  predicate Within(z: Zone, k: int) {
    z.0 <= k < z.1
  }

  /** How many zones contain the step from point k to the next. */
  function Cover(zones: seq<Zone>, k: int): nat {
    if zones == [] then 0 else (if Within(zones[0], k) then 1 else 0) + Cover(zones[1..], k)
  }

  function StepChange(points: seq<SyncedPoint>, k: nat): real
    requires k + 1 < |points|
  {
    points[k + 1].delta - points[k].delta
  }

  /** The change over the first n steps, as often as they are covered. */
  function CoveredChange(points: seq<SyncedPoint>, zones: seq<Zone>, n: nat): real
    requires n < |points|
  {
    if zones == [] then 0.0 else ZoneChange(points, zones[0], n) + CoveredChange(points, zones[1..], n)
  }

  function ZoneChange(points: seq<SyncedPoint>, z: Zone, n: nat): real
    requires n < |points|
  {
    if n == 0 then 0.0
    else ZoneChange(points, z, n - 1) + if Within(z, n - 1) then StepChange(points, n - 1) else 0.0
  }

  /** The change over the first n steps that no zone contains. */
  function Uncovered(points: seq<SyncedPoint>, zones: seq<Zone>, n: nat): real
    requires n < |points|
  {
    if n == 0 then 0.0
    else Uncovered(points, zones, n - 1) + if Cover(zones, n - 1) == 0 then StepChange(points, n - 1) else 0.0
  }

  /** The change over the first n steps that two zones contain. */
  function Overlapped(points: seq<SyncedPoint>, zones: seq<Zone>, n: nat): real
    requires n < |points|
  {
    if n == 0 then 0.0
    else Overlapped(points, zones, n - 1) + if Cover(zones, n - 1) >= 2 then StepChange(points, n - 1) else 0.0
  }

  lemma {:induction false} ZoneTelescopes(points: seq<SyncedPoint>, z: Zone, n: nat)
    requires 0 <= z.0 < z.1 < |points| && n < |points|
    ensures ZoneChange(points, z, n) ==
            points[if n < z.1 then n else z.1].delta - points[if n < z.0 then n else z.0].delta
  {
    if n > 0 {
      ZoneTelescopes(points, z, n - 1);
    }
  }

  lemma {:induction false} ChangeIsCovered(points: seq<SyncedPoint>, zones: seq<Zone>)
    requires points != [] && ZonesInside(zones, |points|)
    ensures DeltaChange(points, zones) == CoveredChange(points, zones, |points| - 1)
  {
    if zones != [] {
      ZoneTelescopes(points, zones[0], |points| - 1);
      ChangeIsCovered(points, ZonesTail(zones, |points|));
    }
  }

  /** A change counted once for every zone that contains its step. */
  function Repeated(zones: seq<Zone>, k: int, change: real): real {
    if zones == [] then 0.0 else (if Within(zones[0], k) then change else 0.0) + Repeated(zones[1..], k, change)
  }

  lemma {:induction false} CoveredStep(points: seq<SyncedPoint>, zones: seq<Zone>, n: nat)
    requires 0 < n < |points|
    ensures CoveredChange(points, zones, n)
            == CoveredChange(points, zones, n - 1) + Repeated(zones, n - 1, StepChange(points, n - 1))
  {
    if zones != [] {
      CoveredStep(points, zones[1..], n);
    }
  }

  lemma {:induction false} NothingCovered(points: seq<SyncedPoint>, zones: seq<Zone>)
    requires points != []
    ensures CoveredChange(points, zones, 0) == 0.0
  {
    if zones != [] {
      NothingCovered(points, zones[1..]);
    }
  }

  lemma {:induction false} RepeatedByCover(zones: seq<Zone>, k: int, change: real)
    ensures Cover(zones, k) == 0 ==> Repeated(zones, k, change) == 0.0
    ensures Cover(zones, k) == 1 ==> Repeated(zones, k, change) == change
    ensures Cover(zones, k) == 2 ==> Repeated(zones, k, change) == change + change
  {
    if zones != [] {
      RepeatedByCover(zones[1..], k, change);
    }
  }

  lemma {:induction false} CoverOfLater(zones: seq<Zone>, k: int)
    requires forall l | 0 <= l < |zones| :: k < zones[l].0
    ensures Cover(zones, k) == 0
  {
    if zones != [] {
      CoverOfLater(zones[1..], k);
    }
  }

  lemma {:induction false} CoverAtMostTwo(zones: seq<Zone>, k: int)
    requires Spaced(zones)
    ensures Cover(zones, k) <= 2
  {
    if zones != [] {
      assert Spaced(zones[1..]) by {
        assert forall l | 0 <= l < |zones| - 1 :: zones[1..][l] == zones[l + 1];
      }
      CoverAtMostTwo(zones[1..], k);
      if Within(zones[0], k) && |zones| > 1 {
        forall l | 0 <= l < |zones[2..]| ensures k < zones[2..][l].0 {
          assert zones[0].1 <= zones[l + 2].0;
        }
        CoverOfLater(zones[2..], k);
        assert zones[1..][1..] == zones[2..];
      }
    }
  }

  lemma {:induction false} CoveredBalance(points: seq<SyncedPoint>, zones: seq<Zone>, n: nat)
    requires n < |points| && Spaced(zones)
    ensures CoveredChange(points, zones, n)
            == points[n].delta - points[0].delta - Uncovered(points, zones, n) + Overlapped(points, zones, n)
  {
    hide Spaced, Cover, CoveredChange;
    if n == 0 {
      NothingCovered(points, zones);
    } else {
      CoveredBalance(points, zones, n - 1);
      CoveredStep(points, zones, n);
      CoverAtMostTwo(zones, n - 1);
      RepeatedByCover(zones, n - 1, StepChange(points, n - 1));
    }
  }

  lemma GapOf(points: seq<SyncedPoint>)
    requires |points| >= 2
    ensures Compare(points).gap == points[|points| - 1].delta
  {
  }

  /** The three totals are the gap, less what is lost outside all segments, plus what is lost where
      two segments overlap; no step lies in three. */
  lemma TotalsAndGap(points: seq<SyncedPoint>)
    requires |points| >= 2 && StrictlyIncreasing(Distances(points)) && points[0].delta == 0.0
    ensures var c, zones, n := Compare(points), Segments(points), |points| - 1;
            && c.entry + c.mid + c.exit == c.gap - Uncovered(points, zones, n) + Overlapped(points, zones, n)
            && forall k :: Cover(zones, k) <= 2
  {
    hide Compare, DeltaChange, Segments, Uncovered, Overlapped, Cover, CoveredChange, Spaced, StrictlyIncreasing;
    GapOf(points);
    ComparisonTelescopes(points);
    SegmentsSpaced(points);
    ChangeIsCovered(points, Segments(points));
    CoveredBalance(points, Segments(points), |points| - 1);
    forall k ensures Cover(Segments(points), k) <= 2 {
      CoverAtMostTwo(Segments(points), k);
    }
  }

  /** On a lap without braking the segments tile the lap: together they lose the whole gap. */
  lemma FallbackLosesGap(points: seq<SyncedPoint>)
    requires |points| >= 2 && StrictlyIncreasing(Distances(points)) && points[0].delta == 0.0
    requires forall p | p in points :: !Braking(p)
    ensures Compare(points).entry + Compare(points).mid + Compare(points).exit == Compare(points).gap
  {
    FallbackChange(points);
    ComparisonTelescopes(points);
  }

  lemma FallbackChange(points: seq<SyncedPoint>)
    requires |points| >= 2
    requires forall p | p in points :: !Braking(p)
    ensures ZonesInside(Segments(points), |points|)
    ensures DeltaChange(points, Segments(points)) == points[|points| - 1].delta - points[0].delta
  {
    assert forall k | 0 <= k < |points| :: points[k] in points;
    ZonesFound(points);
    SegmentsKept(points);
    ChunksTile(|points|, ChunkSize(|points|), 0);
    TilesChange(points, Chunks(|points|, ChunkSize(|points|), 0), 0);
  }

  /** The reported segments are exactly the analysed ones, largest loss first. */
  lemma ComparisonRanks(points: seq<SyncedPoint>)
    requires |points| >= 2
    ensures ZonesInside(Segments(points), |points|)
    ensures var segments := Compare(points).segments;
            forall i, j | 0 <= i < j < |segments| ::
              segments[i].entry + segments[i].mid + segments[i].exit
              >= segments[j].entry + segments[j].mid + segments[j].exit
    ensures multiset(Compare(points).segments) == multiset(AnalyseAll(points, Segments(points)))
  {
    SegmentsKept(points);
    var segments := AnalyseAll(points, Segments(points));
    assert TotalPreorder(LossLe);
    SortContents(LossLe, segments);
    SortSorts(LossLe, segments);
    var sorted := Compare(points).segments;
    forall i, j | 0 <= i < j < |sorted| ensures sorted[i].Time() >= sorted[j].Time() {
      assert LossLe(sorted[i], sorted[j]);
    }
  }

  /** Two laps from the start: the analysis succeeds exactly when they can be synchronized. */
  lemma AnalysisSucceeds(target: LapTrace, reference: LapTrace, step: real)
    ensures AnalyzeLaps(target, reference, step).Ok? <==> Synchronizable(target, reference, step)
    ensures Synchronizable(target, reference, step) ==>
              var points := Synced(target, reference, step);
              |points| >= 3 && AnalyzeLaps(target, reference, step) == Ok(Compare(points))
  {
    SyncReads(target, reference, step);
    if Synchronizable(target, reference, step) {
      SyncShape(target, reference, step);
    }
  }

  /** Its losses then add up to the change of delta across the segments, and to the whole
      gap between the laps when the reference never brakes. */
  lemma AnalysisBalances(target: LapTrace, reference: LapTrace, step: real)
    requires Synchronizable(target, reference, step)
    ensures AnalyzeLaps(target, reference, step).Ok?
    ensures var points := Synced(target, reference, step);
            var c := AnalyzeLaps(target, reference, step).value;
            && ZonesInside(Segments(points), |points|)
            && |points| >= 2
            && c.entry + c.mid + c.exit == DeltaChange(points, Segments(points))
            && c.entry + c.mid + c.exit == c.gap - Uncovered(points, Segments(points), |points| - 1)
                                           + Overlapped(points, Segments(points), |points| - 1)
            && ((forall p | p in points :: !Braking(p)) ==> c.entry + c.mid + c.exit == c.gap)
  {
    hide Compare, DeltaChange, Segments, Uncovered, Overlapped, StrictlyIncreasing, GapsWithin, AnalyzeLaps, Synced;
    var points := Synced(target, reference, step);
    AnalysisSucceeds(target, reference, step);
    SyncShape(target, reference, step);
    ComparisonTelescopes(points);
    TotalsAndGap(points);
    if forall p | p in points :: !Braking(p) {
      FallbackLosesGap(points);
    }
  }

  /** Comparing the laps the other way round negates the gap. */
  lemma GapAntisymmetric(target: LapTrace, reference: LapTrace, step: real)
    requires Synchronizable(target, reference, step)
    ensures AnalyzeLaps(target, reference, step).Ok? && AnalyzeLaps(reference, target, step).Ok?
    ensures AnalyzeLaps(reference, target, step).value.gap == -AnalyzeLaps(target, reference, step).value.gap
  {
    AnalysisSucceeds(target, reference, step);
    SyncedSwap(target, reference, step);
    AnalysisSucceeds(reference, target, step);
    GapMirror(Synced(target, reference, step));
  }

  lemma GapMirror(points: seq<SyncedPoint>)
    requires |points| >= 2
    ensures Compare(MirrorAll(points)).gap == -Compare(points).gap
  {
    hide Compare;
    GapOf(points);
    GapOf(MirrorAll(points));
  }
}
