/** Two laps synchronized by distance. */
module LapSync {
  import opened Python
  import opened Reals
  import opened LapModels
  import opened LapDedup
  import opened LapResample

  datatype SyncedPoint = SyncedPoint(
    distance: real, targetTime: real, referenceTime: real, delta: real, target: Values, reference: Values)

  // ---------- The grid ----------

  function Steps(start: real, end: real, step: real): int
    requires step > 0.0
  {
    ((end - start) / step).Floor
  }

  /** index * step, as repeated addition; TimesIsProduct says it is the product. */
  function Times(index: nat, step: real): real {
    if index == 0 then 0.0 else Times(index - 1, step) + step
  }

  lemma {:induction false} TimesIsProduct(index: nat, step: real)
    ensures Times(index, step) == index as real * step
  {
    if index > 0 {
      TimesIsProduct(index - 1, step);
      assert index as real == (index - 1) as real + 1.0;
      assert ((index - 1) as real + 1.0) * step == (index - 1) as real * step + step;
    }
  }

  lemma {:induction false} TimesIncrease(step: real, i: nat, j: nat)
    requires step > 0.0 && i < j
    ensures Times(i, step) < Times(j, step)
  {
    if i < j - 1 {
      TimesIncrease(step, i, j - 1);
    }
  }

  /** Every step from the start, and the end itself when the last step falls short of it. */
  function Grid(start: real, end: real, step: real): seq<real>
    requires step > 0.0 && start <= end
  {
    var count := StepsFit(start, end, step);
    var distances := seq(count + 1, i requires 0 <= i <= count => start + Times(i, step));
    if distances[count] < end then distances + [end] else distances
  }

  /** As many whole steps as fit. */
  function StepsFit(start: real, end: real, step: real): (count: nat)
    requires step > 0.0 && start <= end
    ensures count == Steps(start, end, step)
    ensures start + Times(count, step) <= end < start + Times(count, step) + step
  {
    StepBounds(start, end, step);
    TimesIsProduct(Steps(start, end, step), step);
    Steps(start, end, step)
  }

  lemma StepBounds(start: real, end: real, step: real)
    requires step > 0.0 && start <= end
    ensures var count := Steps(start, end, step);
            0 <= count && start + count as real * step <= end < start + count as real * step + step
  {
    QuotientOrder(0.0, end - start, step);
    var q := (end - start) / step;
    ScaledBelow(q, q.Floor as real, end - start, step);
    ScaledAbove(q, q.Floor as real, end - start, step);
  }

  predicate StrictlyIncreasing(ds: seq<real>) {
    forall i, j | 0 <= i < j < |ds| :: ds[i] < ds[j]
  }

  lemma GridIncreases(start: real, end: real, step: real, i: nat, j: nat)
    requires step > 0.0 && start <= end
    requires i < j < |Grid(start, end, step)|
    ensures var ds := Grid(start, end, step);
            ds[i] < ds[j] && (j == i + 1 ==> ds[j] - ds[i] <= step)
  {
    var count := StepsFit(start, end, step);
    if i < count {
      TimesIncrease(step, i, if j <= count then j else count);
    }
  }

  /** Every point but the last lies a whole number of steps from the start. */
  lemma GridSteps(start: real, end: real, step: real, i: nat)
    requires step > 0.0 && start <= end
    ensures i + 1 < |Grid(start, end, step)| ==> Grid(start, end, step)[i] == start + i as real * step
  {
    TimesIsProduct(i, step);
  }

  /** The grid runs exactly from start to end, strictly upwards, a step apart, except that the last
      gap may be shorter. */
  lemma GridShape(start: real, end: real, step: real)
    requires step > 0.0 && start <= end
    ensures var ds := Grid(start, end, step);
            && |ds| >= 1 && ds[0] == start && ds[|ds| - 1] == end
            && StrictlyIncreasing(ds) && GapsWithin(ds, step)
            && forall i | 0 <= i < |ds| - 1 :: ds[i] == start + i as real * step
  {
    var ds := Grid(start, end, step);
    forall i | 0 <= i < |ds| - 1 ensures ds[i] == start + i as real * step {
      GridSteps(start, end, step, i);
    }
    forall i, j | 0 <= i < j < |ds| ensures ds[i] < ds[j] && (j == i + 1 ==> ds[j] - ds[i] <= step) {
      GridIncreases(start, end, step, i, j);
    }
  }

  predicate GapsWithin(ds: seq<real>, step: real) {
    forall i, j | 0 <= i < j < |ds| && j <= i + 1 :: ds[j] - ds[i] <= step
  }

  // ---------- Synchronization ----------

  function OverlapStart(a: seq<Sample>, b: seq<Sample>): real
    requires a != [] && b != []
  {
    Max(a[0].distance, b[0].distance)
  }

  function OverlapEnd(a: seq<Sample>, b: seq<Sample>): real
    requires a != [] && b != []
  {
    Min(a[|a| - 1].distance, b[|b| - 1].distance)
  }

  function PointsOf(ds: seq<real>, target: seq<(real, Values)>,
                    reference: seq<(real, Values)>): (points: seq<SyncedPoint>)
    requires |target| == |reference| == |ds| > 0
    ensures |points| == |ds|
  {
    var initial := target[0].0 - reference[0].0;
    seq(|ds|, i requires 0 <= i < |ds| =>
      SyncedPoint(ds[i], target[i].0, reference[i].0, (target[i].0 - reference[i].0) - initial,
                  target[i].1, reference[i].1))
  }

  /** The cleaned samples are handed to the resampler, which cleans them again. */
  function SynchronizeLaps(target: LapTrace, reference: LapTrace, step: real): Result<seq<SyncedPoint>> {
    if !Comparable(target) || !Comparable(reference) then Err(ValueError)
    else if step <= 0.0 then Err(ValueError)
    else
      var a, b := Deduplicate(target.samples), Deduplicate(reference.samples);
      if a == [] || b == [] then Err(IndexError)
      else
        var start, end := OverlapStart(a, b), OverlapEnd(a, b);
        if end - start < step * 2.0 then Err(ValueError)
        else
          var ds := Grid(start, end, step);
          var targetValues :- Resampled(a, ds);
          var referenceValues :- Resampled(b, ds);
          GridShape(start, end, step);
          Ok(PointsOf(ds, targetValues, referenceValues))
  }

  /** What synchronizing two laps needs: comparable laps whose usable samples overlap by at
      least two steps. */
  predicate Synchronizable(target: LapTrace, reference: LapTrace, step: real) {
    var a, b := Deduplicate(target.samples), Deduplicate(reference.samples);
    && Comparable(target) && Comparable(reference) && step > 0.0
    && a != [] && b != []
    && OverlapEnd(a, b) - OverlapStart(a, b) >= step * 2.0
  }

  /** The grid of two synchronizable laps; both have at least two samples to read between. */
  function SyncGrid(target: LapTrace, reference: LapTrace, step: real): (ds: seq<real>)
    requires Synchronizable(target, reference, step)
    ensures ds != [] && |Deduplicate(target.samples)| >= 2 && |Deduplicate(reference.samples)| >= 2
  {
    var a, b := Deduplicate(target.samples), Deduplicate(reference.samples);
    GridShape(OverlapStart(a, b), OverlapEnd(a, b), step);
    Grid(OverlapStart(a, b), OverlapEnd(a, b), step)
  }

  /** Every point of the grid, read on both cleaned laps at its own bracket. */
  function Synced(target: LapTrace, reference: LapTrace, step: real): seq<SyncedPoint>
    requires Synchronizable(target, reference, step)
  {
    var ds := SyncGrid(target, reference, step);
    PointsOf(ds, ReadAll(Deduplicate(target.samples), ds), ReadAll(Deduplicate(reference.samples), ds))
  }

  /** Resampling cleaned samples: cleaning them again changes nothing. */
  lemma ResampledClean(samples: seq<Sample>, ds: seq<real>)
    ensures var clean := Deduplicate(samples);
            Resampled(clean, ds) == if |clean| < 2 then Err(ValueError) else Ok(ReadAll(clean, ds))
  {
    DeduplicateIdempotent(samples);
  }

  /** Synchronization succeeds exactly on synchronizable laps: the resampler itself never
      runs out of samples, and cleaning the samples twice changes nothing. */
  lemma SyncReads(target: LapTrace, reference: LapTrace, step: real)
    ensures SynchronizeLaps(target, reference, step).Ok? <==> Synchronizable(target, reference, step)
    ensures Synchronizable(target, reference, step) ==>
              SynchronizeLaps(target, reference, step) == Ok(Synced(target, reference, step))
  {
    if Synchronizable(target, reference, step) {
      var ds := SyncGrid(target, reference, step);
      ResampledClean(target.samples, ds);
      ResampledClean(reference.samples, ds);
    }
  }

  function TimeDifference(p: SyncedPoint): real {
    p.targetTime - p.referenceTime
  }

  function Distances(points: seq<SyncedPoint>): (ds: seq<real>)
    ensures |ds| == |points|
    ensures forall i | 0 <= i < |points| :: ds[i] == points[i].distance
  {
    seq(|points|, i requires 0 <= i < |points| => points[i].distance)
  }

  /** The shape of the result: the distances run from the start of the overlap to its end in
      steps, the first delta is zero, and every other is measured from there. */
  lemma SyncShape(target: LapTrace, reference: LapTrace, step: real)
    requires Synchronizable(target, reference, step)
    ensures var points := Synced(target, reference, step);
            var a, b := Deduplicate(target.samples), Deduplicate(reference.samples);
            var ds := Distances(points);
            && |points| >= 3
            && ds[0] == OverlapStart(a, b) && ds[|ds| - 1] == OverlapEnd(a, b)
            && StrictlyIncreasing(ds) && GapsWithin(ds, step)
            && points[0].delta == 0.0
            && (forall i | 0 <= i < |points| ::
                  points[i].delta == TimeDifference(points[i]) - TimeDifference(points[0]))
  {
    var a, b := Deduplicate(target.samples), Deduplicate(reference.samples);
    var ds := SyncGrid(target, reference, step);
    GridShape(OverlapStart(a, b), OverlapEnd(a, b), step);
    PointsShape(ds, ReadAll(a, ds), ReadAll(b, ds));
  }

  lemma PointsShape(ds: seq<real>, target: seq<(real, Values)>, reference: seq<(real, Values)>)
    requires |target| == |reference| == |ds| > 0
    ensures var points := PointsOf(ds, target, reference);
            && Distances(points) == ds && points[0].delta == 0.0
            && (forall i | 0 <= i < |points| ::
                  && points[i].targetTime == target[i].0 && points[i].referenceTime == reference[i].0
                  && points[i].delta == TimeDifference(points[i]) - TimeDifference(points[0]))
  {
  }

  /** The grid stays inside both laps. */
  lemma GridInside(target: LapTrace, reference: LapTrace, step: real)
    requires Synchronizable(target, reference, step)
    ensures var ds := SyncGrid(target, reference, step);
            && Inside(ds, Deduplicate(target.samples)) && Inside(ds, Deduplicate(reference.samples))
  {
    var a, b := Deduplicate(target.samples), Deduplicate(reference.samples);
    GridShape(OverlapStart(a, b), OverlapEnd(a, b), step);
  }

  predicate Inside(ds: seq<real>, clean: seq<Sample>) {
    && ds != [] && clean != [] && StrictlyIncreasing(ds)
    && clean[0].distance <= ds[0] && ds[|ds| - 1] <= clean[|clean| - 1].distance
  }

  lemma ReadAllAscends(clean: seq<Sample>, ds: seq<real>)
    requires |clean| >= 2 && StrictDistances(clean) && TimesAscend(clean)
    requires Inside(ds, clean)
    ensures forall i, j | 0 <= i < j < |ds| :: ReadAll(clean, ds)[i].0 <= ReadAll(clean, ds)[j].0
  {
    forall i, j | 0 <= i < j < |ds| ensures ReadAll(clean, ds)[i].0 <= ReadAll(clean, ds)[j].0 {
      assert ds[0] <= ds[i] <= ds[j] <= ds[|ds| - 1];
      ReadTimeMonotone(clean, ds[i], ds[j]);
    }
  }

  /** Points are always read inside both laps, so the synchronized times do not go backwards
      on laps whose sample times do not. */
  lemma SyncTimesAscend(target: LapTrace, reference: LapTrace, step: real)
    requires Synchronizable(target, reference, step)
    requires TimesAscend(Deduplicate(target.samples)) && TimesAscend(Deduplicate(reference.samples))
    ensures var points := Synced(target, reference, step);
            forall i, j | 0 <= i < j < |points| ::
              points[i].targetTime <= points[j].targetTime && points[i].referenceTime <= points[j].referenceTime
  {
    DeduplicateRepresents(target.samples);
    DeduplicateRepresents(reference.samples);
    var a, b := Deduplicate(target.samples), Deduplicate(reference.samples);
    var ds := SyncGrid(target, reference, step);
    GridInside(target, reference, step);
    ReadAllAscends(a, ds);
    ReadAllAscends(b, ds);
    PointsShape(ds, ReadAll(a, ds), ReadAll(b, ds));
  }

  // ---------- Swapping the laps ----------

  function Mirror(p: SyncedPoint): SyncedPoint {
    SyncedPoint(p.distance, p.referenceTime, p.targetTime, -p.delta, p.reference, p.target)
  }

  function MirrorAll(points: seq<SyncedPoint>): (r: seq<SyncedPoint>)
    ensures |r| == |points|
  {
    seq(|points|, i requires 0 <= i < |points| => Mirror(points[i]))
  }

  lemma PointsMirror(ds: seq<real>, target: seq<(real, Values)>, reference: seq<(real, Values)>)
    requires |target| == |reference| == |ds| > 0
    ensures PointsOf(ds, reference, target) == MirrorAll(PointsOf(ds, target, reference))
  {
  }

  lemma SyncedSwap(target: LapTrace, reference: LapTrace, step: real)
    requires Synchronizable(target, reference, step)
    ensures Synchronizable(reference, target, step)
    ensures Synced(reference, target, step) == MirrorAll(Synced(target, reference, step))
  {
    var ds := SyncGrid(target, reference, step);
    PointsMirror(ds, ReadAll(Deduplicate(target.samples), ds), ReadAll(Deduplicate(reference.samples), ds));
  }

  /** Comparing the laps the other way round succeeds in the same cases, and then gives the
      mirrored points, every delta negated. */
  lemma SyncSwap(target: LapTrace, reference: LapTrace, step: real)
    ensures SynchronizeLaps(reference, target, step)
            == match SynchronizeLaps(target, reference, step)
               case Ok(points) => Ok(MirrorAll(points))
               case Err(e) => Err(e)
  {
    SyncReads(target, reference, step);
    SyncReads(reference, target, step);
    if Synchronizable(target, reference, step) {
      SyncedSwap(target, reference, step);
    }
  }
}
