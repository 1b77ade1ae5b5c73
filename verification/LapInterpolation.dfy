/** Reading a lap is linear interpolation, exact at its samples, down to the synchronized points. */
module LapInterpolation {
  import opened Reals
  import opened LapModels
  import opened LapDedup
  import opened LapResample
  import opened LapSync

  /** Samples i and i + 1 are the neighbours of the distance: it is past the first of them, unless
      that begins the lap, and not past the second. */
  predicate Around(clean: seq<Sample>, d: real, i: nat) {
    && i + 1 < |clean| && d <= clean[i + 1].distance
    && (clean[i].distance < d || (i == 0 && clean[0].distance == d))
  }

  lemma AroundBracket(clean: seq<Sample>, d: real, i: nat)
    requires StrictDistances(clean) && Around(clean, d, i)
    ensures Bracket(clean, d) == i
  {
    BracketUnique(clean, d, i);
  }

  /** Every distance the lap spans has neighbours. */
  lemma Neighbours(clean: seq<Sample>, d: real) returns (i: nat)
    requires |clean| >= 2 && StrictDistances(clean) && clean[0].distance <= d <= clean[|clean| - 1].distance
    ensures Around(clean, d, i)
  {
    i := Bracket(clean, d);
    BracketUnique(clean, d, i);
    BracketBrackets(clean, d);
  }

  /** The mean magnitude of the two rear wheels' slip. */
  function RearSlipOf(s: Sample): real
    requires s.rearSlip.Some?
  {
    var (left, right) := s.rearSlip.value;
    ((if left < 0.0 then -left else left) + (if right < 0.0 then -right else right)) / 2.0
  }

  /** Every figure read at d lies on the line through the samples a and b: the time, each channel
      that both expose, and the rear slip if both have it; no other channel is read. */
  predicate Interpolates(a: Sample, b: Sample, d: real, time: real, values: Values) {
    && OnLine(a.distance, a.time, b.distance, b.time, d, time)
    && (forall c: Channel | c != RearSlip :: c in values <==> c in a.channels && c in b.channels)
    && (forall c | c in values && c != RearSlip ::
          OnLine(a.distance, a.channels[c], b.distance, b.channels[c], d, values[c]))
    && (RearSlip in values <==> a.rearSlip.Some? && b.rearSlip.Some?)
    && (RearSlip in values ==> OnLine(a.distance, RearSlipOf(a), b.distance, RearSlipOf(b), d, values[RearSlip]))
  }

  lemma InterpolateOnLine(a: Sample, b: Sample, d: real)
    requires a.distance < b.distance
    ensures Interpolates(a, b, d, Interpolate(a, b, d).0, Interpolate(a, b, d).1)
  {
    hide OnLine, Lerp;
    LerpOnLine(a.distance, a.time, b.distance, b.time, d);
    forall c | c in a.channels && c in b.channels
      ensures OnLine(a.distance, a.channels[c], b.distance, b.channels[c], d,
                     Lerp(a.channels[c], b.channels[c], Ratio(a, b, d)))
    {
      LerpOnLine(a.distance, a.channels[c], b.distance, b.channels[c], d);
    }
    if a.rearSlip.Some? && b.rearSlip.Some? {
      LerpOnLine(a.distance, RearSlipOf(a), b.distance, RearSlipOf(b), d);
    }
  }

  /** Between any two neighbouring samples a lap is read off the line through them. */
  lemma ReadInterpolates(clean: seq<Sample>, d: real, i: nat)
    requires |clean| >= 2 && StrictDistances(clean) && Around(clean, d, i)
    ensures Interpolates(clean[i], clean[i + 1], d, ReadAt(clean, d).0, ReadAt(clean, d).1)
  {
    AroundBracket(clean, d, i);
    InterpolateOnLine(clean[i], clean[i + 1], d);
  }

  /** A figure read is the sample's own. */
  predicate ReadsSample(s: Sample, time: real, values: Values) {
    && time == s.time
    && (forall c | c in values && c != RearSlip :: c in s.channels && values[c] == s.channels[c])
    && (RearSlip in values ==> s.rearSlip.Some? && values[RearSlip] == RearSlipOf(s))
  }

  lemma InterpolatesEnds(a: Sample, b: Sample, d: real, time: real, values: Values)
    requires a.distance < b.distance && Interpolates(a, b, d, time, values)
    ensures d == a.distance ==> ReadsSample(a, time, values)
    ensures d == b.distance ==> ReadsSample(b, time, values)
  {
    hide OnLine, RearSlipOf;
    if d == a.distance {
      OnLineAtStart(a.distance, a.time, b.distance, b.time, time);
      forall c | c in values && c != RearSlip ensures values[c] == a.channels[c] {
        OnLineAtStart(a.distance, a.channels[c], b.distance, b.channels[c], values[c]);
      }
      if RearSlip in values {
        OnLineAtStart(a.distance, RearSlipOf(a), b.distance, RearSlipOf(b), values[RearSlip]);
      }
    }
    if d == b.distance {
      OnLineAtEnd(a.distance, a.time, b.distance, b.time, time);
      forall c | c in values && c != RearSlip ensures values[c] == b.channels[c] {
        OnLineAtEnd(a.distance, a.channels[c], b.distance, b.channels[c], values[c]);
      }
      if RearSlip in values {
        OnLineAtEnd(a.distance, RearSlipOf(a), b.distance, RearSlipOf(b), values[RearSlip]);
      }
    }
  }

  /** Read at a sample's own distance, a lap gives that sample. */
  lemma ReadAtSample(clean: seq<Sample>, k: nat)
    requires |clean| >= 2 && StrictDistances(clean) && k < |clean|
    ensures var (time, values) := ReadAt(clean, clean[k].distance); ReadsSample(clean[k], time, values)
  {
    hide Interpolates, ReadsSample;
    var d, i := clean[k].distance, if k == 0 then 0 else k - 1;
    ReadInterpolates(clean, d, i);
    InterpolatesEnds(clean[i], clean[i + 1], d, ReadAt(clean, d).0, ReadAt(clean, d).1);
  }

  /** A lap that may be compared: a valid race lap with no pit stop, formation lap, safety car,
      incident, flashback or gap in its telemetry, and at least three samples. */
  predicate FairLap(t: LapTrace) {
    && t.valid && |t.samples| >= 3
    && !(t.pitLap || t.formationLap || t.safetyCar || t.incident || t.flashback || t.discontinuity)
  }

  /** Two laps can be synchronized exactly when both are fair, the step is positive, and the usable
      samples of both span a common stretch of at least two steps. */
  lemma SyncNeeds(target: LapTrace, reference: LapTrace, step: real)
    ensures SynchronizeLaps(target, reference, step).Ok? <==>
              var a, b := Deduplicate(target.samples), Deduplicate(reference.samples);
              && FairLap(target) && FairLap(reference) && step > 0.0 && a != [] && b != []
              && a[|a| - 1].distance - a[0].distance >= 2.0 * step && b[|b| - 1].distance - b[0].distance >= 2.0 * step
              && a[|a| - 1].distance - b[0].distance >= 2.0 * step && b[|b| - 1].distance - a[0].distance >= 2.0 * step
  {
    hide SynchronizeLaps, Deduplicate;
    SyncReads(target, reference, step);
  }

  /** The synchronized points lie a step apart from the later of the two laps' first samples on; the
      last one is the earlier of their last samples. */
  lemma SyncSteps(target: LapTrace, reference: LapTrace, step: real)
    requires Synchronizable(target, reference, step)
    ensures var a, b := Deduplicate(target.samples), Deduplicate(reference.samples);
            var ds := Distances(Synced(target, reference, step));
            var start := if a[0].distance < b[0].distance then b[0].distance else a[0].distance;
            var aEnd, bEnd := a[|a| - 1].distance, b[|b| - 1].distance;
            && |ds| >= 3 && (forall i | 0 <= i < |ds| - 1 :: ds[i] == start + i as real * step)
            && ds[|ds| - 1] == (if bEnd < aEnd then bEnd else aEnd)
            && 0.0 < ds[|ds| - 1] - ds[|ds| - 2] <= step
  {
    hide Deduplicate, ReadAt, Grid;
    var a, b := Deduplicate(target.samples), Deduplicate(reference.samples);
    SyncShape(target, reference, step);
    GridShape(OverlapStart(a, b), OverlapEnd(a, b), step);
    var points, ds := Synced(target, reference, step), SyncGrid(target, reference, step);
    PointsShape(ds, ReadAll(a, ds), ReadAll(b, ds));
    assert Distances(points) == ds;
  }

  lemma SyncedPointAt(target: LapTrace, reference: LapTrace, step: real, k: nat)
    requires Synchronizable(target, reference, step) && k < |Synced(target, reference, step)|
    ensures var a, b := Deduplicate(target.samples), Deduplicate(reference.samples);
            var p, ds := Synced(target, reference, step)[k], SyncGrid(target, reference, step);
            && k < |ds| && p.distance == ds[k] && |a| >= 2 && |b| >= 2
            && (p.targetTime, p.target) == ReadAt(a, p.distance)
            && (p.referenceTime, p.reference) == ReadAt(b, p.distance)
  {
    hide Deduplicate, ReadAt, SyncGrid, PointsOf, Synchronizable;
    var a, b, ds := Deduplicate(target.samples), Deduplicate(reference.samples), SyncGrid(target, reference, step);
    PointsRead(ds, ReadAll(a, ds), ReadAll(b, ds), k);
  }

  lemma SyncedPointReads(target: LapTrace, reference: LapTrace, step: real, k: nat)
    requires Synchronizable(target, reference, step) && k < |Synced(target, reference, step)|
    ensures var a, b := Deduplicate(target.samples), Deduplicate(reference.samples);
            var p := Synced(target, reference, step)[k];
            && |a| >= 2 && |b| >= 2 && StrictDistances(a) && StrictDistances(b)
            && (p.targetTime, p.target) == ReadAt(a, p.distance)
            && (p.referenceTime, p.reference) == ReadAt(b, p.distance)
            && a[0].distance <= p.distance <= a[|a| - 1].distance
            && b[0].distance <= p.distance <= b[|b| - 1].distance
  {
    hide Deduplicate, ReadAt, Represents, SyncGrid, Synced, StrictDistances, Synchronizable;
    DeduplicateRepresents(target.samples);
    DeduplicateRepresents(reference.samples);
    SyncedPointAt(target, reference, step, k);
    GridPointInside(target, reference, step, k);
  }

  lemma GridPointInside(target: LapTrace, reference: LapTrace, step: real, k: nat)
    requires Synchronizable(target, reference, step) && k < |SyncGrid(target, reference, step)|
    ensures var a, b := Deduplicate(target.samples), Deduplicate(reference.samples);
            var d := SyncGrid(target, reference, step)[k];
            && a[0].distance <= d <= a[|a| - 1].distance
            && b[0].distance <= d <= b[|b| - 1].distance
  {
    hide Deduplicate, SyncGrid, Synchronizable, Inside;
    var a, b, ds := Deduplicate(target.samples), Deduplicate(reference.samples), SyncGrid(target, reference, step);
    GridInside(target, reference, step);
    InsideAt(ds, a, k);
    InsideAt(ds, b, k);
  }

  lemma InsideAt(ds: seq<real>, clean: seq<Sample>, k: nat)
    requires Inside(ds, clean) && k < |ds|
    ensures clean[0].distance <= ds[k] <= clean[|clean| - 1].distance
  {
    assert k > 0 ==> ds[0] < ds[k];
    assert k < |ds| - 1 ==> ds[k] < ds[|ds| - 1];
  }

  lemma PointsRead(ds: seq<real>, target: seq<(real, Values)>, reference: seq<(real, Values)>, k: nat)
    requires |target| == |reference| == |ds| && k < |ds|
    ensures var p := PointsOf(ds, target, reference)[k];
            && p.distance == ds[k]
            && (p.targetTime, p.target) == target[k] && (p.referenceTime, p.reference) == reference[k]
  {
  }

  /** Each synchronized point has neighbours on both cleaned laps, and its times and channels lie on
      the lines through them. Its delta is the target's time less the reference's, counted from
      the first point. */
  lemma SyncInterpolates(target: LapTrace, reference: LapTrace, step: real, k: nat) returns (i: nat, j: nat)
    requires Synchronizable(target, reference, step) && k < |Synced(target, reference, step)|
    ensures var a, b := Deduplicate(target.samples), Deduplicate(reference.samples);
            var points := Synced(target, reference, step);
            var p := points[k];
            && Around(a, p.distance, i) && Interpolates(a[i], a[i + 1], p.distance, p.targetTime, p.target)
            && Around(b, p.distance, j) && Interpolates(b[j], b[j + 1], p.distance, p.referenceTime, p.reference)
            && p.delta == p.targetTime - p.referenceTime - (points[0].targetTime - points[0].referenceTime)
  {
    hide Interpolates, ReadAt, Deduplicate;
    var a, b := Deduplicate(target.samples), Deduplicate(reference.samples);
    var p := Synced(target, reference, step)[k];
    SyncedPointReads(target, reference, step, k);
    i := Neighbours(a, p.distance);
    j := Neighbours(b, p.distance);
    ReadInterpolates(a, p.distance, i);
    ReadInterpolates(b, p.distance, j);
  }

  /** A synchronized point at a sample of either lap has that sample's time and channels. */
  lemma SyncAtSamples(target: LapTrace, reference: LapTrace, step: real, k: nat, s: Sample)
    requires Synchronizable(target, reference, step) && k < |Synced(target, reference, step)|
    requires s.distance == Synced(target, reference, step)[k].distance
    ensures var p := Synced(target, reference, step)[k];
            && (s in Deduplicate(target.samples) ==> ReadsSample(s, p.targetTime, p.target))
            && (s in Deduplicate(reference.samples) ==> ReadsSample(s, p.referenceTime, p.reference))
  {
    hide ReadsSample, ReadAt, Deduplicate;
    var a, b := Deduplicate(target.samples), Deduplicate(reference.samples);
    SyncedPointReads(target, reference, step, k);
    if s in a {
      var i :| 0 <= i < |a| && a[i] == s;
      ReadAtSample(a, i);
    }
    if s in b {
      var i :| 0 <= i < |b| && b[i] == s;
      ReadAtSample(b, i);
    }
  }

  /** Two laps recorded from the same first to the same last distance: the last delta is the
      difference of their times over that stretch, whatever lies between. */
  lemma GapOfAlignedLaps(target: LapTrace, reference: LapTrace, step: real)
    requires Synchronizable(target, reference, step)
    requires var a, b := Deduplicate(target.samples), Deduplicate(reference.samples);
             a[0].distance == b[0].distance && a[|a| - 1].distance == b[|b| - 1].distance
    ensures var a, b := Deduplicate(target.samples), Deduplicate(reference.samples);
            var points := Synced(target, reference, step);
            && points != []
            && points[|points| - 1].delta == (a[|a| - 1].time - a[0].time) - (b[|b| - 1].time - b[0].time)
  {
    hide Deduplicate, ReadAt, GapsWithin;
    var a, b := Deduplicate(target.samples), Deduplicate(reference.samples);
    var points := Synced(target, reference, step);
    SyncShape(target, reference, step);
    var last := |points| - 1;
    SyncAtSamples(target, reference, step, 0, a[0]);
    SyncAtSamples(target, reference, step, 0, b[0]);
    SyncAtSamples(target, reference, step, last, a[|a| - 1]);
    SyncAtSamples(target, reference, step, last, b[|b| - 1]);
    assert points[0].distance == Distances(points)[0] && points[last].distance == Distances(points)[last];
  }
}
