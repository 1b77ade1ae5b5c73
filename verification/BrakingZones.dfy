/** Dividing a synchronized lap into braking zones, or into equal chunks when the reference
    shows no braking. */
module BrakingZones {
  import opened Python
  import opened LapModels
  import opened LapSync

  type Zone = (int, int)

  function BrakeOf(p: SyncedPoint): real {
    if Brake in p.reference then p.reference[Brake] else 0.0
  }

  function ThrottleOf(p: SyncedPoint): real {
    if Throttle in p.reference then p.reference[Throttle] else 0.0
  }

  function SpeedOf(p: SyncedPoint): Option<real> {
    if SpeedKph in p.reference then Some(p.reference[SpeedKph]) else None
  }

  predicate Braking(p: SyncedPoint) {
    BrakeOf(p) >= 0.12
  }

  predicate Slower(a: SyncedPoint, b: SyncedPoint) {
    SpeedOf(a).Some? && (SpeedOf(b).None? || SpeedOf(a).value < SpeedOf(b).value)
  }

  // ---------- Zones as searches ----------

  function FirstBraking(points: seq<SyncedPoint>, from: nat): (k: nat)
    requires from <= |points|
    ensures from <= k <= |points|
    decreases |points| - from
  {
    if from == |points| || Braking(points[from]) then from else FirstBraking(points, from + 1)
  }

  lemma {:induction false} FirstBrakingMeaning(points: seq<SyncedPoint>, from: nat)
    requires from <= |points|
    ensures var k := FirstBraking(points, from);
            && (forall i | from <= i < k :: !Braking(points[i]))
            && (k < |points| ==> Braking(points[k]))
    decreases |points| - from
  {
    if from < |points| && !Braking(points[from]) {
      FirstBrakingMeaning(points, from + 1);
    }
  }

  /** The earliest slowest point from j to i; a point without a speed is never slower. */
  function Slowest(points: seq<SyncedPoint>, j: nat, i: nat): (m: nat)
    requires j <= i < |points|
    ensures j <= m <= i
    decreases i
  {
    if i == j then j
    else
      var m := Slowest(points, j, i - 1);
      if Slower(points[i], points[m]) then i else m
  }

  lemma {:induction false} SlowestMeaning(points: seq<SyncedPoint>, j: nat, i: nat)
    requires j <= i < |points|
    ensures var m := Slowest(points, j, i);
            && (forall k | j <= k <= i :: !Slower(points[k], points[m]))
            && (forall k | j <= k < m :: Slower(points[m], points[k]))
    decreases i
  {
    if j < i {
      SlowestMeaning(points, j, i - 1);
    }
  }

  /** The driver is past the slowest point of the zone, off the brake and on the throttle. */
  predicate Released(points: seq<SyncedPoint>, j: nat, i: nat)
    requires j <= i < |points|
  {
    i > Slowest(points, j, i) && BrakeOf(points[i]) <= 0.03 && ThrottleOf(points[i]) >= 0.9
  }

  function FirstReleased(points: seq<SyncedPoint>, j: nat, from: nat): (k: nat)
    requires j <= from <= |points| && j < |points|
    ensures from <= k <= |points|
    ensures j < k
    decreases |points| - from
  {
    if from == |points| || Released(points, j, from) then from else FirstReleased(points, j, from + 1)
  }

  lemma {:induction false} FirstReleasedMeaning(points: seq<SyncedPoint>, j: nat, from: nat)
    requires j <= from <= |points| && j < |points|
    ensures var k := FirstReleased(points, j, from);
            && (forall i | from <= i < k :: !Released(points, j, i))
            && (k < |points| ==> Released(points, j, k))
    decreases |points| - from
  {
    if from < |points| && !Released(points, j, from) {
      FirstReleasedMeaning(points, j, from + 1);
    }
  }

  function ZoneStart(j: nat): nat {
    if j == 0 then 0 else j - 1
  }

  function ZoneEnd(n: nat, i: nat): int {
    if n - 1 < i + 2 then n - 1 else i + 2
  }

  /** The zone begun at j, still unreleased before `from`, and the zones after it. */
  function ZoneAndRest(points: seq<SyncedPoint>, j: nat, from: nat): seq<Zone>
    requires j <= from <= |points| && j < |points|
    decreases |points| - from, 1
  {
    var i := FirstReleased(points, j, from);
    if i == |points| then [(ZoneStart(j), |points| - 1)]
    else [(ZoneStart(j), ZoneEnd(|points|, i))] + Zones(points, i + 1)
  }

  /** A zone starts one point before the first braking point and ends two points after the
      first release; the search for the next one goes on right after the release. */
  function Zones(points: seq<SyncedPoint>, from: nat): seq<Zone>
    requires from <= |points|
    decreases |points| - from, 0
  {
    var j := FirstBraking(points, from);
    if j == |points| then []
    else
      var i := FirstReleased(points, j, j);
      if i == |points| then [(ZoneStart(j), |points| - 1)]
      else [(ZoneStart(j), ZoneEnd(|points|, i))] + Zones(points, i + 1)
  }

  // ---------- Equal chunks ----------

  function ChunkSize(n: nat): nat {
    if n / 10 < 2 then 2 else n / 10
  }

  function Chunks(n: nat, chunk: nat, start: nat): seq<Zone>
    requires chunk > 0
    decreases n - start
  {
    if start >= n - 1 then []
    else [(start, if n - 1 < start + chunk then n - 1 else start + chunk)] + Chunks(n, chunk, start + chunk)
  }

  function Segments(points: seq<SyncedPoint>): seq<Zone> {
    var zones := Zones(points, 0);
    if zones != [] then zones else Chunks(|points|, ChunkSize(|points|), 0)
  }

  // ---------- Properties ----------

  /** Each zone is a non-empty stretch inside the lap; starts strictly increase; and a zone
      starts at most two points before the previous one ends. */
  predicate ZoneChain(zones: seq<Zone>, lowest: int, last: int) {
    && (forall k | 0 <= k < |zones| :: lowest <= zones[k].0 < zones[k].1 <= last)
    && (forall k, l | 0 <= k < l < |zones| :: zones[k].0 < zones[l].0)
    && (forall k, l | 0 <= k < l < |zones| && l <= k + 1 :: zones[k].1 - 2 <= zones[l].0)
  }

  lemma ChainPrepend(z: Zone, rest: seq<Zone>, lowest: int, next: int, last: int)
    requires ZoneChain(rest, next, last)
    requires lowest <= z.0 < z.1 <= last && z.0 < next && z.1 - 2 <= next && lowest <= next
    ensures ZoneChain([z] + rest, lowest, last)
  {
    var zones := [z] + rest;
    assert forall k | 1 <= k < |zones| :: zones[k] == rest[k - 1];
  }

  lemma NoChain(lowest: int, last: int)
    ensures ZoneChain([], lowest, last)
  {
  }

  lemma {:induction false} ZonesChain(points: seq<SyncedPoint>, from: nat)
    requires from <= |points| && |points| >= 2
    ensures ZoneChain(Zones(points, from), ZoneStart(from), |points| - 1)
    decreases |points| - from
  {
    hide FirstBraking, FirstReleased, ZoneChain;
    var j := FirstBraking(points, from);
    NoChain(ZoneStart(from), |points| - 1);
    if j < |points| {
      var last := |points| - 1;
      var i := FirstReleased(points, j, j);
      if i < |points| {
        ZonesChain(points, i + 1);
        ChainPrepend((ZoneStart(j), ZoneEnd(|points|, i)), Zones(points, i + 1), ZoneStart(from), i, last);
      } else {
        NoChain(last, last);
        ChainPrepend((ZoneStart(j), last), [], ZoneStart(from), last, last);
        assert [(ZoneStart(j), last)] + [] == Zones(points, from);
      }
    }
  }

  /** A zone ends before the next but one starts. */
  predicate Spaced(zones: seq<Zone>) {
    forall k, l | 0 <= k && k + 2 <= l < |zones| :: zones[k].1 <= zones[l].0
  }

  lemma SpacedPrepend(z: Zone, rest: seq<Zone>)
    requires Spaced(rest) && forall l | 1 <= l < |rest| :: z.1 <= rest[l].0
    ensures Spaced([z] + rest)
  {
    var zones := [z] + rest;
    assert forall k | 1 <= k < |zones| :: zones[k] == rest[k - 1];
  }

  /** All zones but the first start after the first braking point. */
  lemma LaterStarts(points: seq<SyncedPoint>, from: nat)
    requires from <= |points| && |points| >= 2
    ensures forall l | 1 <= l < |Zones(points, from)| :: from + 1 <= Zones(points, from)[l].0
  {
    hide FirstBraking, FirstReleased;
    var j := FirstBraking(points, from);
    if j < |points| {
      var i := FirstReleased(points, j, j);
      if i < |points| {
        ZonesChain(points, i + 1);
      }
    }
  }

  lemma {:induction false} ZonesSpaced(points: seq<SyncedPoint>, from: nat)
    requires from <= |points| && |points| >= 2
    ensures Spaced(Zones(points, from))
    decreases |points| - from
  {
    hide FirstBraking, FirstReleased;
    var j := FirstBraking(points, from);
    if j < |points| {
      var i := FirstReleased(points, j, j);
      if i < |points| {
        ZonesSpaced(points, i + 1);
        LaterStarts(points, i + 1);
        SpacedPrepend((ZoneStart(j), ZoneEnd(|points|, i)), Zones(points, i + 1));
      }
    }
  }

  lemma {:induction false} TilesSpaced(zones: seq<Zone>, start: int, last: int)
    requires Tiles(zones, start, last)
    ensures Spaced(zones)
  {
    if |zones| > 1 {
      TilesSpaced(zones[1..], zones[0].1, last);
      TilesAscend(zones[1..], zones[0].1, last);
      SpacedPrepend(zones[0], zones[1..]);
      assert [zones[0]] + zones[1..] == zones;
    }
  }

  /** However the lap is divided, no point lies inside three segments. */
  lemma SegmentsSpaced(points: seq<SyncedPoint>)
    requires |points| >= 2
    ensures Spaced(Segments(points))
  {
    ZonesSpaced(points, 0);
    ChunksTile(|points|, ChunkSize(|points|), 0);
    TilesSpaced(Chunks(|points|, ChunkSize(|points|), 0), 0, |points| - 1);
  }

  /** Every braking point from `from` on lies in a zone. */
  lemma {:induction false} ZonesCover(points: seq<SyncedPoint>, from: nat, k: nat) returns (i: nat)
    requires from <= k < |points| && Braking(points[k])
    ensures i < |Zones(points, from)|
    ensures Zones(points, from)[i].0 <= k <= Zones(points, from)[i].1
    decreases |points| - from
  {
    var j := FirstBraking(points, from);
    assert j <= k by { FirstBrakingMeaning(points, from); }
    var release := FirstReleased(points, j, j);
    i := 0;
    if release < k {
      i := ZonesCover(points, release + 1, k);
      assert Zones(points, from)[i + 1] == Zones(points, release + 1)[i];
      i := i + 1;
    }
  }

  /** Zones are found exactly when the reference brakes somewhere. */
  lemma ZonesFound(points: seq<SyncedPoint>)
    ensures Zones(points, 0) == [] <==> forall k | 0 <= k < |points| :: !Braking(points[k])
  {
    FirstBrakingMeaning(points, 0);
  }

  /** Consecutive chunks share a point, the first starts at 0 and the last ends at the end. */
  predicate Tiles(zones: seq<Zone>, start: int, last: int) {
    if zones == [] then start >= last
    else zones[0].0 == start && start < zones[0].1 <= last
         && (if |zones| == 1 then zones[0].1 == last else Tiles(zones[1..], zones[0].1, last))
  }

  lemma {:induction false} ChunksTile(n: nat, chunk: nat, start: nat)
    requires chunk > 0
    ensures Tiles(Chunks(n, chunk, start), start, n - 1)
    decreases n - start
  {
    if start < n - 1 {
      ChunksTile(n, chunk, start + chunk);
      assert Chunks(n, chunk, start)[1..] == Chunks(n, chunk, start + chunk);
    }
  }

  lemma {:induction false} TilesAscend(zones: seq<Zone>, start: int, last: int)
    requires Tiles(zones, start, last)
    ensures forall k | 0 <= k < |zones| :: start <= zones[k].0 < zones[k].1 <= last
  {
    if |zones| > 1 {
      TilesAscend(zones[1..], zones[0].1, last);
      assert forall k | 1 <= k < |zones| :: zones[k] == zones[1..][k - 1];
    }
  }

  /** Whichever way the lap is divided, no segment is empty, so the filter that drops empty
      ones drops none. */
  lemma SegmentsNonEmpty(points: seq<SyncedPoint>)
    requires |points| >= 2
    ensures Segments(points) != []
    ensures forall k | 0 <= k < |Segments(points)| ::
              0 <= Segments(points)[k].0 < Segments(points)[k].1 <= |points| - 1
  {
    ZonesChain(points, 0);
    ChunksTile(|points|, ChunkSize(|points|), 0);
    TilesAscend(Chunks(|points|, ChunkSize(|points|), 0), 0, |points| - 1);
  }

  // ---------- The state machine ----------

  method DetectBrakingSegments(points: seq<SyncedPoint>) returns (segments: seq<Zone>)
    ensures segments == Segments(points)
  {
    segments := ScanZones(points);
    if segments != [] {
      return;
    }
    var chunk := ChunkSize(|points|);
    var start := 0;
    while start < |points| - 1
      invariant 0 <= start
      invariant Chunks(|points|, chunk, 0) == segments + Chunks(|points|, chunk, start)
      decreases |points| - start
    {
      segments := segments + [(start, if |points| - 1 < start + chunk then |points| - 1 else start + chunk)];
      start := start + chunk;
    }
  }

  /** What is still to come: the open zone and the rest, or only the rest. */
  function Remaining(points: seq<SyncedPoint>, active: bool, trigger: nat, index: nat): seq<Zone>
    requires index <= |points| && (active ==> trigger <= index && trigger < |points|)
  {
    if active then ZoneAndRest(points, trigger, index) else Zones(points, index)
  }

  /** What has been found and what is still to come make up the answer. */
  predicate Pending(points: seq<SyncedPoint>, segments: seq<Zone>, active: bool, trigger: nat, index: nat)
    requires index <= |points| && (active ==> trigger <= index && trigger < |points|)
  {
    Zones(points, 0) == segments + Remaining(points, active, trigger, index)
  }

  lemma PendingStart(points: seq<SyncedPoint>, segments: seq<Zone>, index: nat)
    requires index < |points| && Pending(points, segments, false, 0, index)
    ensures if Braking(points[index]) then Pending(points, segments, true, index, index)
            else Pending(points, segments, false, 0, index + 1)
  {
  }

  lemma PendingStep(points: seq<SyncedPoint>, segments: seq<Zone>, trigger: nat, index: nat)
    requires trigger <= index < |points| && Pending(points, segments, true, trigger, index)
    ensures if Released(points, trigger, index)
            then Pending(points, segments + [(ZoneStart(trigger), ZoneEnd(|points|, index))], false, 0, index + 1)
            else Pending(points, segments, true, trigger, index + 1)
  {
    hide Slowest, FirstBraking;
    if Released(points, trigger, index) {
      assert FirstReleased(points, trigger, index) == index;
      var zone := (ZoneStart(trigger), ZoneEnd(|points|, index));
      assert segments + ([zone] + Zones(points, index + 1)) == segments + [zone] + Zones(points, index + 1);
    }
  }

  method ScanZones(points: seq<SyncedPoint>) returns (segments: seq<Zone>)
    ensures segments == Zones(points, 0)
  {
    segments := [];
    var activeStart: Option<int> := None;
    var minimum: nat := 0;
    ghost var trigger: nat := 0;
    for index := 0 to |points|
      invariant Scanning(points, segments, activeStart, minimum, trigger, index)
    {
      if activeStart.None? {
        PendingStart(points, segments, index);
        if BrakeOf(points[index]) >= 0.12 {
          trigger := index;
          activeStart := Some(if index == 0 then 0 else index - 1);
          minimum := index;
        }
      } else if Slower(points[index], points[minimum]) {
        minimum := index;
      }
      if activeStart.Some? {
        segments, activeStart := EndZone(points, segments, activeStart.value, minimum, trigger, index);
      }
    }
    if activeStart.Some? {
      segments := segments + [(activeStart.value, |points| - 1)];
    }
  }

  /** The scan's variables before point `index`; `trigger` is where the open zone began. */
  predicate Scanning(points: seq<SyncedPoint>, segments: seq<Zone>, activeStart: Option<int>, minimum: nat,
                     trigger: nat, index: nat)
    requires index <= |points|
  {
    if activeStart.None? then Pending(points, segments, false, 0, index)
    else
      && trigger < index && minimum == Slowest(points, trigger, index - 1) && activeStart.value == ZoneStart(trigger)
      && Pending(points, segments, true, trigger, index)
  }

  /** The closing test at point `index` of an open zone. */
  method EndZone(points: seq<SyncedPoint>, before: seq<Zone>, start: int, minimum: nat, ghost trigger: nat, index: nat)
    returns (segments: seq<Zone>, activeStart: Option<int>)
    requires trigger <= index < |points| && minimum == Slowest(points, trigger, index) && start == ZoneStart(trigger)
    requires Pending(points, before, true, trigger, index)
    ensures Scanning(points, segments, activeStart, minimum, trigger, index + 1)
  {
    PendingStep(points, before, trigger, index);
    if index > minimum && BrakeOf(points[index]) <= 0.03 && ThrottleOf(points[index]) >= 0.9 {
      return before + [(start, if |points| - 1 < index + 2 then |points| - 1 else index + 2)], None;
    }
    return before, Some(start);
  }
}
