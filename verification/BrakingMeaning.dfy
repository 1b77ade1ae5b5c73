/** What a braking zone is, in the reference lap's own channels. */
module BrakingMeaning {
  import opened LapModels
  import opened LapSync
  import opened BrakingZones

  /** The reference brakes by at least 12 %. */
  predicate Brakes(p: SyncedPoint) {
    Brake in p.reference && p.reference[Brake] >= 0.12
  }

  /** The reference speed is known at a, and lower than at b if it is known there. */
  predicate KnownSlower(a: SyncedPoint, b: SyncedPoint) {
    && SpeedKph in a.reference
    && (SpeedKph in b.reference ==> a.reference[SpeedKph] < b.reference[SpeedKph])
  }

  /** Point i is no new slowest point of the zone from j on, the brake is at most at 3 % and the
      throttle at least at 90 %; a hidden channel reads as zero. */
  predicate LetsGo(points: seq<SyncedPoint>, j: nat, i: nat)
    requires j <= i < |points|
  {
    && (exists m | j <= m < i :: !KnownSlower(points[i], points[m]))
    && (Brake in points[i].reference ==> points[i].reference[Brake] <= 0.03)
    && Throttle in points[i].reference && points[i].reference[Throttle] >= 0.9
  }

  lemma ReleasedIs(points: seq<SyncedPoint>, j: nat, i: nat)
    requires j <= i < |points|
    ensures Released(points, j, i) <==> LetsGo(points, j, i)
  {
    hide Slowest;
    SlowestMeaning(points, j, i);
    if i > j {
      SlowestMeaning(points, j, i - 1);
      SlowestLast(points, j, i);
    }
  }

  lemma SlowestLast(points: seq<SyncedPoint>, j: nat, i: nat)
    requires j < i < |points|
    ensures Slowest(points, j, i) == i <==> forall m | j <= m < i :: KnownSlower(points[i], points[m])
  {
    SlowestMeaning(points, j, i);
    var before := Slowest(points, j, i - 1);
    forall m | j <= m < i ensures KnownSlower(points[i], points[m]) <==> Slower(points[i], points[m]) {
    }
    if forall m | j <= m < i :: KnownSlower(points[i], points[m]) {
      assert KnownSlower(points[i], points[before]);
    }
  }

  /** The zones are these: zone k is triggered at triggers[k], the first braking point since the
      previous release, and released at releases[k], the first point after it where the driver
      lets go, or the end of the lap. It starts a point early and ends two points late, inside the
      lap. After the last release nobody brakes. */
  predicate ZonesFrom(points: seq<SyncedPoint>, from: nat, zones: seq<Zone>, triggers: seq<nat>, releases: seq<nat>)
    decreases |zones|
  {
    && |triggers| == |releases| == |zones| && from <= |points|
    && if zones == [] then forall l | from <= l < |points| :: !Brakes(points[l])
       else
         var j, i := triggers[0], releases[0];
         && from <= j < i <= |points| && Brakes(points[j]) && (forall l | from <= l < j :: !Brakes(points[l]))
         && (forall l | j <= l < i :: !LetsGo(points, j, l)) && (i < |points| ==> LetsGo(points, j, i))
         && zones[0] == (if j == 0 then 0 else j - 1, if i + 2 < |points| then i + 2 else |points| - 1)
         && if i == |points| then |zones| == 1 else ZonesFrom(points, i + 1, zones[1..], triggers[1..], releases[1..])
  }

  lemma TriggerIs(points: seq<SyncedPoint>, from: nat)
    requires from <= |points|
    ensures var j := FirstBraking(points, from);
            && (forall l | from <= l < j :: !Brakes(points[l])) && (j < |points| ==> Brakes(points[j]))
  {
    FirstBrakingMeaning(points, from);
    assert forall l | from <= l < |points| :: Braking(points[l]) <==> Brakes(points[l]);
  }

  lemma ReleaseIs(points: seq<SyncedPoint>, j: nat)
    requires j < |points|
    ensures var i := FirstReleased(points, j, j);
            && (forall l | j <= l < i :: !LetsGo(points, j, l)) && (i < |points| ==> LetsGo(points, j, i))
  {
    hide LetsGo, Released;
    FirstReleasedMeaning(points, j, j);
    forall l | j <= l < |points| ensures Released(points, j, l) <==> LetsGo(points, j, l) {
      ReleasedIs(points, j, l);
    }
  }

  lemma {:induction false} ZonesAre(points: seq<SyncedPoint>, from: nat)
    returns (triggers: seq<nat>, releases: seq<nat>)
    requires from <= |points|
    ensures ZonesFrom(points, from, Zones(points, from), triggers, releases)
    decreases |points| - from
  {
    hide Brakes, LetsGo, FirstBraking, FirstReleased;
    triggers, releases := [], [];
    var j := FirstBraking(points, from);
    TriggerIs(points, from);
    if j < |points| {
      var i := FirstReleased(points, j, j);
      ReleaseIs(points, j);
      if i < |points| {
        triggers, releases := ZonesAre(points, i + 1);
        assert Zones(points, from)[1..] == Zones(points, i + 1);
        assert ([j] + triggers)[1..] == triggers && ([i] + releases)[1..] == releases;
      }
      triggers, releases := [j] + triggers, [i] + releases;
    }
  }

  /** No other list of zones fits this description. */
  lemma {:induction false} ZonesUnique(points: seq<SyncedPoint>, from: nat, a: seq<Zone>, b: seq<Zone>,
                                       ja: seq<nat>, ia: seq<nat>, jb: seq<nat>, ib: seq<nat>)
    requires ZonesFrom(points, from, a, ja, ia) && ZonesFrom(points, from, b, jb, ib)
    ensures a == b && ja == jb && ia == ib
    decreases |a|
  {
    hide Brakes, LetsGo;
    if a != [] && b != [] {
      assert ja[0] == jb[0];
      assert ia[0] == ib[0];
      assert a == [a[0]] + a[1..] && b == [b[0]] + b[1..];
      assert ja == [ja[0]] + ja[1..] && jb == [jb[0]] + jb[1..];
      assert ia == [ia[0]] + ia[1..] && ib == [ib[0]] + ib[1..];
      if ia[0] < |points| {
        ZonesUnique(points, ia[0] + 1, a[1..], b[1..], ja[1..], ia[1..], jb[1..], ib[1..]);
      }
    }
  }

  /** Without zones the lap is cut into chunks of a tenth of its points, but at least two steps
      each; only the last may be shorter. */
  lemma {:induction false} ChunkLengths(n: nat, chunk: nat, start: nat)
    requires chunk > 0
    ensures forall k | 0 <= k < |Chunks(n, chunk, start)| - 1 ::
              Chunks(n, chunk, start)[k].1 == Chunks(n, chunk, start)[k].0 + chunk
    ensures Chunks(n, chunk, start) != [] ==>
              var last := Chunks(n, chunk, start)[|Chunks(n, chunk, start)| - 1]; last.1 <= last.0 + chunk
    decreases n - start
  {
    if start < n - 1 {
      ChunkLengths(n, chunk, start + chunk);
    }
  }

  /** So it is exactly when the reference brakes nowhere. */
  lemma FallbackChunks(points: seq<SyncedPoint>)
    requires forall p | p in points :: !Brakes(p)
    ensures var size := if |points| < 30 then 2 else |points| / 10;
            && Segments(points) == Chunks(|points|, size, 0)
            && forall k | 0 <= k < |Segments(points)| - 1 :: Segments(points)[k].1 == Segments(points)[k].0 + size
  {
    assert forall k | 0 <= k < |points| :: points[k] in points;
    ZonesFound(points);
    ChunkLengths(|points|, ChunkSize(|points|), 0);
  }
}
