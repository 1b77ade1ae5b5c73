/** Collecting track geometry during a session and generating the track's map from it. */
module TrackMap {
  import opened Python
  import opened TrackBins
  import opened TrackDrawing
  import opened TrackModels

  datatype LapData = LapData(driverStatus: int, pitLaneTimer: bool, lapDistance: real, currentLap: int)

  /** The sample a car contributes: on track, out of the pits, past the start, on a counted lap,
      and with a real position. */
  function Contribution(minLap: int, at: Flat, lap: LapData): Option<Point> {
    if lap.driverStatus == 0 || lap.pitLaneTimer || lap.lapDistance <= 0.0 || lap.currentLap < minLap then None
    else if Abs(at.x) < 0.000001 && Abs(at.z) < 0.000001 then None
    else Some(Point(lap.lapDistance, at.x, at.z))
  }

  /** A car contributes its lap distance and position exactly when it is on track and out of the pits,
      past the line, on a lap that counts, and not at the origin where absent cars are. */
  lemma Contributes(minLap: int, at: Flat, lap: LapData)
    ensures Contribution(minLap, at, lap).Some? <==>
            && lap.driverStatus != 0 && !lap.pitLaneTimer && lap.lapDistance > 0.0 && lap.currentLap >= minLap
            && !(-0.000001 < at.x < 0.000001 && -0.000001 < at.z < 0.000001)
    ensures Contribution(minLap, at, lap).Some? ==>
              var p := Contribution(minLap, at, lap).value;
              p.distance == lap.lapDistance && p.x == at.x && p.z == at.z
  {
  }

  /** The samples of the first n cars, as far as both packets list them. */
  function Contributions(minLap: int, motion: seq<Flat>, laps: seq<LapData>, n: nat): seq<Point>
    requires n <= |laps|
  {
    if n == 0 then []
    else
      var before := Contributions(minLap, motion, laps, n - 1);
      if n > |motion| then before
      else
        var c := Contribution(minLap, motion[n - 1], laps[n - 1]);
        if c.Some? then before + [c.value] else before
  }

  lemma {:induction false} ContributionsStop(minLap: int, motion: seq<Flat>, laps: seq<LapData>, n: nat, m: nat)
    requires |motion| <= n <= m <= |laps|
    ensures Contributions(minLap, motion, laps, m) == Contributions(minLap, motion, laps, n)
    decreases m
  {
    if n < m {
      ContributionsStop(minLap, motion, laps, n, m - 1);
    }
  }

  class TrackMapCollector {
    const minLap: int
    var points: seq<Point>
    var trackName: Option<string>
    var trackLength: real
    var gameYear: int
    var generated: bool
    var lastMotion: seq<Flat>

    predicate Valid()
      reads this
    {
      forall p | p in points :: p.distance > 0.0
    }

    constructor (minLap: int)
      ensures Valid() && this.minLap == minLap && points == [] && trackName == None && !generated && lastMotion == []
    {
      this.minLap := minLap;
      points, trackName, trackLength, gameYear, generated, lastMotion := [], None, 0.0, 0, false, [];
    }

    /** A different track or game year starts the collection anew; the same one changes nothing. */
    method SetTrack(name: string, length: real, year: int)
      requires Valid()
      modifies this
      ensures Valid()
      ensures old(trackName) == Some(name) && old(gameYear) == year ==> unchanged(this)
      ensures old(trackName) != Some(name) || old(gameYear) != year ==>
                && points == [] && trackName == Some(name) && trackLength == length && gameYear == year
                && !generated && lastMotion == []
    {
      if trackName != Some(name) || gameYear != year {
        points, generated, lastMotion := [], false, [];
        trackName, trackLength, gameYear := Some(name), length, year;
      }
    }

    method OnMotion(positions: seq<Flat>)
      requires Valid()
      modifies `lastMotion
      ensures Valid() && lastMotion == positions
    {
      lastMotion := positions;
    }

    method OnLapData(laps: seq<LapData>)
      requires Valid()
      modifies `points
      ensures Valid()
      ensures points == if generated || lastMotion == [] || trackName.None? || trackName.value == "" then old(points)
                        else old(points) + Contributions(minLap, lastMotion, laps, |laps|)
    {
      if generated || lastMotion == [] || trackName.None? || trackName.value == "" {
        return;
      }
      hide Contribution;
      var car := 0;
      while car < |laps|
        invariant 0 <= car <= |laps| && Valid()
        invariant points == old(points) + Contributions(minLap, lastMotion, laps, car)
      {
        if car >= |lastMotion| {
          ContributionsStop(minLap, lastMotion, laps, car, |laps|);
          break;
        }
        TryAddPoint(car, laps[car]);
        car := car + 1;
      }
    }

    method TryAddPoint(car: nat, lap: LapData)
      requires Valid() && car < |lastMotion|
      modifies `points
      ensures Valid()
      ensures var c := Contribution(minLap, lastMotion[car], lap);
              points == if c.Some? then old(points) + [c.value] else old(points)
    {
      if lap.driverStatus == 0 || lap.pitLaneTimer || lap.lapDistance <= 0.0 || lap.currentLap < minLap {
        return;
      }
      var at := lastMotion[car];
      if Abs(at.x) < 0.000001 && Abs(at.z) < 0.000001 {
        return;
      }
      points := points + [Point(lap.lapDistance, at.x, at.z)];
    }

    /** Generation happens once, and only with every bin of the track filled; it then draws
        one mean per bin. */
    method GenerateIfReady() returns (r: Option<Map>)
      requires Valid()
      modifies `generated
      ensures Valid()
      ensures r.Some? <==> !old(generated) && trackName.Some? && trackName.value != "" && trackLength != 0.0
                           && |Filled(points, trackLength, NUM_BINS)| >= NUM_BINS
      ensures r.Some? ==> generated && trackLength != 0.0 && r.value.raw == Averages(points, trackLength, NUM_BINS)
      ensures r.Some? ==> r.value.drawn == Drawn(r.value.raw)
      ensures r.Some? && trackLength > 0.0 ==> |r.value.drawn| == NUM_BINS
      ensures r.None? ==> generated == old(generated)
    {
      if generated || trackName.None? || trackName.value == "" || trackLength == 0.0 {
        return None;
      }
      FilledShort(points, trackLength, NUM_BINS);
      if trackLength > 0.0 {
        FilledAtMost(points, trackLength, NUM_BINS);
      }
      if |points| < NUM_BINS {
        return None;
      }
      var filled := FilledBins(points, trackLength, NUM_BINS);
      if |filled| < NUM_BINS {
        return None;
      }
      var averaged := BinAndAverage(points, trackLength, NUM_BINS);
      generated := true;
      return Some(Map(averaged, Drawn(averaged)));
    }
  }
}
