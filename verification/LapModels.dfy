/** Telemetry samples and lap traces. */
module LapModels {
  import opened Python
  import opened Sorting

  datatype Channel =
    | SpeedKph | Throttle | Brake | Steering | Gear | Rpm | GLateral | GLongitudinal
    | WorldX | WorldZ | ErsStorePct | ErsDeployedPct | ErsHarvestedPct | RearSlip

  /** A channel the game hides is absent from `channels`; `rearSlip` holds the slip ratios of
      the two rear wheels. */
  datatype Sample = Sample(
    driverIndex: int, lapNumber: int, distance: real, time: real,
    lapValid: bool, pit: bool, safetyCar: bool,
    channels: map<Channel, real>, rearSlip: Option<(real, real)>)

  datatype LapTrace = LapTrace(
    driverIndex: int, lapNumber: int, samples: seq<Sample>, totalTime: Option<int>,
    valid: bool, pitLap: bool, formationLap: bool, safetyCar: bool,
    incident: bool, flashback: bool, discontinuity: bool)

  predicate Comparable(t: LapTrace) {
    && t.valid && !t.pitLap && !t.formationLap && !t.safetyCar
    && !t.incident && !t.flashback && !t.discontinuity
    && |t.samples| >= 3
  }

  /** Samples are ordered by distance, then by time. */
  predicate SampleLe(a: Sample, b: Sample) {
    a.distance < b.distance || (a.distance == b.distance && a.time <= b.time)
  }

  function SortSamples(samples: seq<Sample>): seq<Sample> {
    Sort(SampleLe, samples)
  }

  lemma SortSamplesSorted(samples: seq<Sample>)
    ensures SortedBy(SampleLe, SortSamples(samples))
    ensures multiset(SortSamples(samples)) == multiset(samples)
    ensures forall s :: s in SortSamples(samples) <==> s in samples
  {
    assert TotalPreorder(SampleLe);
    SortSorts(SampleLe, samples);
    SortContents(SampleLe, samples);
    SortMembers(SampleLe, samples);
  }

  function FromSamples(samples: seq<Sample>, discontinuity: bool): Result<LapTrace> {
    if samples == [] then Err(ValueError)
    else
      var ordered := SortSamples(samples);
      Ok(LapTrace(
        ordered[0].driverIndex, ordered[0].lapNumber, ordered, Some(Round(ordered[|ordered| - 1].time)),
        (forall s | s in ordered :: s.lapValid), (exists s | s in ordered :: s.pit), false,
        (exists s | s in ordered :: s.safetyCar), false, false, discontinuity))
  }
}
