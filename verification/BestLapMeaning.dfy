/** What the best recorded lap is in terms of the rows: which stretches qualify, and that none of
    them finished faster. */
module BestLapMeaning {
  import opened Python
  import opened Sorting
  import opened LapModels
  import opened BestLap

  /** The last sample of a stretch by distance, and by time at that distance. */
  predicate Finishes(run: seq<Sample>, s: Sample) {
    && s in run
    && forall x | x in run :: x.distance < s.distance || (x.distance == s.distance && x.time <= s.time)
  }

  /** Ten rows, eighty per cent of a known track, all of them valid, none in the pits or behind the
      safety car, and no jump of more than 300 m from one row to the next. */
  predicate Counts(run: seq<Sample>, trackLength: Option<real>) {
    && |run| >= 10
    && (trackLength.Some? && trackLength.value != 0.0 ==>
          run[|run| - 1].distance - run[0].distance >= 0.8 * trackLength.value)
    && (forall s | s in run :: s.lapValid && !s.pit && !s.safetyCar)
    && (forall i, j | 0 <= i < j < |run| && j <= i + 1 :: run[j].distance - run[i].distance <= 300.0)
  }

  /** A stretch qualifies exactly when it counts; its trace has the stretch's own samples in order of
      distance and takes as its total time the rounded time of the sample it finishes with. */
  lemma QualifyMeaning(run: seq<Sample>, trackLength: Option<real>, s: Sample)
    requires Finishes(run, s)
    ensures Qualify(run, trackLength).Some? <==> Counts(run, trackLength)
    ensures Qualify(run, trackLength).Some? ==>
              var trace := Qualify(run, trackLength).value;
              && multiset(trace.samples) == multiset(run) && trace.totalTime == Some(Round(s.time))
              && (exists x | x in run :: trace.driverIndex == x.driverIndex && trace.lapNumber == x.lapNumber)
              && (forall i, j | 0 <= i < j < |run| :: trace.samples[i].distance <= trace.samples[j].distance)
  {
    var ordered := SortSamples(run);
    SortSamplesSorted(run);
    var n := |run| - 1;
    FinishesLast(run, ordered, s);
    GapMeaning(run);
    assert ordered[0] in run;
    forall i, j | 0 <= i < j < |run| ensures ordered[i].distance <= ordered[j].distance {
      assert SampleLe(ordered[i], ordered[j]);
    }
  }

  lemma GapMeaning(run: seq<Sample>)
    ensures HasGap(run) <==>
            !forall i, j | 0 <= i < j < |run| && j <= i + 1 :: run[j].distance - run[i].distance <= 300.0
  {
    if HasGap(run) {
      var i :| 0 <= i < |run| - 1 && run[i + 1].distance - run[i].distance > 300.0;
      assert run[i + 1].distance - run[i].distance > 300.0;
    }
    if i, j :| 0 <= i < j < |run| && j <= i + 1 && run[j].distance - run[i].distance > 300.0 {
      assert j == i + 1;
    }
  }

  lemma FinishesLast(run: seq<Sample>, ordered: seq<Sample>, s: Sample)
    requires Finishes(run, s) && SortedBy(SampleLe, ordered) && forall x :: x in ordered <==> x in run
    ensures ordered != [] && ordered[|ordered| - 1].time == s.time
  {
    var last := ordered[|ordered| - 1];
    var i :| 0 <= i < |ordered| && ordered[i] == s;
    assert i < |ordered| - 1 ==> SampleLe(s, last);
    assert last in run;
  }

  /** Every stretch that is not empty finishes. */
  lemma {:induction false} Finisher(run: seq<Sample>) returns (s: Sample)
    requires run != []
    ensures Finishes(run, s)
  {
    var n := |run| - 1;
    s := run[n];
    assert run == run[..n] + [run[n]];
    if n > 0 {
      var t := Finisher(run[..n]);
      if !SampleLe(t, s) {
        s := t;
      }
    }
  }

  /** A time of zero ranks as 10**9 milliseconds. */
  function RankedTime(time: int): int {
    if time == 0 then 1_000_000_000 else time
  }

  /** A driver's best lap is a stretch of the driver's rows that counts and that no stretch that
      counts beats by its rounded finishing time, the earliest of those with the same; there is
      none only if no stretch counts. */
  lemma BestIsFastest(rows: seq<Sample>, driver: int, trackLength: Option<real>, runs: seq<seq<Sample>>)
    returns (k: nat, finisher: Option<Sample>)
    requires MaximalRuns(runs) && Flatten(runs) == RowsOf(rows, driver)
    ensures var best := DriverBest(rows, driver, trackLength);
            && (best.None? <==> forall i | 0 <= i < |runs| :: !Counts(runs[i], trackLength))
            && (best.Some? ==>
                  && finisher.Some?
                  && var s := finisher.value;
                  && k < |runs| && Counts(runs[k], trackLength) && Finishes(runs[k], s)
                  && multiset(best.value.samples) == multiset(runs[k]) && best.value.totalTime == Some(Round(s.time))
                  && forall i, t | 0 <= i < |runs| && Counts(runs[i], trackLength) && Finishes(runs[i], t) ::
                       if i < k then RankedTime(Round(s.time)) < RankedTime(Round(t.time))
                       else RankedTime(Round(s.time)) <= RankedTime(Round(t.time)))
  {
    hide Qualify, Counts, Finishes, MaximalRuns, Flatten;
    k := DriverBestMeaning(rows, driver, trackLength, runs);
    var best := DriverBest(rows, driver, trackLength);
    forall i | 0 <= i < |runs| ensures Qualify(runs[i], trackLength).Some? <==> Counts(runs[i], trackLength) {
      var t := FinisherOf(runs, i);
      QualifyMeaning(runs[i], trackLength, t);
    }
    finisher := None;
    if best.Some? {
      var s := FinisherOf(runs, k);
      finisher := Some(s);
      var qs := Judge(runs, trackLength);
      QualifyMeaning(runs[k], trackLength, s);
      forall i, t | 0 <= i < |runs| && Counts(runs[i], trackLength) && Finishes(runs[i], t)
        ensures if i < k then RankedTime(Round(s.time)) < RankedTime(Round(t.time))
                else RankedTime(Round(s.time)) <= RankedTime(Round(t.time))
      {
        QualifyMeaning(runs[i], trackLength, t);
        assert qs[i].Some? && qs[k] == Some(best.value);
      }
    }
  }

  lemma FinisherOf(runs: seq<seq<Sample>>, i: nat) returns (s: Sample)
    requires MaximalRuns(runs) && i < |runs|
    ensures Finishes(runs[i], s)
  {
    assert OneLap(runs[i]);
    s := Finisher(runs[i]);
  }
}
