/** The best recorded lap of each selected driver, found in one pass over the rows of all
    drivers. */
module BestLap {
  import opened Python
  import opened LapModels

  // ---------- Specification ----------

  function RowsOf(rows: seq<Sample>, driver: int): seq<Sample> {
    if rows == [] then []
    else
      var last := rows[|rows| - 1];
      var before := RowsOf(rows[..|rows| - 1], driver);
      if last.driverIndex == driver then before + [last] else before
  }

  /** The rows of one driver cut where the lap number changes. */
  function Runs(rows: seq<Sample>): seq<seq<Sample>> {
    if rows == [] then []
    else
      var last := rows[|rows| - 1];
      var runs := Runs(rows[..|rows| - 1]);
      if runs != [] && runs[|runs| - 1] != [] && runs[|runs| - 1][0].lapNumber == last.lapNumber
      then runs[..|runs| - 1] + [runs[|runs| - 1] + [last]]
      else runs + [[last]]
  }

  function Coverage(run: seq<Sample>): real
    requires run != []
  {
    run[|run| - 1].distance - run[0].distance
  }

  predicate HasGap(run: seq<Sample>) {
    exists i | 0 <= i < |run| - 1 :: run[i + 1].distance - run[i].distance > 300.0
  }

  /** The trace of a run that is long enough, covers the track and is comparable. */
  function Qualify(run: seq<Sample>, trackLength: Option<real>): Option<LapTrace> {
    if |run| < 10 then None
    else if trackLength.Some? && trackLength.value != 0.0 && Coverage(run) < trackLength.value * 0.8 then None
    else match FromSamples(run, HasGap(run))
      case Err(_) => None
      case Ok(trace) => if Comparable(trace) then Some(trace) else None
  }

  /** The time a trace is ranked by; a missing or zero time ranks as 10**9. */
  function TimeKey(t: LapTrace): int {
    if t.totalTime.None? || t.totalTime.value == 0 then 1_000_000_000 else t.totalTime.value
  }

  function Better(best: Option<LapTrace>, candidate: Option<LapTrace>): Option<LapTrace> {
    if candidate.None? then best
    else if best.None? || TimeKey(candidate.value) < TimeKey(best.value) then candidate
    else best
  }

  function Judge(runs: seq<seq<Sample>>, trackLength: Option<real>): (qs: seq<Option<LapTrace>>)
    ensures |qs| == |runs|
    ensures forall i | 0 <= i < |runs| :: qs[i] == Qualify(runs[i], trackLength)
  {
    seq(|runs|, i requires 0 <= i < |runs| => Qualify(runs[i], trackLength))
  }

  function BestOf(qs: seq<Option<LapTrace>>): Option<LapTrace> {
    if qs == [] then None else Better(BestOf(qs[..|qs| - 1]), qs[|qs| - 1])
  }

  function DriverBest(rows: seq<Sample>, driver: int, trackLength: Option<real>): Option<LapTrace> {
    BestOf(Judge(Runs(RowsOf(rows, driver)), trackLength))
  }

  // ---------- Meaning of the specification ----------

  function Flatten(runs: seq<seq<Sample>>): seq<Sample> {
    if runs == [] then [] else Flatten(runs[..|runs| - 1]) + runs[|runs| - 1]
  }

  predicate OneLap(run: seq<Sample>) {
    run != [] && forall s | s in run :: s.lapNumber == run[0].lapNumber
  }

  predicate SameLap(a: seq<Sample>, b: seq<Sample>) {
    a != [] && b != [] && a[0].lapNumber == b[0].lapNumber
  }

  /** Non-empty stretches of one lap number, neighbours having different ones. */
  predicate MaximalRuns(runs: seq<seq<Sample>>) {
    && (forall i | 0 <= i < |runs| :: OneLap(runs[i]))
    && (forall i, j | 0 <= i < j < |runs| && j <= i + 1 :: !SameLap(runs[i], runs[j]))
  }

  lemma ExtendLastRun(runs: seq<seq<Sample>>, s: Sample)
    requires MaximalRuns(runs) && runs != [] && runs[|runs| - 1][0].lapNumber == s.lapNumber
    ensures var n := |runs| - 1; var all := runs[..n] + [runs[n] + [s]];
            MaximalRuns(all) && Flatten(all) == Flatten(runs) + [s]
  {
    var n := |runs| - 1;
    var all := runs[..n] + [runs[n] + [s]];
    assert SameLap(all[n], runs[n]);
    assert all[..n] == runs[..n];
    assert Flatten(runs[..n]) + (runs[n] + [s]) == Flatten(runs[..n]) + runs[n] + [s];
  }

  lemma AppendRun(runs: seq<seq<Sample>>, run: seq<Sample>)
    requires MaximalRuns(runs) && OneLap(run) && (runs != [] ==> !SameLap(runs[|runs| - 1], run))
    ensures MaximalRuns(runs + [run])
  {
    var n, all := |runs|, runs + [run];
    forall i, j | 0 <= i < j < |all| && j <= i + 1 ensures !SameLap(all[i], all[j]) {
      assert all[i] == runs[i] && (j < n ==> all[j] == runs[j]);
    }
  }

  lemma FlattenAppend(runs: seq<seq<Sample>>, run: seq<Sample>)
    ensures Flatten(runs + [run]) == Flatten(runs) + run
  {
    assert (runs + [run])[..|runs|] == runs;
  }

  /** Runs is the division of the rows into maximal stretches of one lap number. */
  lemma {:induction false} RunsMaximal(rows: seq<Sample>)
    ensures MaximalRuns(Runs(rows)) && Flatten(Runs(rows)) == rows
  {
    if rows != [] {
      var before, last := rows[..|rows| - 1], rows[|rows| - 1];
      var runs: seq<seq<Sample>> := Runs(before);
      RunsMaximal(before);
      assert rows == before + [last];
      if runs != [] && runs[|runs| - 1][0].lapNumber == last.lapNumber {
        ExtendLastRun(runs, last);
      } else {
        AppendRun(runs, [last]);
        FlattenAppend(runs, [last]);
      }
    }
  }

  /** The length of the longest stretch of one lap number at the end of the rows. */
  function Tail(rows: seq<Sample>): nat {
    var n := |rows|;
    if n < 2 || rows[n - 1].lapNumber != rows[n - 2].lapNumber then (if n == 0 then 0 else 1)
    else 1 + Tail(rows[..n - 1])
  }

  lemma {:induction false} TailOfRun(rows: seq<Sample>, run: seq<Sample>)
    requires OneLap(run) && (rows != [] ==> rows[|rows| - 1].lapNumber != run[0].lapNumber)
    ensures Tail(rows + run) == |run|
    decreases |run|
  {
    var n := |run| - 1;
    if n > 0 {
      assert run[n] in run && run[n - 1] in run;
      assert (rows + run)[..|rows + run| - 1] == rows + run[..n];
      assert OneLap(run[..n]);
      TailOfRun(rows, run[..n]);
    }
  }

  lemma LastRunIsTail(runs: seq<seq<Sample>>)
    requires MaximalRuns(runs) && runs != []
    ensures |runs[|runs| - 1]| == Tail(Flatten(runs))
  {
    var n := |runs| - 1;
    var front := runs[..n];
    if n > 0 {
      var previous := runs[n - 1];
      assert front[n - 1] == previous && OneLap(previous) && !SameLap(previous, runs[n]);
      assert previous[|previous| - 1] in previous;
      assert Flatten(front)[|Flatten(front)| - 1] == previous[|previous| - 1];
    }
    TailOfRun(Flatten(front), runs[n]);
  }

  /** There is only one such division. */
  lemma {:induction false} MaximalRunsUnique(a: seq<seq<Sample>>, b: seq<seq<Sample>>)
    requires MaximalRuns(a) && MaximalRuns(b) && Flatten(a) == Flatten(b)
    ensures a == b
  {
    if a != [] && b != [] {
      var x, y := a[|a| - 1], b[|b| - 1];
      var flat := Flatten(a);
      LastRunIsTail(a);
      LastRunIsTail(b);
      assert Flatten(a[..|a| - 1]) == flat[..|flat| - |x|] == Flatten(b[..|b| - 1]);
      assert x == flat[|flat| - |x|..] == y;
      MaximalRunsUnique(a[..|a| - 1], b[..|b| - 1]);
      assert a == a[..|a| - 1] + [x] && b == b[..|b| - 1] + [y];
    }
  }

  /** The k-th candidate qualifies as t, no candidate has a smaller key, and none before it
      has the same. */
  predicate EarliestLeast(qs: seq<Option<LapTrace>>, k: nat, t: LapTrace) {
    && k < |qs| && qs[k] == Some(t)
    && (forall i | 0 <= i < |qs| && qs[i].Some? :: TimeKey(t) <= TimeKey(qs[i].value))
    && (forall i | 0 <= i < k && qs[i].Some? :: TimeKey(t) < TimeKey(qs[i].value))
  }

  /** BestOf picks, among the qualifying runs, the earliest of those with the least key. */
  lemma {:induction false} BestOfEarliestLeast(qs: seq<Option<LapTrace>>) returns (k: nat)
    ensures BestOf(qs).None? <==> forall q | q in qs :: q.None?
    ensures BestOf(qs).Some? ==> EarliestLeast(qs, k, BestOf(qs).value)
  {
    k := 0;
    if qs != [] {
      var n := |qs| - 1;
      k := BestOfEarliestLeast(qs[..n]);
      assert qs == qs[..n] + [qs[n]];
      assert forall i | 0 <= i < n :: qs[i] == qs[..n][i] && qs[i] in qs[..n];
      var earlier, last := BestOf(qs[..n]), qs[n];
      if last.Some? && (earlier.None? || TimeKey(last.value) < TimeKey(earlier.value)) {
        k := n;
      }
    }
  }

  /** A driver's best lap, stated without the scan: cut the driver's rows into maximal runs
      of one lap number in the only possible way, judge each, take the earliest least. */
  lemma DriverBestMeaning(rows: seq<Sample>, driver: int, trackLength: Option<real>, runs: seq<seq<Sample>>)
    returns (k: nat)
    requires MaximalRuns(runs) && Flatten(runs) == RowsOf(rows, driver)
    ensures var best := DriverBest(rows, driver, trackLength);
            && (best.None? <==> forall i | 0 <= i < |runs| :: Qualify(runs[i], trackLength).None?)
            && (best.Some? ==> EarliestLeast(Judge(runs, trackLength), k, best.value))
  {
    RunsMaximal(RowsOf(rows, driver));
    MaximalRunsUnique(runs, Runs(RowsOf(rows, driver)));
    k := BestOfEarliestLeast(Judge(runs, trackLength));
    var qs := Judge(runs, trackLength);
    assert forall i | 0 <= i < |runs| :: qs[i] in qs;
  }

  /** The answer depends only on each selected driver's own rows, in their order. */
  lemma InterleavingIrrelevant(rows: seq<Sample>, rows': seq<Sample>, selected: set<int>, trackLength: Option<real>)
    requires forall d | d in selected :: RowsOf(rows, d) == RowsOf(rows', d)
    ensures forall d | d in selected :: DriverBest(rows, d, trackLength) == DriverBest(rows', d, trackLength)
  {
  }

  lemma {:induction false} RowsOfConcat(a: seq<Sample>, b: seq<Sample>, driver: int)
    ensures RowsOf(a + b, driver) == RowsOf(a, driver) + RowsOf(b, driver)
  {
    if b == [] {
      assert a + b == a;
    } else {
      assert (a + b)[..|a + b| - 1] == a + b[..|b| - 1];
      RowsOfConcat(a, b[..|b| - 1], driver);
    }
  }

  /** Row k and the next one the other way round. */
  function Exchange(rows: seq<Sample>, k: nat): (r: seq<Sample>)
    requires k + 1 < |rows|
    ensures |r| == |rows|
  {
    rows[..k] + [rows[k + 1], rows[k]] + rows[k + 2..]
  }

  /** Exchanging neighbouring rows of different drivers keeps every driver's rows in order. */
  lemma ExchangeKeepsRows(rows: seq<Sample>, k: nat, driver: int)
    requires k + 1 < |rows| && rows[k].driverIndex != rows[k + 1].driverIndex
    ensures RowsOf(Exchange(rows, k), driver) == RowsOf(rows, driver)
  {
    var front, back := rows[..k], rows[k + 2..];
    var pair, swapped := [rows[k], rows[k + 1]], [rows[k + 1], rows[k]];
    assert rows == front + pair + back;
    RowsOfConcat(front + pair, back, driver);
    RowsOfConcat(front, pair, driver);
    RowsOfConcat(front + swapped, back, driver);
    RowsOfConcat(front, swapped, driver);
    PairRows(rows[k], rows[k + 1], driver);
  }

  lemma PairRows(a: Sample, b: Sample, driver: int)
    requires a.driverIndex != b.driverIndex
    ensures RowsOf([a, b], driver) == RowsOf([b, a], driver)
  {
    RowsOfOne(a, driver);
    RowsOfOne(b, driver);
    RowsOfConcat([a], [b], driver);
    RowsOfConcat([b], [a], driver);
    assert [a] + [b] == [a, b] && [b] + [a] == [b, a];
  }

  lemma RowsOfOne(s: Sample, driver: int)
    ensures RowsOf([s], driver) == if s.driverIndex == driver then [s] else []
  {
    assert [s][..0] == [];
  }

  /** Exchanges made one after another, where they are of different drivers. */
  function Interleaved(rows: seq<Sample>, ks: seq<nat>): seq<Sample> {
    if ks == [] then rows
    else
      var before, k := Interleaved(rows, ks[..|ks| - 1]), ks[|ks| - 1];
      if k + 1 < |before| && before[k].driverIndex != before[k + 1].driverIndex then Exchange(before, k) else before
  }

  /** However the drivers' rows are interleaved, by any exchanges of neighbouring rows of
      different drivers, everyone's best lap stays the same. */
  lemma {:induction false} AnyInterleaving(rows: seq<Sample>, ks: seq<nat>, driver: int, trackLength: Option<real>)
    ensures RowsOf(Interleaved(rows, ks), driver) == RowsOf(rows, driver)
    ensures DriverBest(Interleaved(rows, ks), driver, trackLength) == DriverBest(rows, driver, trackLength)
  {
    if ks != [] {
      var before, k := Interleaved(rows, ks[..|ks| - 1]), ks[|ks| - 1];
      AnyInterleaving(rows, ks[..|ks| - 1], driver, trackLength);
      if k + 1 < |before| && before[k].driverIndex != before[k + 1].driverIndex {
        ExchangeKeepsRows(before, k, driver);
      }
    }
  }

  // ---------- The one-pass scan ----------

  /** What a dictionary lookup returns. */
  function Get<V>(m: map<int, V>, k: int): Option<V> {
    if k in m then Some(m[k]) else None
  }

  /** One driver's entries in the two dictionaries while the scan is after its runs `runs`:
      the last run is in progress, the earlier ones have been judged. */
  predicate Midway(active: Option<(int, seq<Sample>)>, best: Option<LapTrace>, runs: seq<seq<Sample>>,
                   trackLength: Option<real>) {
    if runs == [] then active.None? && best.None?
    else
      var run := runs[|runs| - 1];
      run != [] && active == Some((run[0].lapNumber, run)) && best == BestOf(Judge(runs[..|runs| - 1], trackLength))
  }

  lemma JudgeFront(runs: seq<seq<Sample>>, trackLength: Option<real>)
    requires runs != []
    ensures BestOf(Judge(runs, trackLength))
            == Better(BestOf(Judge(runs[..|runs| - 1], trackLength)), Qualify(runs[|runs| - 1], trackLength))
  {
    var n := |runs| - 1;
    assert Judge(runs, trackLength)[..n] == Judge(runs[..n], trackLength);
  }

  lemma RunsStep(rows: seq<Sample>, s: Sample)
    ensures var runs := Runs(rows);
            var n := |runs| - 1;
            Runs(rows + [s]) == if runs != [] && runs[n] != [] && runs[n][0].lapNumber == s.lapNumber
                                then runs[..n] + [runs[n] + [s]] else runs + [[s]]
  {
    assert (rows + [s])[..|rows|] == rows;
  }

  lemma MidwayStep(active: Option<(int, seq<Sample>)>, best: Option<LapTrace>, rows: seq<Sample>, s: Sample,
                   trackLength: Option<real>)
    requires Midway(active, best, Runs(rows), trackLength)
    ensures var changed := active.None? || active.value.0 != s.lapNumber;
            var run := if changed then [] else active.value.1;
            var best' := if active.Some? && changed then Better(best, Qualify(active.value.1, trackLength)) else best;
            Midway(Some((s.lapNumber, run + [s])), best', Runs(rows + [s]), trackLength)
  {
    var runs, all := Runs(rows), Runs(rows + [s]);
    RunsStep(rows, s);
    if |all| == |runs| {
      assert all[..|all| - 1] == runs[..|runs| - 1];
    } else {
      assert [] + [s] == [s];
      assert all[..|all| - 1] == runs;
      if runs != [] {
        JudgeFront(runs, trackLength);
      }
    }
  }

  /** Judges the run in progress of one driver. */
  function Finish(best: map<int, LapTrace>, index: int, run: seq<Sample>,
                  trackLength: Option<real>): (r: map<int, LapTrace>)
    ensures Get(r, index) == Better(Get(best, index), Qualify(run, trackLength))
    ensures forall d | d != index :: Get(r, d) == Get(best, d)
    ensures r.Keys <= best.Keys + {index}
  {
    var trace := Qualify(run, trackLength);
    if trace.Some? && (index !in best || TimeKey(trace.value) < TimeKey(best[index])) then best[index := trace.value]
    else best
  }

  /** Every selected driver is midway through its own rows. */
  predicate Scanned(current: map<int, (int, seq<Sample>)>, best: map<int, LapTrace>, rows: seq<Sample>,
                    selected: set<int>, trackLength: Option<real>) {
    && best.Keys <= selected
    && forall d | d in selected :: Midway(Get(current, d), Get(best, d), Runs(RowsOf(rows, d)), trackLength)
  }

  lemma ScanStep(current: map<int, (int, seq<Sample>)>, best: map<int, LapTrace>, best': map<int, LapTrace>,
                 run: seq<Sample>, rows: seq<Sample>, s: Sample, selected: set<int>, trackLength: Option<real>)
    requires Scanned(current, best, rows, selected, trackLength) && s.driverIndex in selected
    requires var active := Get(current, s.driverIndex);
             var changed := active.None? || active.value.0 != s.lapNumber;
             && run == (if changed then [] else active.value.1)
             && best' == (if active.Some? && changed then Finish(best, s.driverIndex, active.value.1, trackLength)
                          else best)
    ensures Scanned(current[s.driverIndex := (s.lapNumber, run + [s])], best', rows + [s], selected, trackLength)
  {
    var index := s.driverIndex;
    var current' := current[index := (s.lapNumber, run + [s])];
    MidwayStep(Get(current, index), Get(best, index), RowsOf(rows, index), s, trackLength);
    assert (rows + [s])[..|rows|] == rows;
    forall d | d in selected && d != index
      ensures Midway(Get(current', d), Get(best', d), Runs(RowsOf(rows + [s], d)), trackLength)
    {
      assert Get(current', d) == Get(current, d) && RowsOf(rows + [s], d) == RowsOf(rows, d);
    }
  }

  method BestRecordedLaps(rows: seq<Sample>, selected: set<int>, trackLength: Option<real>)
    returns (best: map<int, LapTrace>)
    ensures best.Keys <= selected
    ensures forall d | d in selected :: Get(best, d) == DriverBest(rows, d, trackLength)
  {
    var current: map<int, (int, seq<Sample>)> := map[];
    best := map[];
    for i := 0 to |rows|
      invariant Scanned(current, best, rows[..i], selected, trackLength)
    {
      var s := rows[i];
      var index := s.driverIndex;
      assert rows[..i + 1] == rows[..i] + [s];
      if index in selected {
        ghost var before := best;
        var run: seq<Sample> := [];
        if index in current && current[index].0 != s.lapNumber {
          best := Finish(best, index, current[index].1, trackLength);
        } else if index in current {
          run := current[index].1;
        }
        ScanStep(current, before, best, run, rows[..i], s, selected, trackLength);
        current := current[index := (s.lapNumber, run + [s])];
      } else {
        assert rows[..i + 1][..i] == rows[..i];
      }
    }
    assert rows[..|rows|] == rows;
    best := FinishAll(current, best, rows, selected, trackLength);
  }

  /** The last run of every selected driver is judged when the rows end. */
  method FinishAll(current: map<int, (int, seq<Sample>)>, before: map<int, LapTrace>, ghost rows: seq<Sample>,
                   selected: set<int>, trackLength: Option<real>) returns (best: map<int, LapTrace>)
    requires Scanned(current, before, rows, selected, trackLength)
    ensures best.Keys <= selected
    ensures forall d | d in selected :: Get(best, d) == DriverBest(rows, d, trackLength)
  {
    best := before;
    var left: set<int> := selected;
    while left != {}
      invariant left <= selected && best.Keys <= selected
      invariant forall d | d in left :: Get(best, d) == Get(before, d)
      invariant forall d | d in selected - left :: Get(best, d) == DriverBest(rows, d, trackLength)
    {
      ghost var some := SomeMember(left);
      var index :| index in left;
      FinishDriver(current, before, rows, index, selected, trackLength);
      if index in current {
        best := Finish(best, index, current[index].1, trackLength);
      }
      left := left - {index};
    }
  }

  lemma FinishDriver(current: map<int, (int, seq<Sample>)>, best: map<int, LapTrace>, rows: seq<Sample>, index: int,
                     selected: set<int>, trackLength: Option<real>)
    requires Scanned(current, best, rows, selected, trackLength) && index in selected
    ensures DriverBest(rows, index, trackLength)
            == if index in current then Better(Get(best, index), Qualify(current[index].1, trackLength))
              else Get(best, index)
  {
    var runs := Runs(RowsOf(rows, index));
    if runs != [] {
      JudgeFront(runs, trackLength);
    }
  }
}
