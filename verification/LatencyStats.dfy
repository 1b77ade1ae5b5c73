/** The latency tracker: every running figure equals its batch definition over all samples
    accepted so far. */
module LatencyStats {
  import opened Welford
  import opened RunningStats

  datatype Latency = Latency(
    moments: Moments, min: int, max: int, samples: seq<int>,
    prevLatency: int, jitterSum: int, jitterCount: int, jitterMax: int, ewma: real)

  /** All figures, from the accepted samples alone. */
  function LatencyOf(xs: seq<int>): Latency {
    Latency(MomentsOf(xs), Least(xs), Greatest(xs), Window(xs),
            if xs == [] then -1 else xs[|xs| - 1], Sum(Jitters(xs)), |Jitters(xs)|, Greatest(Jitters(xs)),
            if xs == [] then -1.0 else Ewma(xs))
  }

  lemma {:induction false} JittersAppend(xs: seq<int>, x: int)
    ensures Jitters(xs + [x]) == if xs == [] then [] else Jitters(xs) + [AbsInt(x - xs[|xs| - 1])]
  {
    assert (xs + [x])[..|xs|] == xs;
  }

  lemma {:induction false} WindowAppend(xs: seq<int>, x: int)
    ensures Window(xs + [x]) ==
            if |Window(xs)| < WINDOW_SIZE then Window(xs) + [x] else Window(xs)[1..] + [x]
  {
  }

  class LatencyStat {
    var count: int
    var min: int
    var max: int
    var badCount: int
    var mean: real
    var m2: real
    var samples: seq<int>
    var prevLatency: int
    var jitterSum: int
    var jitterCount: int
    var jitterMax: int
    var ewma: real
    ghost var latencies: seq<int> // every latency observed, bad ones included

    function Figures(): Latency
      reads this
    {
      Latency(Moments(count, mean, m2), min, max, samples, prevLatency, jitterSum, jitterCount, jitterMax, ewma)
    }

    ghost predicate Valid()
      reads this
    {
      Figures() == LatencyOf(Accepted(latencies)) && badCount == |latencies| - |Accepted(latencies)|
    }

    constructor ()
      ensures Valid() && latencies == []
    {
      count, min, max, badCount := 0, SENTINEL, 0, 0;
      mean, m2, samples := 0.0, 0.0, [];
      prevLatency, jitterSum, jitterCount, jitterMax := -1, 0, 0, 0;
      ewma, latencies := -1.0, [];
    }

    method ObservePacket(sent: int, received: int)
      requires Valid()
      modifies this
      ensures Valid() && latencies == old(latencies) + [received - sent]
    {
      var latency := received - sent;
      ghost var xs := Accepted(latencies);
      assert (latencies + [latency])[..|latencies|] == latencies;
      latencies := latencies + [latency];
      if latency < 0 {
        badCount := badCount + 1;
        return;
      }
      AcceptedNonNegative(latencies[..|latencies| - 1]);
      LatencyStep(xs, latency);
      Update(latency);
    }

    /** The updates made for an accepted sample, in order. */
    method Update(latency: int)
      requires count >= 0
      modifies this
      ensures Figures() == AfterLatency(old(Figures()), latency)
      ensures badCount == old(badCount) && latencies == old(latencies)
    {
      hide Observe, Smoothed, AfterJitter, MinInt, MaxInt;
      min, max := MinInt(min, latency), MaxInt(max, latency);
      UpdateMoments(latency);
      samples := if |samples| < WINDOW_SIZE then samples + [latency] else samples[1..] + [latency];
      UpdateJitter(latency);
      UpdateEwma(latency);
    }

    method UpdateEwma(latency: int)
      modifies `ewma
      ensures ewma == Smoothed(old(ewma), latency)
    {
      if ewma < 0.0 {
        ewma := latency as real;
      } else {
        ewma := ALPHA * latency as real + (1.0 - ALPHA) * ewma;
      }
    }

    method UpdateJitter(latency: int)
      modifies `jitterSum, `jitterCount, `jitterMax, `prevLatency
      ensures Jitter(jitterSum, jitterCount, jitterMax)
              == AfterJitter(old(Jitter(jitterSum, jitterCount, jitterMax)), old(prevLatency), latency)
      ensures prevLatency == latency
    {
      if prevLatency >= 0 {
        var jitter := AbsInt(latency - prevLatency);
        jitterSum := jitterSum + jitter;
        jitterCount := jitterCount + 1;
        jitterMax := MaxInt(jitterMax, jitter);
      }
      prevLatency := latency;
    }

    method UpdateMoments(latency: int)
      requires count >= 0
      modifies `count, `mean, `m2
      ensures Moments(count, mean, m2) == Observe(old(Moments(count, mean, m2)), latency)
    {
      count := count + 1;
      var delta := latency as real - mean;
      mean := mean + delta / count as real;
      var delta2 := latency as real - mean;
      m2 := m2 + delta * delta2;
    }

    method VarianceNow() returns (v: real)
      requires Valid()
      ensures v == Variance(Accepted(latencies)) && v >= 0.0
    {
      ghost var xs := Accepted(latencies);
      VarianceOf(xs);
      if count < 2 {
        return 0.0;
      }
      return m2 / count as real;
    }

    method PercentilesNow() returns (p: Percentiles)
      requires Valid()
      ensures p == PercentilesOf(Window(Accepted(latencies)))
    {
      p := PercentilesOf(samples);
    }
  }

  /** The state after the updates of one accepted sample. */
  function AfterLatency(s: Latency, x: int): Latency
    requires s.moments.count >= 0
  {
    var jitter := AfterJitter(Jitter(s.jitterSum, s.jitterCount, s.jitterMax), s.prevLatency, x);
    Latency(Observe(s.moments, x), MinInt(s.min, x), MaxInt(s.max, x),
            if |s.samples| < WINDOW_SIZE then s.samples + [x] else s.samples[1..] + [x],
            x, jitter.sum, jitter.count, jitter.max, Smoothed(s.ewma, x))
  }

  datatype Jitter = Jitter(sum: int, count: int, max: int)

  /** A negative previous latency means that there was none. */
  function AfterJitter(j: Jitter, previous: int, x: int): Jitter {
    if previous < 0 then j
    else
      var jitter := AbsInt(x - previous);
      Jitter(j.sum + jitter, j.count + 1, MaxInt(j.max, jitter))
  }

  /** A negative average has seen no sample yet. */
  function Smoothed(ewma: real, x: int): real {
    if ewma < 0.0 then x as real else ALPHA * x as real + (1.0 - ALPHA) * ewma
  }

  /** The one-step updates keep every figure equal to its batch definition. */
  lemma {:induction false} LatencyStep(xs: seq<int>, x: int)
    requires x >= 0 && forall y | y in xs :: y >= 0
    ensures AfterLatency(LatencyOf(xs), x) == LatencyOf(xs + [x])
  {
    hide Mean, SquaredDeviation;
    assert (xs + [x])[..|xs|] == xs;
    ObserveStep(xs, x);
    WindowAppend(xs, x);
    JittersAppend(xs, x);
    if xs != [] {
      assert xs[|xs| - 1] in xs;
      EwmaNonNegative(xs);
      var j := AbsInt(x - xs[|xs| - 1]);
      SumAppend(Jitters(xs), j);
      assert (Jitters(xs) + [j])[..|Jitters(xs)|] == Jitters(xs);
    }
  }

  lemma {:induction false} EwmaNonNegative(xs: seq<int>)
    requires xs != [] && forall x | x in xs :: x >= 0
    ensures Ewma(xs) >= 0.0
  {
    var n := |xs| - 1;
    assert xs[n] in xs;
    if n > 0 {
      assert forall x | x in xs[..n] :: x in xs;
      EwmaNonNegative(xs[..n]);
    }
  }
}
