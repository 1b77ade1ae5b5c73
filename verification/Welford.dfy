/** Batch mean and squared deviation, and the one-step update that keeps up with them. */
module Welford {
  import opened Reals

  function Sum(xs: seq<int>): int {
    if xs == [] then 0 else Sum(xs[..|xs| - 1]) + xs[|xs| - 1]
  }

  function Mean(xs: seq<int>): real {
    if xs == [] then 0.0 else Sum(xs) as real / |xs| as real
  }

  function Deviation(xs: seq<int>, m: real): real {
    if xs == [] then 0.0 else Deviation(xs[..|xs| - 1], m) + (xs[|xs| - 1] as real - m)
  }

  function Square(x: real): real {
    x * x
  }

  /** The sum of squared deviations from m. */
  function SquaredDeviation(xs: seq<int>, m: real): real {
    if xs == [] then 0.0 else SquaredDeviation(xs[..|xs| - 1], m) + Square(xs[|xs| - 1] as real - m)
  }

  /** The population variance of a batch. */
  function Variance(xs: seq<int>): real {
    if xs == [] then 0.0 else SquaredDeviation(xs, Mean(xs)) / |xs| as real
  }

  lemma {:induction false} DeviationIsShift(xs: seq<int>, m: real)
    ensures Deviation(xs, m) == Sum(xs) as real - |xs| as real * m
  {
    if xs != [] {
      var n := |xs| - 1;
      DeviationIsShift(xs[..n], m);
      assert |xs| as real == n as real + 1.0;
      assert (n as real + 1.0) * m == n as real * m + m;
    }
  }

  lemma MeanBalances(xs: seq<int>)
    ensures Deviation(xs, Mean(xs)) == 0.0
  {
    DeviationIsShift(xs, Mean(xs));
  }

  lemma SquareShift(a: real, e: real)
    ensures Square(a + e) == Square(a) + 2.0 * (e * a) + Square(e)
  {
  }

  lemma ShiftStep(squares: real, deviation: real, n: real, a: real, e: real)
    ensures squares + 2.0 * (e * deviation) + n * Square(e) + Square(a + e)
            == squares + Square(a) + 2.0 * (e * (deviation + a)) + (n + 1.0) * Square(e)
  {
    SquareShift(a, e);
    assert e * (deviation + a) == e * deviation + e * a;
    assert (n + 1.0) * Square(e) == n * Square(e) + Square(e);
  }

  lemma {:induction false} SquaredDeviationShift(xs: seq<int>, m: real, e: real)
    ensures SquaredDeviation(xs, m - e) ==
            SquaredDeviation(xs, m) + 2.0 * (e * Deviation(xs, m)) + |xs| as real * Square(e)
  {
    hide Square;
    if xs != [] {
      var n := |xs| - 1;
      var a, b := xs[n] as real - m, Deviation(xs[..n], m);
      SquaredDeviationShift(xs[..n], m, e);
      assert xs[n] as real - (m - e) == a + e;
      assert |xs| as real == n as real + 1.0;
      ShiftStep(SquaredDeviation(xs[..n], m), b, n as real, a, e);
    }
  }

  lemma {:induction false} SquaredDeviationNonNegative(xs: seq<int>, m: real)
    ensures SquaredDeviation(xs, m) >= 0.0
  {
    if xs != [] {
      SquaredDeviationNonNegative(xs[..|xs| - 1], m);
      assert Square(xs[|xs| - 1] as real - m) >= 0.0;
    }
  }

  lemma {:induction false} SumAppend(xs: seq<int>, x: int)
    ensures Sum(xs + [x]) == Sum(xs) + x
  {
    assert (xs + [x])[..|xs|] == xs;
  }

  /** One step of the running mean reaches the mean of the longer batch. */
  lemma MeanStep(xs: seq<int>, x: int)
    ensures var n := |xs| as real + 1.0;
            Mean(xs + [x]) == Mean(xs) + (x as real - Mean(xs)) / n
  {
    var n, m := |xs| as real + 1.0, Mean(xs);
    SumAppend(xs, x);
    MeanBalances(xs);
    DeviationIsShift(xs, m);
    var step := (x as real - m) / n;
    assert step * n == x as real - m;
    assert (m + step) * n == m * n + step * n;
    assert m * n == m * |xs| as real + m;
    assert (m + step) * n == Sum(xs + [x]) as real;
    Divided(m + step, n, Sum(xs + [x]) as real);
  }

  lemma Divided(q: real, n: real, s: real)
    requires n > 0.0 && q * n == s
    ensures s / n == q
  {
  }

  /** With n samples before and e the step of the mean, the new sample is d from the old mean
      and d - e from the new one. */
  lemma SquaresMeet(n: real, e: real, d: real)
    requires d == n * e + e
    ensures n * Square(e) + Square(d - e) == d * (d - e)
  {
    var p := n * e;
    assert n * Square(e) == p * e;
    assert Square(p) == p * p;
    assert d * p == (p + e) * p;
  }

  lemma SquaredDeviationAppend(xs: seq<int>, x: int, m: real)
    ensures SquaredDeviation(xs + [x], m) == SquaredDeviation(xs, m) + Square(x as real - m)
  {
    assert (xs + [x])[..|xs|] == xs;
  }

  /** The squared deviation from a point e away from the mean. */
  lemma SquaredDeviationAround(xs: seq<int>, e: real)
    ensures SquaredDeviation(xs, Mean(xs) + e) == SquaredDeviation(xs, Mean(xs)) + |xs| as real * Square(e)
  {
    hide Mean, SquaredDeviation, Deviation;
    SquaredDeviationShift(xs, Mean(xs), -e);
    MeanBalances(xs);
    assert Square(-e) == Square(e);
  }

  /** One Welford step: the product of the distances from the old and the new mean is what
      the squared deviation grows by. */
  lemma SquaredDeviationStep(xs: seq<int>, x: int)
    ensures var before, after := Mean(xs), Mean(xs + [x]);
            SquaredDeviation(xs + [x], after) ==
            SquaredDeviation(xs, before) + (x as real - before) * (x as real - after)
  {
    hide Square, Mean, SquaredDeviation;
    var n, before, after := |xs| as real, Mean(xs), Mean(xs + [x]);
    var d := x as real - before;
    var e := d / (n + 1.0);
    MeanStep(xs, x);
    SquaredDeviationAppend(xs, x, after);
    SquaredDeviationAround(xs, e);
    assert d == n * e + e by {
      assert e * (n + 1.0) == d;
      assert e * (n + 1.0) == n * e + e;
    }
    SquaresMeet(n, e, d);
    assert x as real - after == d - e;
  }

  // ---------- The running form ----------

  datatype Moments = Moments(count: int, mean: real, m2: real)

  function MomentsOf(xs: seq<int>): Moments {
    Moments(|xs|, Mean(xs), SquaredDeviation(xs, Mean(xs)))
  }

  function Observe(m: Moments, x: int): Moments
    requires m.count >= 0
  {
    var mean := m.mean + (x as real - m.mean) / (m.count + 1) as real;
    Moments(m.count + 1, mean, m.m2 + (x as real - m.mean) * (x as real - mean))
  }

  /** The running form keeps up with the batch form. */
  lemma ObserveStep(xs: seq<int>, x: int)
    ensures Observe(MomentsOf(xs), x) == MomentsOf(xs + [x])
  {
    MeanStep(xs, x);
    SquaredDeviationStep(xs, x);
    hide Mean, SquaredDeviation;
    assert (|xs| + 1) as real == |xs| as real + 1.0;
  }

  lemma VarianceOf(xs: seq<int>)
    ensures Variance(xs) == if |xs| < 2 then 0.0 else MomentsOf(xs).m2 / |xs| as real
    ensures Variance(xs) >= 0.0
  {
    SquaredDeviationNonNegative(xs, Mean(xs));
    if |xs| == 1 {
      assert xs[..0] == [];
      assert Sum(xs) == xs[0];
      assert Mean(xs) == xs[0] as real;
      assert Square(0.0) == 0.0;
    } else if |xs| > 1 {
      QuotientOrder(0.0, SquaredDeviation(xs, Mean(xs)), |xs| as real);
    }
  }
}
