/** The batch definitions behind the latency and frame-timing trackers: extremes, jitter, moving
    average, streaks and percentiles of all samples. */
module RunningStats {
  import opened Python
  import opened Sorting

  // ---------- Batch definitions ----------

  const SENTINEL := 0x7fff_ffff_ffff_ffff
  const WINDOW_SIZE := 512
  const ALPHA := 0.1

  function MinInt(x: int, y: int): int {
    if y < x then y else x
  }

  function MaxInt(x: int, y: int): int {
    if x < y then y else x
  }

  function AbsInt(x: int): int {
    if x < 0 then -x else x
  }

  /** The least of the samples and the initial value. */
  function Least(xs: seq<int>): int {
    if xs == [] then SENTINEL else MinInt(Least(xs[..|xs| - 1]), xs[|xs| - 1])
  }

  function Greatest(xs: seq<int>): int {
    if xs == [] then 0 else MaxInt(Greatest(xs[..|xs| - 1]), xs[|xs| - 1])
  }

  function Window(xs: seq<int>): (w: seq<int>)
    ensures |w| <= WINDOW_SIZE
  {
    if |xs| <= WINDOW_SIZE then xs else xs[|xs| - WINDOW_SIZE..]
  }

  /** The changes between consecutive samples. */
  function Jitters(xs: seq<int>): seq<int> {
    var n := |xs| - 1;
    if n < 1 then [] else Jitters(xs[..n]) + [AbsInt(xs[n] - xs[n - 1])]
  }

  function Ewma(xs: seq<int>): real
    requires xs != []
  {
    var n := |xs| - 1;
    if n == 0 then xs[0] as real else ALPHA * xs[n] as real + (1.0 - ALPHA) * Ewma(xs[..n])
  }

  function Accepted(latencies: seq<int>): seq<int> {
    if latencies == [] then []
    else
      var n := |latencies| - 1;
      var before := Accepted(latencies[..n]);
      if latencies[n] < 0 then before else before + [latencies[n]]
  }

  lemma {:induction false} LeastMeaning(xs: seq<int>)
    ensures Least(xs) <= SENTINEL && forall x | x in xs :: Least(xs) <= x
    ensures Least(xs) == SENTINEL || Least(xs) in xs
  {
    if xs != [] {
      LeastMeaning(xs[..|xs| - 1]);
      assert xs == xs[..|xs| - 1] + [xs[|xs| - 1]];
    }
  }

  lemma {:induction false} GreatestMeaning(xs: seq<int>)
    ensures 0 <= Greatest(xs) && forall x | x in xs :: x <= Greatest(xs)
    ensures Greatest(xs) == 0 || Greatest(xs) in xs
  {
    if xs != [] {
      GreatestMeaning(xs[..|xs| - 1]);
      assert xs == xs[..|xs| - 1] + [xs[|xs| - 1]];
    }
  }

  lemma {:induction false} AcceptedNonNegative(latencies: seq<int>)
    ensures forall x | x in Accepted(latencies) :: x >= 0
  {
    if latencies != [] {
      AcceptedNonNegative(latencies[..|latencies| - 1]);
    }
  }

  /** The moving average never leaves the range of the samples. */
  lemma {:induction false} EwmaWithin(xs: seq<int>, low: int, high: int)
    requires xs != [] && forall x | x in xs :: low <= x <= high
    ensures low as real <= Ewma(xs) <= high as real
  {
    var n := |xs| - 1;
    assert xs[n] in xs;
    if n > 0 {
      assert forall x | x in xs[..n] :: x in xs;
      EwmaWithin(xs[..n], low, high);
    }
  }

  /** The window holds the last 512 samples, or all of fewer. */
  lemma WindowMeaning(xs: seq<int>, i: nat)
    ensures |Window(xs)| == if |xs| < 512 then |xs| else 512
    ensures i < |Window(xs)| ==> Window(xs)[i] == xs[|xs| - |Window(xs)| + i]
  {
  }

  /** Each jitter is the distance of a sample from the one before. */
  lemma {:induction false} JitterMeaning(xs: seq<int>, i: nat)
    ensures |Jitters(xs)| == if xs == [] then 0 else |xs| - 1
    ensures i + 1 < |xs| ==>
              Jitters(xs)[i] == if xs[i] <= xs[i + 1] then xs[i + 1] - xs[i] else xs[i] - xs[i + 1]
  {
    if |xs| > 1 {
      JitterMeaning(xs[..|xs| - 1], i);
    }
  }

  lemma {:induction false} AcceptedConcat(a: seq<int>, b: seq<int>)
    ensures Accepted(a + b) == Accepted(a) + Accepted(b)
  {
    if b == [] {
      assert a + b == a;
    } else {
      assert (a + b)[..|a + b| - 1] == a + b[..|b| - 1];
      AcceptedConcat(a, b[..|b| - 1]);
    }
  }

  /** Exactly the latencies that are not negative are accepted, in their order. */
  lemma AcceptedMeaning(a: seq<int>, x: int, b: seq<int>)
    ensures Accepted(a + [x] + b) == Accepted(a) + (if x >= 0 then [x] else []) + Accepted(b)
  {
    AcceptedConcat(a + [x], b);
    assert (a + [x])[..|a|] == a;
  }

  /** y cut by a tenth, k times. */
  function Decayed(y: real, k: nat): real {
    if k == 0 then y else 0.9 * Decayed(y, k - 1)
  }

  function Copies(x: int, k: nat): (xs: seq<int>)
    ensures |xs| == k && forall i | 0 <= i < k :: xs[i] == x
  {
    seq(k, i => x)
  }

  /** The average starts at the first sample and keeps nine tenths of its distance to each new one. */
  lemma EwmaStep(xs: seq<int>, x: int)
    requires xs != []
    ensures Ewma([x]) == x as real
    ensures Ewma(xs + [x]) - x as real == 0.9 * (Ewma(xs) - x as real)
  {
    assert (xs + [x])[..|xs|] == xs;
  }

  /** While the samples stay the same, the average approaches them by a tenth of the distance each
      time. */
  lemma {:induction false} EwmaApproaches(xs: seq<int>, x: int, k: nat)
    requires xs != []
    ensures Ewma(xs + Copies(x, k)) - x as real == Decayed(Ewma(xs) - x as real, k)
  {
    if k == 0 {
      assert xs + Copies(x, 0) == xs;
    } else {
      hide Ewma;
      var all := xs + Copies(x, k);
      var before := xs + Copies(x, k - 1);
      EwmaApproaches(xs, x, k - 1);
      EwmaStep(before, x);
      assert all == before + [x];
    }
  }

  // ---------- Percentiles ----------

  predicate IntLe(x: int, y: int) {
    x <= y
  }

  datatype Percentiles = Percentiles(p50: int, p95: int, p99: int)

  function Rank(n: nat, fraction: real): int {
    Truncate((n - 1) as real * fraction)
  }

  lemma RanksInside(n: nat)
    requires n > 0
    ensures 0 <= Rank(n, 0.50) <= Rank(n, 0.95) <= Rank(n, 0.99) < n
  {
    var top := (n - 1) as real;
    assert 0.0 <= top * 0.50 <= top * 0.95 <= top * 0.99 <= top;
    TruncateMonotone(top * 0.50, top * 0.95);
    TruncateMonotone(top * 0.95, top * 0.99);
  }

  function PercentilesOf(samples: seq<int>): (p: Percentiles)
    ensures samples == [] ==> p == Percentiles(0, 0, 0)
    ensures p.p50 <= p.p95 <= p.p99
    ensures samples != [] ==> p.p50 in samples && p.p95 in samples && p.p99 in samples
  {
    if samples == [] then Percentiles(0, 0, 0)
    else
      var sorted := Sort(IntLe, samples);
      SortSorts(IntLe, samples);
      SortMembers(IntLe, samples);
      RanksInside(|samples|);
      Percentiles(sorted[Rank(|samples|, 0.50)], sorted[Rank(|samples|, 0.95)], sorted[Rank(|samples|, 0.99)])
  }

  function CountBelow(xs: seq<int>, v: int): nat {
    if xs == [] then 0 else (if xs[0] < v then 1 else 0) + CountBelow(xs[1..], v)
  }

  lemma {:induction false} InsertCount(x: int, s: seq<int>, v: int)
    ensures CountBelow(Insert(IntLe, x, s), v) == CountBelow(s, v) + if x < v then 1 else 0
  {
    if s != [] && !IntLe(x, s[0]) {
      InsertCount(x, s[1..], v);
    }
  }

  lemma {:induction false} SortCount(s: seq<int>, v: int)
    ensures CountBelow(Sort(IntLe, s), v) == CountBelow(s, v)
  {
    if s != [] {
      SortCount(s[1..], v);
      InsertCount(s[0], Sort(IntLe, s[1..]), v);
    }
  }

  lemma {:induction false} CountSorted(s: seq<int>, v: int, k: nat)
    requires SortedBy(IntLe, s) && k <= |s|
    requires (forall i | 0 <= i < k :: s[i] < v) && (forall i | k <= i < |s| :: s[i] >= v)
    ensures CountBelow(s, v) == k
  {
    if s != [] {
      CountSorted(s[1..], v, if k == 0 then 0 else k - 1);
    }
  }

  /** How many leading elements of a sorted list are below v. */
  lemma {:induction false} SplitPoint(s: seq<int>, v: int) returns (k: nat)
    requires SortedBy(IntLe, s)
    ensures k <= |s| && (forall i | 0 <= i < k :: s[i] < v) && (forall i | k <= i < |s| :: s[i] >= v)
  {
    k := 0;
    while k < |s| && s[k] < v
      invariant 0 <= k <= |s| && forall i | 0 <= i < k :: s[i] < v
    {
      k := k + 1;
    }
    assert k < |s| ==> forall i | k <= i < |s| :: IntLe(s[k], s[i]);
  }

  /** The element of rank r has at most r samples below it, and more than r not above it. */
  lemma RankMeaning(samples: seq<int>, r: nat)
    requires r < |samples|
    ensures var v := Sort(IntLe, samples)[r];
            CountBelow(samples, v) <= r < CountBelow(samples, v + 1)
  {
    hide Sort, CountBelow;
    var sorted := Sort(IntLe, samples);
    var v := sorted[r];
    SortSorts(IntLe, samples);
    var k := SplitPoint(sorted, v);
    var l := SplitPoint(sorted, v + 1);
    CountSorted(sorted, v, k);
    CountSorted(sorted, v + 1, l);
    SortCount(samples, v);
    SortCount(samples, v + 1);
  }

  /** The rank is the integer part of the fraction of the last index: at most so many samples are
      below p, and more than so many are not above it. */
  predicate AtRank(samples: seq<int>, p: int, fraction: real) {
    && CountBelow(samples, p) as real <= (|samples| - 1) as real * fraction
    && (|samples| - 1) as real * fraction < CountBelow(samples, p + 1) as real
  }

  lemma AroundRank(samples: seq<int>, r: nat, x: real)
    requires r < |samples| && 0.0 <= x && r == Truncate(x)
    ensures var v := Sort(IntLe, samples)[r];
            CountBelow(samples, v) as real <= x < CountBelow(samples, v + 1) as real
  {
    hide CountBelow, Sort;
    RankMeaning(samples, r);
  }

  /** Each percentile splits the samples at its fraction of them. */
  lemma PercentilesMeaning(samples: seq<int>)
    requires samples != []
    ensures var p := PercentilesOf(samples);
            AtRank(samples, p.p50, 0.50) && AtRank(samples, p.p95, 0.95) && AtRank(samples, p.p99, 0.99)
  {
    hide Sort, CountBelow;
    RanksInside(|samples|);
    var top := (|samples| - 1) as real;
    AroundRank(samples, Rank(|samples|, 0.50), top * 0.50);
    AroundRank(samples, Rank(|samples|, 0.95), top * 0.95);
    AroundRank(samples, Rank(|samples|, 0.99), top * 0.99);
  }
}
