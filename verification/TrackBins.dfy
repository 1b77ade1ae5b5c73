/** The mean position of each distance bin. */
module TrackBins {
  import opened Python
  import opened Reals
  import opened Sorting
  import opened TrackModels

  // ---------- Specification ----------

  function BinOf(distance: real, length: real, bins: nat): int
    requires length != 0.0 && bins > 0
  {
    var b := Truncate(distance / (length / bins as real));
    if b < bins - 1 then b else bins - 1
  }

  datatype Cell = Cell(x: real, z: real, count: int)

  /** The sums and the count of the points in one bin. */
  function CellOf(points: seq<Point>, length: real, bins: nat, b: int): Cell
    requires length != 0.0 && bins > 0
  {
    if points == [] then Cell(0.0, 0.0, 0)
    else
      var p, before := points[|points| - 1], CellOf(points[..|points| - 1], length, bins, b);
      if BinOf(p.distance, length, bins) == b then Cell(before.x + p.x, before.z + p.z, before.count + 1) else before
  }

  /** The bins that have points, in order of first appearance. */
  function Filled(points: seq<Point>, length: real, bins: nat): seq<int>
    requires length != 0.0 && bins > 0
  {
    if points == [] then []
    else
      var before, b := Filled(points[..|points| - 1], length, bins), BinOf(points[|points| - 1].distance, length, bins);
      if b in before then before else before + [b]
  }

  predicate IntLe(x: int, y: int) {
    x <= y
  }

  function MeanOf(c: Cell): Flat {
    if c.count == 0 then Flat(c.x, c.z) else Flat(c.x / c.count as real, c.z / c.count as real)
  }

  /** One mean per filled bin, in bin order. */
  function Averages(points: seq<Point>, length: real, bins: nat): (r: seq<Flat>)
    requires length != 0.0 && bins > 0
    ensures |r| == |Filled(points, length, bins)|
  {
    var order := Sort(IntLe, Filled(points, length, bins));
    seq(|order|, i requires 0 <= i < |order| => MeanOf(CellOf(points, length, bins, order[i])))
  }

  // ---------- Properties ----------

  lemma {:induction false} FilledMeaning(points: seq<Point>, length: real, bins: nat)
    requires length != 0.0 && bins > 0
    ensures var f := Filled(points, length, bins);
            && (forall i, j | 0 <= i < j < |f| :: f[i] != f[j])
            && (forall b :: b in f <==> CellOf(points, length, bins, b).count > 0)
            && (forall b :: CellOf(points, length, bins, b).count >= 0)
  {
    if points != [] {
      FilledMeaning(points[..|points| - 1], length, bins);
    }
  }

  lemma BinInside(distance: real, length: real, bins: nat)
    requires length > 0.0 && bins > 0 && distance >= 0.0
    ensures 0 <= BinOf(distance, length, bins) < bins
  {
    QuotientPositive(length, bins as real);
    QuotientOrder(0.0, distance, length / bins as real);
  }

  /** Where bin k starts. */
  function StartOf(k: int, width: real): real {
    k as real * width
  }

  /** A bin holds the distances of its own stretch of the track, the bins being of equal width; the
      last bin also holds everything beyond the track's length. */
  lemma BinMeaning(distance: real, length: real, bins: nat)
    requires length > 0.0 && bins > 0 && distance >= 0.0
    ensures var b, width := BinOf(distance, length, bins), length / bins as real;
            && StartOf(b, width) <= distance
            && (b < bins - 1 ==> distance < StartOf(b + 1, width))
  {
    var width := length / bins as real;
    QuotientPositive(length, bins as real);
    WholeWidths(distance, width);
    StartsAscend(BinOf(distance, length, bins), Truncate(distance / width), width);
    hide StartOf;
  }

  lemma StartsAscend(j: int, k: int, width: real)
    requires j <= k && width > 0.0
    ensures StartOf(j, width) <= StartOf(k, width)
  {
    MulOrder(j as real, k as real, width);
  }

  lemma WholeWidths(distance: real, width: real)
    requires width > 0.0 && distance >= 0.0
    ensures var k := Truncate(distance / width); 0 <= k && StartOf(k, width) <= distance < StartOf(k + 1, width)
  {
    QuotientOrder(0.0, distance, width);
    var q := distance / width;
    var k := Truncate(q);
    assert q * width == distance;
    ScaledBelow(q, k as real, distance, width);
    ScaledAbove(q, k as real, distance, width);
    OneMoreWidth(k, width);
  }

  lemma OneMoreWidth(k: int, width: real)
    ensures StartOf(k + 1, width) == k as real * width + width
  {
    assert (k + 1) as real == k as real + 1.0;
    assert (k as real + 1.0) * width == k as real * width + width;
  }

  lemma QuotientPositive(x: real, s: real)
    requires x > 0.0 && s > 0.0
    ensures x / s > 0.0
  {
  }

  lemma {:induction false} CellConcat(a: seq<Point>, c: seq<Point>, length: real, bins: nat, b: int)
    requires length != 0.0 && bins > 0
    ensures var x, y, both := CellOf(a, length, bins, b), CellOf(c, length, bins, b), CellOf(a + c, length, bins, b);
            both == Cell(x.x + y.x, x.z + y.z, x.count + y.count)
  {
    if c == [] {
      assert a + c == a;
    } else {
      assert (a + c)[..|a + c| - 1] == a + c[..|c| - 1];
      CellConcat(a, c[..|c| - 1], length, bins, b);
    }
  }

  /** A sample adds its position and one to the cell of its own bin, and nothing to any other,
      wherever it stands among the samples. */
  lemma CellMeaning(a: seq<Point>, p: Point, c: seq<Point>, length: real, bins: nat, b: int)
    requires length != 0.0 && bins > 0
    ensures var x, y := CellOf(a, length, bins, b), CellOf(c, length, bins, b);
            CellOf(a + [p] + c, length, bins, b) == if BinOf(p.distance, length, bins) == b
                   then Cell(x.x + p.x + y.x, x.z + p.z + y.z, x.count + 1 + y.count)
                   else Cell(x.x + y.x, x.z + y.z, x.count + y.count)
  {
    CellConcat(a + [p], c, length, bins, b);
    assert (a + [p])[..|a|] == a;
  }

  /** The mean times the number of samples is their sum, in both coordinates. */
  lemma MeanMeaning(c: Cell)
    requires c.count > 0
    ensures MeanOf(c).x * c.count as real == c.x && MeanOf(c).z * c.count as real == c.z
  {
  }

  lemma {:induction false} FilledInside(points: seq<Point>, length: real, bins: nat)
    requires length > 0.0 && bins > 0 && forall p | p in points :: p.distance >= 0.0
    ensures forall b | b in Filled(points, length, bins) :: 0 <= b < bins
  {
    if points != [] {
      var p := points[|points| - 1];
      assert p in points && forall q | q in points[..|points| - 1] :: q in points;
      FilledInside(points[..|points| - 1], length, bins);
      BinInside(p.distance, length, bins);
    }
  }

  predicate Ascending(s: seq<int>) {
    forall i, j | 0 <= i < j < |s| :: s[i] < s[j]
  }

  /** As many different numbers below n as n are all of them, in order when sorted. */
  lemma {:induction false} FullRange(order: seq<int>, n: nat)
    requires |order| == n && (forall b | b in order :: 0 <= b < n)
    requires Ascending(order)
    ensures forall i | 0 <= i < n :: order[i] == i
  {
    forall i | 0 <= i < n ensures order[i] == i {
      AtLeastIndex(order, i);
      AtMostIndex(order, n, i);
    }
  }

  lemma {:induction false} AtLeastIndex(order: seq<int>, i: nat)
    requires i < |order| && (forall b | b in order :: 0 <= b)
    requires Ascending(order)
    ensures order[i] >= i
  {
    assert order[i] in order;
    if i > 0 {
      AtLeastIndex(order, i - 1);
    }
  }

  lemma {:induction false} AtMostIndex(order: seq<int>, n: nat, i: nat)
    requires i < |order| == n && (forall b | b in order :: b < n)
    requires Ascending(order)
    ensures order[i] <= i
    decreases n - i
  {
    assert order[i] in order;
    if i < n - 1 {
      AtMostIndex(order, n, i + 1);
    }
  }

  lemma {:induction false} InsertAscending(x: int, s: seq<int>)
    requires Ascending(s) && x !in s
    ensures Ascending(Insert(IntLe, x, s))
  {
    if s != [] && !IntLe(x, s[0]) {
      var t := Insert(IntLe, x, s[1..]);
      InsertAscending(x, s[1..]);
      InsertContents(IntLe, x, s[1..]);
      forall j | 0 <= j < |t| ensures s[0] < t[j] {
        assert t[j] in multiset(t);
        assert t[j] == x || t[j] in s[1..];
      }
    }
  }

  lemma {:induction false} SortAscending(s: seq<int>)
    requires forall i, j | 0 <= i < j < |s| :: s[i] != s[j]
    ensures Ascending(Sort(IntLe, s))
  {
    if s != [] {
      SortAscending(s[1..]);
      SortMembers(IntLe, s[1..]);
      InsertAscending(s[0], Sort(IntLe, s[1..]));
    }
  }

  /** When every bin is filled, averaging gives exactly one point per bin, in bin order, each
      the mean of its own samples. */
  lemma AveragesComplete(points: seq<Point>, length: real, bins: nat)
    requires length > 0.0 && bins > 0 && forall p | p in points :: p.distance >= 0.0
    requires |Filled(points, length, bins)| == bins
    ensures var r := Averages(points, length, bins);
            && |r| == bins
            && forall b | 0 <= b < bins ::
                 CellOf(points, length, bins, b).count > 0 && r[b] == MeanOf(CellOf(points, length, bins, b))
  {
    var filled := Filled(points, length, bins);
    var order := Sort(IntLe, filled);
    FilledMeaning(points, length, bins);
    FilledInside(points, length, bins);
    SortAscending(filled);
    SortMembers(IntLe, filled);
    FullRange(order, bins);
    forall b | 0 <= b < bins ensures CellOf(points, length, bins, b).count > 0 {
      assert order[b] == b && order[b] in order;
    }
  }

  function CountBelow(points: seq<Point>, length: real, bins: nat, n: nat): int
    requires length != 0.0 && bins > 0
  {
    if n == 0 then 0 else CountBelow(points, length, bins, n - 1) + CellOf(points, length, bins, n - 1).count
  }

  lemma {:induction false} CountBelowStep(points: seq<Point>, p: Point, length: real, bins: nat, n: nat)
    requires length != 0.0 && bins > 0
    ensures CountBelow(points + [p], length, bins, n) ==
            CountBelow(points, length, bins, n) + if 0 <= BinOf(p.distance, length, bins) < n then 1 else 0
  {
    assert (points + [p])[..|points|] == points;
    if n > 0 {
      CountBelowStep(points, p, length, bins, n - 1);
    }
  }

  /** No sample is lost or counted twice: the bin counts add up to all samples. */
  lemma {:induction false} CountsAddUp(points: seq<Point>, length: real, bins: nat)
    requires length > 0.0 && bins > 0 && forall p | p in points :: p.distance >= 0.0
    ensures CountBelow(points, length, bins, bins) == |points|
  {
    if points == [] {
      NothingBelow(length, bins, bins);
    } else {
      var n := |points| - 1;
      assert points == points[..n] + [points[n]] && points[n] in points;
      assert forall q | q in points[..n] :: q in points;
      CountsAddUp(points[..n], length, bins);
      BinInside(points[n].distance, length, bins);
      CountBelowStep(points[..n], points[n], length, bins, bins);
    }
  }

  lemma {:induction false} NothingBelow(length: real, bins: nat, n: nat)
    requires length != 0.0 && bins > 0
    ensures CountBelow([], length, bins, n) == 0
  {
    if n > 0 {
      NothingBelow(length, bins, n - 1);
    }
  }

  /** What the dictionary of cells and its key order hold after some of the points. */
  ghost predicate Holds(cells: map<int, Cell>, order: seq<int>, points: seq<Point>, length: real, bins: nat)
    requires length != 0.0 && bins > 0
  {
    && order == Filled(points, length, bins)
    && (forall b :: b in cells <==> b in order)
    && (forall b | b in cells :: cells[b] == CellOf(points, length, bins, b))
  }

  lemma HoldsStep(cells: map<int, Cell>, order: seq<int>, points: seq<Point>, p: Point, length: real, bins: nat)
    requires length != 0.0 && bins > 0 && Holds(cells, order, points, length, bins)
    ensures var b := BinOf(p.distance, length, bins);
            if b in cells then
              Holds(cells[b := Cell(cells[b].x + p.x, cells[b].z + p.z, cells[b].count + 1)], order, points + [p],
                    length, bins)
            else
              Holds(cells[b := Cell(p.x, p.z, 1)], order + [b], points + [p], length, bins)
  {
    assert (points + [p])[..|points|] == points;
    FilledMeaning(points, length, bins);
    EmptyCell(points, length, bins, BinOf(p.distance, length, bins));
  }

  /** The accumulation into the dictionary of cells; `order` is its key order. */
  method BinAndAverage(points: seq<Point>, length: real, bins: nat) returns (r: seq<Flat>)
    requires length != 0.0 && bins > 0
    ensures r == Averages(points, length, bins)
  {
    var cells: map<int, Cell> := map[];
    var order: seq<int> := [];
    for i := 0 to |points|
      invariant Holds(cells, order, points[..i], length, bins)
    {
      var p := points[i];
      var b := BinOf(p.distance, length, bins);
      HoldsStep(cells, order, points[..i], p, length, bins);
      assert points[..i + 1] == points[..i] + [p];
      if b in cells {
        cells := cells[b := Cell(cells[b].x + p.x, cells[b].z + p.z, cells[b].count + 1)];
      } else {
        cells := cells[b := Cell(p.x, p.z, 1)];
        order := order + [b];
      }
    }
    assert points[..|points|] == points;
    var sorted := Sort(IntLe, order);
    SortedCells(cells, order, points, length, bins);
    r := CellMeans(cells, sorted);
  }

  function CellMeans(cells: map<int, Cell>, keys: seq<int>): (r: seq<Flat>)
    requires forall i | 0 <= i < |keys| :: keys[i] in cells
  {
    seq(|keys|, i requires 0 <= i < |keys| => MeanOf(cells[keys[i]]))
  }

  lemma SortedCells(cells: map<int, Cell>, order: seq<int>, points: seq<Point>, length: real, bins: nat)
    requires length != 0.0 && bins > 0 && Holds(cells, order, points, length, bins)
    ensures var sorted := Sort(IntLe, order);
            && (forall i | 0 <= i < |sorted| :: sorted[i] in cells)
            && CellMeans(cells, sorted) == Averages(points, length, bins)
  {
    var sorted := Sort(IntLe, order);
    SortMembers(IntLe, order);
    forall i | 0 <= i < |sorted| ensures sorted[i] in cells {
      var b := sorted[i];
      assert b in sorted && b in order;
    }
    hide CellOf, MeanOf;
    var r, means := Averages(points, length, bins), CellMeans(cells, sorted);
    forall i | 0 <= i < |sorted| ensures means[i] == r[i] {
      var b := sorted[i];
      assert b in sorted && b in cells;
    }
  }

  lemma {:induction false} EmptyCell(points: seq<Point>, length: real, bins: nat, b: int)
    requires length != 0.0 && bins > 0
    ensures CellOf(points, length, bins, b).count >= 0
    ensures CellOf(points, length, bins, b).count == 0 ==> CellOf(points, length, bins, b) == Cell(0.0, 0.0, 0)
  {
    if points != [] {
      EmptyCell(points[..|points| - 1], length, bins, b);
    }
  }

  lemma {:induction false} DistinctCount(s: seq<int>)
    requires forall i, j | 0 <= i < j < |s| :: s[i] != s[j]
    ensures |set b | b in s| == |s|
  {
    if s != [] {
      var n := |s| - 1;
      DistinctCount(s[..n]);
      assert s[n] !in s[..n];
      assert (set b | b in s) == (set b | b in s[..n]) + {s[n]};
    }
  }

  /** The set of filled bins that the coverage check counts. */
  method FilledBins(points: seq<Point>, length: real, bins: nat) returns (filled: set<int>)
    requires length != 0.0 && bins > 0
    ensures filled == set b | b in Filled(points, length, bins)
    ensures |filled| == |Filled(points, length, bins)|
  {
    filled := {};
    for i := 0 to |points|
      invariant filled == set b | b in Filled(points[..i], length, bins)
    {
      assert points[..i + 1][..i] == points[..i];
      filled := filled + {BinOf(points[i].distance, length, bins)};
    }
    assert points[..|points|] == points;
    FilledMeaning(points, length, bins);
    DistinctCount(Filled(points, length, bins));
  }

  /** There are at most as many filled bins as samples, and as bins. */
  lemma {:induction false} FilledAtMost(points: seq<Point>, length: real, bins: nat)
    requires length > 0.0 && bins > 0 && forall p | p in points :: p.distance >= 0.0
    ensures |Filled(points, length, bins)| <= |points| && |Filled(points, length, bins)| <= bins
  {
    FilledShort(points, length, bins);
    FilledMeaning(points, length, bins);
    FilledInside(points, length, bins);
    SortAscending(Filled(points, length, bins));
    SortMembers(IntLe, Filled(points, length, bins));
    var order := Sort(IntLe, Filled(points, length, bins));
    if |order| > 0 {
      AtLeastIndex(order, |order| - 1);
      assert order[|order| - 1] in order;
    }
  }

  lemma {:induction false} FilledShort(points: seq<Point>, length: real, bins: nat)
    requires length != 0.0 && bins > 0
    ensures |Filled(points, length, bins)| <= |points|
  {
    if points != [] {
      FilledShort(points[..|points| - 1], length, bins);
    }
  }
}
