/** Orienting the averaged track and scaling it into the drawing. */
module TrackDrawing {
  import opened Python
  import opened Reals
  import opened TrackModels

  // ---------- Mirroring ----------

  function SumX(points: seq<Flat>): real {
    if points == [] then 0.0 else SumX(points[..|points| - 1]) + points[|points| - 1].x
  }

  function FlipAbout(points: seq<Flat>, twice: real): (r: seq<Flat>)
    ensures |r| == |points|
    ensures forall i | 0 <= i < |points| :: r[i] == Flat(twice - points[i].x, points[i].z)
  {
    seq(|points|, i requires 0 <= i < |points| => Flat(twice - points[i].x, points[i].z))
  }

  function CentroidX(points: seq<Flat>): real
    requires points != []
  {
    SumX(points) / |points| as real
  }

  function FlipX(points: seq<Flat>): (r: seq<Flat>)
    ensures |r| == |points|
  {
    if points == [] then points else FlipAbout(points, 2.0 * CentroidX(points))
  }

  lemma {:induction false} FlippedSum(points: seq<Flat>, twice: real)
    ensures SumX(FlipAbout(points, twice)) == |points| as real * twice - SumX(points)
  {
    if points != [] {
      var n := |points| - 1;
      FlippedSum(points[..n], twice);
      assert FlipAbout(points, twice)[..n] == FlipAbout(points[..n], twice);
      assert |points| as real == n as real + 1.0;
      assert (n as real + 1.0) * twice == n as real * twice + twice;
    }
  }

  /** Mirroring keeps the centroid, so mirroring twice gives the points back. */
  lemma FlipTwice(points: seq<Flat>)
    ensures FlipX(FlipX(points)) == points
  {
    if points != [] {
      var c := CentroidX(points);
      var n := |points| as real;
      FlippedSum(points, 2.0 * c);
      assert c * n == SumX(points);
      assert n * (2.0 * c) == 2.0 * SumX(points);
      assert SumX(FlipX(points)) == SumX(points);
      assert CentroidX(FlipX(points)) == c;
    }
  }

  // ---------- Scaling into the drawing ----------

  function LeastOf(xs: seq<real>): real
    requires xs != []
  {
    if |xs| == 1 then xs[0] else Min(LeastOf(xs[..|xs| - 1]), xs[|xs| - 1])
  }

  function GreatestOf(xs: seq<real>): real
    requires xs != []
  {
    if |xs| == 1 then xs[0] else Max(GreatestOf(xs[..|xs| - 1]), xs[|xs| - 1])
  }

  lemma {:induction false} ExtremesBound(xs: seq<real>, i: nat)
    requires i < |xs|
    ensures LeastOf(xs) <= xs[i] <= GreatestOf(xs)
  {
    if i < |xs| - 1 {
      ExtremesBound(xs[..|xs| - 1], i);
    }
  }

  function Xs(points: seq<Flat>): (xs: seq<real>)
    ensures |xs| == |points| && forall i | 0 <= i < |points| :: xs[i] == points[i].x
  {
    seq(|points|, i requires 0 <= i < |points| => points[i].x)
  }

  function Zs(points: seq<Flat>): (zs: seq<real>)
    ensures |zs| == |points| && forall i | 0 <= i < |points| :: zs[i] == points[i].z
  {
    seq(|points|, i requires 0 <= i < |points| => points[i].z)
  }

  /** A degenerate range counts as 1. */
  function RangeOf(xs: seq<real>): real
    requires xs != []
  {
    if GreatestOf(xs) - LeastOf(xs) == 0.0 then 1.0 else GreatestOf(xs) - LeastOf(xs)
  }

  lemma RangePositive(xs: seq<real>)
    requires xs != []
    ensures RangeOf(xs) > 0.0 && GreatestOf(xs) - LeastOf(xs) <= RangeOf(xs)
  {
    ExtremesBound(xs, 0);
  }

  function Scale(points: seq<Flat>, width: real, height: real, padding: real): real
    requires points != []
  {
    RangePositive(Xs(points));
    RangePositive(Zs(points));
    Min((width - 2.0 * padding) / RangeOf(Xs(points)), (height - 2.0 * padding) / RangeOf(Zs(points)))
  }

  /** Centres a scaled range in its part of the canvas. */
  function Offset(canvas: real, range: real, scale: real, padding: real): real {
    padding + (canvas - range * scale) / 2.0
  }

  function Place(value: real, scale: real, offset: real): real {
    value * scale + offset
  }

  /** The map into the drawing, before the final rounding. */
  function WorldToSvg(points: seq<Flat>, width: real, height: real, padding: real): (r: seq<Flat>)
    ensures |r| == |points|
  {
    if points == [] then []
    else
      var scale := Scale(points, width, height, padding);
      var offX := Offset(width - 2.0 * padding, RangeOf(Xs(points)), scale, padding);
      var offY := Offset(height - 2.0 * padding, RangeOf(Zs(points)), scale, padding);
      var left, top := LeastOf(Xs(points)), GreatestOf(Zs(points));
      seq(|points|, i requires 0 <= i < |points| =>
        Flat(Place(points[i].x - left, scale, offX), Place(top - points[i].z, scale, offY)))
  }

  /** A coordinate at most `range` from its origin, scaled and centred in the canvas. */
  lemma Centred(value: real, range: real, scale: real, canvas: real, padding: real)
    requires 0.0 <= value <= range && 0.0 <= scale && range * scale <= canvas
    ensures padding <= Place(value, scale, Offset(canvas, range, scale, padding)) <= padding + canvas
  {
    MulOrder(0.0, value, scale);
    MulOrder(value, range, scale);
  }

  lemma FitsCanvas(canvas: real, range: real, scale: real)
    requires range > 0.0 && scale <= canvas / range
    ensures range * scale <= canvas
  {
    MulOrder(scale, canvas / range, range);
    assert canvas / range * range == canvas;
  }

  /** One scale serves both axes, so shapes keep their proportions. */
  lemma OneScale(points: seq<Flat>, width: real, height: real, padding: real, i: nat, j: nat)
    requires i < |points| && j < |points|
    ensures var r := WorldToSvg(points, width, height, padding);
            var scale := Scale(points, width, height, padding);
            && r[i].x - r[j].x == (points[i].x - points[j].x) * scale
            && r[i].z - r[j].z == (points[j].z - points[i].z) * scale
  {
    hide Place, Offset, RangeOf, LeastOf, GreatestOf;
    var scale := Scale(points, width, height, padding);
    var offX := Offset(width - 2.0 * padding, RangeOf(Xs(points)), scale, padding);
    var offY := Offset(height - 2.0 * padding, RangeOf(Zs(points)), scale, padding);
    var left, top := LeastOf(Xs(points)), GreatestOf(Zs(points));
    var r := WorldToSvg(points, width, height, padding);
    assert r[i] == Flat(Place(points[i].x - left, scale, offX), Place(top - points[i].z, scale, offY));
    assert r[j] == Flat(Place(points[j].x - left, scale, offX), Place(top - points[j].z, scale, offY));
    PlaceDifference(points[i].x - left, points[j].x - left, points[i].x - points[j].x, scale, offX);
    PlaceDifference(top - points[i].z, top - points[j].z, points[j].z - points[i].z, scale, offY);
  }

  lemma PlaceDifference(x: real, y: real, difference: real, scale: real, offset: real)
    requires x - y == difference
    ensures Place(x, scale, offset) - Place(y, scale, offset) == difference * scale
  {
    assert (x - y) * scale == x * scale - y * scale;
  }

  lemma ScaleFits(canvas: real, range: real, scale: real, value: real, padding: real)
    requires range > 0.0 && 0.0 <= scale <= canvas / range && 0.0 <= value <= range
    ensures padding <= Place(value, scale, Offset(canvas, range, scale, padding)) <= padding + canvas
  {
    FitsCanvas(canvas, range, scale);
    Centred(value, range, scale, canvas, padding);
  }

  lemma ScaleWithin(points: seq<Flat>, width: real, height: real, padding: real)
    requires points != [] && width >= 2.0 * padding && height >= 2.0 * padding
    ensures RangeOf(Xs(points)) > 0.0 && RangeOf(Zs(points)) > 0.0
    ensures 0.0 <= Scale(points, width, height, padding) <= (width - 2.0 * padding) / RangeOf(Xs(points))
    ensures Scale(points, width, height, padding) <= (height - 2.0 * padding) / RangeOf(Zs(points))
  {
    RangePositive(Xs(points));
    RangePositive(Zs(points));
    QuotientOrder(0.0, width - 2.0 * padding, RangeOf(Xs(points)));
    QuotientOrder(0.0, height - 2.0 * padding, RangeOf(Zs(points)));
  }

  /** For any set of points, every drawn point stays inside the padded canvas. */
  lemma InsideCanvas(points: seq<Flat>, width: real, height: real, padding: real, i: nat)
    requires i < |points| && width >= 2.0 * padding && height >= 2.0 * padding
    ensures var p := WorldToSvg(points, width, height, padding)[i];
            padding <= p.x <= width - padding && padding <= p.z <= height - padding
  {
    hide Place, Offset, Scale, RangeOf, LeastOf, GreatestOf;
    var scale := Scale(points, width, height, padding);
    var xs, zs := Xs(points), Zs(points);
    RangePositive(xs);
    RangePositive(zs);
    ExtremesBound(xs, i);
    ExtremesBound(zs, i);
    ScaleWithin(points, width, height, padding);
    ScaleFits(width - 2.0 * padding, RangeOf(xs), scale, xs[i] - LeastOf(xs), padding);
    ScaleFits(height - 2.0 * padding, RangeOf(zs), scale, GreatestOf(zs) - zs[i], padding);
  }

  /** The place of the least and the greatest value of a list. */
  predicate Extremes(xs: seq<real>, least: nat, greatest: nat) {
    && least < |xs| && greatest < |xs| && xs[least] < xs[greatest]
    && forall i | 0 <= i < |xs| :: xs[least] <= xs[i] <= xs[greatest]
  }

  lemma {:induction false} ExtremesReached(xs: seq<real>)
    requires xs != []
    ensures LeastOf(xs) in xs && GreatestOf(xs) in xs
  {
    if |xs| > 1 {
      ExtremesReached(xs[..|xs| - 1]);
      assert xs == xs[..|xs| - 1] + [xs[|xs| - 1]];
    }
  }

  lemma ExtremesAre(xs: seq<real>, least: nat, greatest: nat)
    requires Extremes(xs, least, greatest)
    ensures least < |xs| && greatest < |xs|
    ensures LeastOf(xs) == xs[least] && GreatestOf(xs) == xs[greatest] && RangeOf(xs) == xs[greatest] - xs[least]
  {
    hide LeastOf, GreatestOf;
    ExtremesReached(xs);
    ExtremesBound(xs, least);
    ExtremesBound(xs, greatest);
  }

  lemma CentredExtremes(canvas: real, range: real, scale: real, padding: real)
    ensures var offset := Offset(canvas, range, scale, padding);
            && Place(0.0, scale, offset) - padding == padding + canvas - Place(range, scale, offset)
            && Place(range, scale, offset) - Place(0.0, scale, offset) == range * scale
  {
  }

  /** A track with some extent in both directions is drawn centred, with equal margins left and right
      and above and below, and as large as fits: it spans the padded canvas in one direction. */
  lemma DrawingFills(points: seq<Flat>, width: real, height: real, padding: real, l: nat, r: nat, b: nat, t: nat)
    requires Extremes(Xs(points), l, r) && Extremes(Zs(points), b, t)
    requires width >= 2.0 * padding && height >= 2.0 * padding
    ensures var d := WorldToSvg(points, width, height, padding);
            && d[l].x == width - d[r].x && d[t].z == height - d[b].z
            && (d[r].x - d[l].x == width - 2.0 * padding || d[b].z - d[t].z == height - 2.0 * padding)
  {
    hide Place, Offset, RangeOf, LeastOf, GreatestOf, Extremes;
    var xs, zs := Xs(points), Zs(points);
    ExtremesAre(xs, l, r);
    ExtremesAre(zs, b, t);
    RangePositive(xs);
    RangePositive(zs);
    var scale := Scale(points, width, height, padding);
    CentredExtremes(width - 2.0 * padding, RangeOf(xs), scale, padding);
    CentredExtremes(height - 2.0 * padding, RangeOf(zs), scale, padding);
    QuotientBack(width - 2.0 * padding, RangeOf(xs));
    QuotientBack(height - 2.0 * padding, RangeOf(zs));
    var d := WorldToSvg(points, width, height, padding);
    var offX := Offset(width - 2.0 * padding, RangeOf(xs), scale, padding);
    var offY := Offset(height - 2.0 * padding, RangeOf(zs), scale, padding);
    assert d[l].x == Place(0.0, scale, offX) && d[r].x == Place(RangeOf(xs), scale, offX);
    assert d[t].z == Place(0.0, scale, offY) && d[b].z == Place(RangeOf(zs), scale, offY);
  }

  lemma QuotientBack(x: real, s: real)
    requires s > 0.0
    ensures s * (x / s) == x
  {
  }

  // ---------- The whole drawing ----------

  function SumZ(points: seq<Flat>): real {
    if points == [] then 0.0 else SumZ(points[..|points| - 1]) + points[|points| - 1].z
  }

  function CentroidZ(points: seq<Flat>): real
    requires points != []
  {
    SumZ(points) / |points| as real
  }

  function TurnAbout(points: seq<Flat>, cx: real, cz: real): (r: seq<Flat>)
    ensures |r| == |points|
  {
    seq(|points|, i requires 0 <= i < |points| => Flat(-(points[i].z - cz) + cx, (points[i].x - cx) + cz))
  }

  /** A quarter turn counter-clockwise around the centroid. */
  function QuarterTurn(points: seq<Flat>): (r: seq<Flat>)
    ensures |r| == |points|
  {
    if points == [] then points else TurnAbout(points, CentroidX(points), CentroidZ(points))
  }

  /** x added up n times. */
  function Repeated(n: nat, x: real): real {
    if n == 0 then 0.0 else Repeated(n - 1, x) + x
  }

  lemma {:induction false} RepeatedIsProduct(n: nat, x: real)
    ensures Repeated(n, x) == n as real * x
  {
    if n > 0 {
      RepeatedIsProduct(n - 1, x);
      OneMoreTime((n - 1) as real, x);
    }
  }

  lemma {:induction false} TurnedSums(points: seq<Flat>, cx: real, cz: real)
    ensures SumX(TurnAbout(points, cx, cz)) == Repeated(|points|, cx + cz) - SumZ(points)
    ensures SumZ(TurnAbout(points, cx, cz)) == SumX(points) + Repeated(|points|, cz - cx)
  {
    if points != [] {
      TurnedSums(points[..|points| - 1], cx, cz);
      TurnedSplit(points, cx, cz);
      hide SumX, SumZ, TurnAbout;
    }
  }

  lemma TurnedSplit(points: seq<Flat>, cx: real, cz: real)
    requires points != []
    ensures var front, p := points[..|points| - 1], points[|points| - 1];
            && SumX(points) == SumX(front) + p.x && SumZ(points) == SumZ(front) + p.z
            && SumX(TurnAbout(points, cx, cz)) == SumX(TurnAbout(front, cx, cz)) - (p.z - cz) + cx
            && SumZ(TurnAbout(points, cx, cz)) == SumZ(TurnAbout(front, cx, cz)) + (p.x - cx) + cz
  {
    var n := |points| - 1;
    assert TurnAbout(points, cx, cz)[..n] == TurnAbout(points[..n], cx, cz);
  }

  lemma OneMoreTime(n: real, x: real)
    ensures (n + 1.0) * x == n * x + x
  {
  }

  lemma TurnKeepsCentre(points: seq<Flat>)
    requires points != []
    ensures CentroidX(QuarterTurn(points)) == CentroidX(points) && CentroidZ(QuarterTurn(points)) == CentroidZ(points)
  {
    var cx, cz, n := CentroidX(points), CentroidZ(points), |points|;
    TurnedSums(points, cx, cz);
    RepeatedIsProduct(n, cx + cz);
    RepeatedIsProduct(n, cz - cx);
    TurnedMean(n as real, SumX(points), SumZ(points), cx, cz);
  }

  lemma TurnedMean(n: real, x: real, z: real, cx: real, cz: real)
    requires n > 0.0 && cx == x / n && cz == z / n
    ensures (n * (cx + cz) - z) / n == cx && (x + n * (cz - cx)) / n == cz
  {
    QuotientBack(x, n);
    QuotientBack(z, n);
    assert n * (cx + cz) == n * cx + n * cz && n * (cz - cx) == n * cz - n * cx;
  }

  /** Turning keeps the centroid, and turning twice puts every point on its other side. */
  lemma TurnTwice(points: seq<Flat>, i: nat)
    requires i < |points|
    ensures CentroidX(QuarterTurn(points)) == CentroidX(points) && CentroidZ(QuarterTurn(points)) == CentroidZ(points)
    ensures QuarterTurn(QuarterTurn(points))[i]
            == Flat(2.0 * CentroidX(points) - points[i].x, 2.0 * CentroidZ(points) - points[i].z)
  {
    TurnKeepsCentre(points);
    hide CentroidX, CentroidZ;
  }

  function Oriented(points: seq<Flat>): (r: seq<Flat>)
    ensures |r| == |points|
  {
    FlipX(QuarterTurn(points))
  }

  function Drawn(points: seq<Flat>): (r: seq<Flat>)
    ensures |r| == |points|
  {
    WorldToSvg(Oriented(points), SVG_WIDTH, SVG_HEIGHT, SVG_PADDING)
  }

  /** The drawing is the track to one scale: the world's z runs to the right and its x upwards. */
  lemma DrawnOrientation(points: seq<Flat>, i: nat, j: nat)
    requires i < |points| && j < |points|
    ensures var r, scale := Drawn(points), Scale(Oriented(points), SVG_WIDTH, SVG_HEIGHT, SVG_PADDING);
            && r[i].x - r[j].x == (points[i].z - points[j].z) * scale
            && r[i].z - r[j].z == (points[j].x - points[i].x) * scale
  {
    hide Oriented, WorldToSvg, Scale;
    OrientedDifference(points, i, j);
    OneScale(Oriented(points), SVG_WIDTH, SVG_HEIGHT, SVG_PADDING, i, j);
  }

  lemma OrientedDifference(points: seq<Flat>, i: nat, j: nat)
    requires i < |points| && j < |points|
    ensures Oriented(points)[i].x - Oriented(points)[j].x == points[i].z - points[j].z
    ensures Oriented(points)[j].z - Oriented(points)[i].z == points[j].x - points[i].x
  {
    hide CentroidX, CentroidZ;
  }

  lemma DrawnInside(points: seq<Flat>, i: nat)
    requires i < |points|
    ensures 40.0 <= Drawn(points)[i].x <= 960.0 && 40.0 <= Drawn(points)[i].z <= 560.0
  {
    InsideCanvas(Oriented(points), SVG_WIDTH, SVG_HEIGHT, SVG_PADDING, i);
  }
}
