/** Multiplication and division facts about the real numbers standing for floats. */
module Reals {
  lemma MulNonNegative(x: real, y: real)
    requires 0.0 <= x && 0.0 <= y
    ensures 0.0 <= x * y
  {
  }

  lemma MulOrder(x: real, y: real, f: real)
    requires x <= y && 0.0 <= f
    ensures x * f <= y * f
  {
    MulNonNegative(y - x, f);
    assert (y - x) * f == y * f - x * f;
  }

  lemma MulStrict(x: real, y: real, f: real)
    requires x < y && 0.0 < f
    ensures x * f < y * f
  {
    assert (y - x) * f > 0.0;
    assert (y - x) * f == y * f - x * f;
  }

  lemma ScaledAbove(q: real, w: real, scaled: real, f: real)
    requires q < w + 1.0 && 0.0 < f && q * f == scaled
    ensures scaled < w * f + f
  {
    MulStrict(q, w + 1.0, f);
    assert (w + 1.0) * f == w * f + f;
  }

  lemma ScaledBelow(q: real, w: real, scaled: real, f: real)
    requires w <= q && 0.0 < f && q * f == scaled
    ensures w * f <= scaled
  {
    if w < q {
      MulStrict(w, q, f);
    }
  }

  lemma QuotientOrder(x: real, y: real, s: real)
    requires x <= y && 0.0 < s
    ensures x / s <= y / s
  {
  }

  lemma QuotientUnit(x: real, s: real)
    requires 0.0 <= x <= s && 0.0 < s
    ensures 0.0 <= x / s <= 1.0
  {
  }

  /** Linear interpolation. */
  function Lerp(x: real, y: real, ratio: real): real {
    x + (y - x) * ratio
  }

  lemma LerpUp(x: real, y: real, ratio: real)
    requires 0.0 <= ratio <= 1.0 && x <= y
    ensures x <= Lerp(x, y, ratio) <= y
  {
    MulNonNegative(y - x, ratio);
    MulNonNegative(y - x, 1.0 - ratio);
    assert (y - x) * (1.0 - ratio) == (y - x) - (y - x) * ratio;
  }

  lemma LerpDown(x: real, y: real, ratio: real)
    requires 0.0 <= ratio <= 1.0 && y <= x
    ensures y <= Lerp(x, y, ratio) <= x
  {
    MulNonNegative(x - y, ratio);
    MulNonNegative(x - y, 1.0 - ratio);
    assert (x - y) * (1.0 - ratio) == (x - y) - (x - y) * ratio;
    assert (y - x) * ratio == -((x - y) * ratio);
  }

  /** An interpolated value lies between its ends. */
  lemma LerpBetween(x: real, y: real, ratio: real)
    requires 0.0 <= ratio <= 1.0
    ensures x <= y ==> x <= Lerp(x, y, ratio) <= y
    ensures y <= x ==> y <= Lerp(x, y, ratio) <= x
  {
    if x <= y {
      LerpUp(x, y, ratio);
    } else {
      LerpDown(x, y, ratio);
    }
  }

  lemma LerpMonotone(x: real, y: real, r: real, q: real)
    requires x <= y && r <= q
    ensures Lerp(x, y, r) <= Lerp(x, y, q)
  {
    MulNonNegative(y - x, q - r);
    assert (y - x) * (q - r) == (y - x) * q - (y - x) * r;
  }

  /** The point (d, x) lies on the line through (d0, x0) and (d1, x1). */
  predicate OnLine(d0: real, x0: real, d1: real, x1: real, d: real, x: real) {
    (x - x0) * (d1 - d0) == (x1 - x0) * (d - d0)
  }

  lemma LerpOnLine(d0: real, x0: real, d1: real, x1: real, d: real)
    requires d0 != d1
    ensures OnLine(d0, x0, d1, x1, d, Lerp(x0, x1, (d - d0) / (d1 - d0)))
  {
    var rise, run := x1 - x0, d1 - d0;
    var ratio := (d - d0) / run;
    assert ratio * run == d - d0;
    assert rise * ratio * run == rise * (ratio * run);
  }

  lemma OnLineAtStart(d0: real, x0: real, d1: real, x1: real, x: real)
    requires d0 != d1 && OnLine(d0, x0, d1, x1, d0, x)
    ensures x == x0
  {
    MulZero(x - x0, d1 - d0);
  }

  lemma OnLineAtEnd(d0: real, x0: real, d1: real, x1: real, x: real)
    requires d0 != d1 && OnLine(d0, x0, d1, x1, d1, x)
    ensures x == x1
  {
    assert (x - x0) * (d1 - d0) - (x1 - x0) * (d1 - d0) == (x - x1) * (d1 - d0);
    MulZero(x - x1, d1 - d0);
  }

  lemma MulZero(x: real, y: real)
    requires x * y == 0.0 && y != 0.0
    ensures x == 0.0
  {
  }
}
