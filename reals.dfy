/** Facts about real multiplication and division by a positive number. They
    are stated once here and called where the seek mapping needs them, so
    that those proofs do not depend on the solver finding the nonlinear
    steps by itself. */
module Reals {

  lemma ScaleMonotonic(a: real, b: real, c: real)
    requires a <= b && 0.0 <= c
    ensures a * c <= b * c
  {
    assert b * c - a * c == (b - a) * c;
  }

  lemma QuotientSign(c: real, w: real)
    requires w > 0.0 && c >= 0.0
    ensures c / w >= 0.0
  {
    var q := c / w;
    assert q * w == c;
    assert q < 0.0 ==> q * w < 0.0;
  }

  lemma QuotientMonotonic(a: real, b: real, w: real)
    requires a <= b && w > 0.0
    ensures a / w <= b / w
  {
    assert b / w - a / w == (b - a) / w;
    QuotientSign(b - a, w);
  }

  /** Dividing by the same positive number and scaling by the same
      non-negative one keeps the order of two quantities. */
  lemma ScaledQuotientsOrdered(x1: real, x2: real, a: real, b: real, w: real, c: real)
    requires a <= b && w > 0.0 && 0.0 <= c
    requires x1 == a / w * c && x2 == b / w * c
    ensures x1 <= x2
  {
    QuotientMonotonic(a, b, w);
    ScaleMonotonic(a / w, b / w, c);
  }

  /** A quantity between 0 and `w` is that fraction of `w`, between 0 and 1. */
  lemma FractionOf(c: real, w: real)
    requires w > 0.0 && 0.0 <= c <= w
    ensures 0.0 <= c / w <= 1.0
    ensures c / w * w == c
  {
    QuotientSign(c, w);
    QuotientMonotonic(c, w, w);
  }

  /** Scaling by a fraction between 0 and 1 stays between 0 and the original. */
  lemma ScaleAtMost(f: real, x: real)
    requires 0.0 <= f <= 1.0 && 0.0 <= x
    ensures 0.0 <= f * x <= x
  {
    ScaleMonotonic(0.0, f, x);
    ScaleMonotonic(f, 1.0, x);
  }

  /** Dividing by the factor just multiplied by gives the original back. */
  lemma ScaleThenDivide(f: real, w: real)
    requires w > 0.0
    ensures f * w / w == f
  {
    var q := f * w / w;
    assert q * w == f * w;
    assert (q - f) * w == 0.0;
  }
}
