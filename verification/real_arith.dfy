/** Facts about products and quotients of reals that the solver does not find unaided. */
module RealArith {

  lemma MulNonNeg(a: real, b: real)
    requires 0.0 <= a && 0.0 <= b
    ensures 0.0 <= a * b
  {
  }

  lemma MulLeq(a: real, b: real, c: real)
    requires a <= b && 0.0 <= c
    ensures a * c <= b * c
  {
    MulNonNeg(b - a, c);
  }

  /** A factor of at least 1 never lowers a non-negative value; one of at most 1 never raises it. */
  lemma GrowsAndShrinks(x: real, k: real, y: real, m: real)
    requires 0.0 <= x && 1.0 <= k && 0.0 <= y && m <= 1.0
    ensures x <= x * k && y * m <= y
  {
    MulLeq(1.0, k, x);
    MulLeq(m, 1.0, y);
  }

  lemma DivNonNeg(a: real, b: real)
    requires 0.0 <= a && 0.0 < b
    ensures 0.0 <= a / b
  {
  }

  lemma DivAtLeastOne(a: real, b: real)
    requires 0.0 < b <= a
    ensures 1.0 <= a / b
  {
  }

  lemma DivAboveOne(a: real, b: real)
    requires 0.0 < b < a
    ensures 1.0 < a / b
  {
  }

  lemma ScaledAtMost(p: real, g: real)
    requires 0.0 < p && 0.0 < g <= 1.0
    ensures p * g <= p
  {
    MulLeq(g, 1.0, p);
  }

  /** A blend of lo and hi, in either order, lies between them. */
  lemma OrderedInterpolation(lo: real, hi: real, t: real)
    requires 0.0 <= t <= 1.0 && lo <= hi
    ensures lo <= lo * (1.0 - t) + hi * t <= hi
    ensures lo <= hi * (1.0 - t) + lo * t <= hi
  {
    MulNonNeg(hi - lo, t);
    MulNonNeg(hi - lo, 1.0 - t);
  }
}
