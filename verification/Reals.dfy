/** Products and quotients of reals under names, so that lemmas about them apply to compound arguments. */
module Reals {

  function Scaled(factor: real, x: real): real
  {
    factor * x
  }

  function Ratio(x: real, d: real): real
    requires d > 0.0
  {
    x / d
  }

  function Power(x: real, n: nat): real
  {
    if n == 0 then 1.0 else Scaled(x, Power(x, n - 1))
  }

  lemma ScaledPositive(factor: real, x: real)
    requires factor >= 0.0 && x >= 0.0
    ensures Scaled(factor, x) >= 0.0
    ensures factor > 0.0 && x > 0.0 ==> Scaled(factor, x) > 0.0
  {
  }

  lemma ScaledMonotone(f: real, g: real, x: real, y: real)
    requires 0.0 <= f <= g && 0.0 <= x <= y
    ensures 0.0 <= Scaled(f, x) <= Scaled(g, y)
  {
  }

  lemma ScaledDifference(f: real, x: real, y: real)
    ensures Scaled(f, x) - Scaled(f, y) == Scaled(f, x - y)
  {
  }

  lemma ScaledAssociates(f: real, g: real, x: real)
    ensures Scaled(f, Scaled(g, x)) == Scaled(Scaled(f, g), x) == Scaled(g, Scaled(f, x))
  {
  }

  /** A fraction of something and the rest of it. */
  lemma Share(fraction: real, whole: real)
    requires 0.0 <= fraction <= 1.0 && whole >= 0.0
    ensures 0.0 <= Scaled(fraction, whole) <= whole
    ensures Scaled(fraction, whole) + Scaled(1.0 - fraction, whole) == whole
  {
    assert fraction * whole >= 0.0 && (1.0 - fraction) * whole >= 0.0;
  }

  lemma {:induction false} PowerNonNegative(x: real, n: nat)
    requires x >= 0.0
    ensures Power(x, n) >= 0.0
  {
    if n == 0 {
    } else {
      PowerNonNegative(x, n - 1);
      ScaledPositive(x, Power(x, n - 1));
    }
  }

  /** (1 - r)^n (1 + n r) <= 1 */
  lemma {:induction false} PowerBound(r: real, n: nat)
    requires 0.0 <= r <= 1.0
    ensures Scaled(Power(1.0 - r, n), 1.0 + Scaled(r, n as real)) <= 1.0
  {
    if n == 0 {
    } else {
      var p, k := Power(1.0 - r, n - 1), Scaled(r, (n - 1) as real);
      PowerBound(r, n - 1);
      PowerNonNegative(1.0 - r, n - 1);
      ScaledPositive(r, (n - 1) as real);
      ScaledDifference(r, n as real, (n - 1) as real);
      assert Scaled(r, 1.0) == r;
      StepBound(r, k);
      ScaledAssociates(1.0 - r, p, 1.0 + k + r);
      ScaledPositive(1.0 - r, 1.0 + k + r);
      ScaledMonotone(p, p, Scaled(1.0 - r, 1.0 + k + r), 1.0 + k);
      assert 1.0 + Scaled(r, n as real) == 1.0 + k + r;
    }
  }

  lemma StepBound(r: real, k: real)
    requires 0.0 <= r <= 1.0 && k >= 0.0
    ensures Scaled(1.0 - r, 1.0 + k + r) <= 1.0 + k
  {
  }

  lemma RatioMonotone(x: real, y: real, c: real, d: real)
    requires 0.0 <= x <= y && 0.0 < c <= d
    ensures 0.0 <= Ratio(x, d) <= Ratio(y, c)
  {
  }

  /** Fractions compare as their cross products do. */
  lemma CrossMultiply(x: real, d: real, y: real, e: real)
    requires d > 0.0 && e > 0.0
    ensures Ratio(x, d) <= Ratio(y, e) <==> Scaled(x, e) <= Scaled(y, d)
  {
    var p, q := x / d, y / e;
    assert p * d == x && q * e == y;
    assert x * e == p * (d * e) && y * d == q * (d * e);
    assert d * e > 0.0;
    if p <= q {
      assert (q - p) * (d * e) >= 0.0;
    } else {
      assert (p - q) * (d * e) > 0.0;
    }
  }

  lemma Hundredfold(x: real, e: real)
    ensures Scaled(x, 100.0 * e) == 100.0 * Scaled(x, e)
  {
  }

  lemma StrictProduct(f: real, g: real, x: real, y: real)
    requires 0.0 < f <= g && 0.0 < x <= y
    ensures 0.0 < f * x <= g * y
    ensures f < g || x < y ==> f * x < g * y
  {
    ScaledPositive(f, x);
    ScaledPositive(g - f, x);
    ScaledPositive(g, y - x);
    assert Scaled(f, x) + Scaled(g - f, x) + Scaled(g, y - x) == g * y;
  }
}
