/** Facts about ordered-field arithmetic on `real` that the solver does not find on its own:
    multiplying and dividing inequalities by positive quantities. */
module RealArith {
  lemma MulPos(x: real, y: real)
    requires x > 0.0 && y > 0.0
    ensures x * y > 0.0
  {
  }

  lemma MulLe(c: real, x: real, y: real)
    requires c >= 0.0 && x <= y
    ensures c * x <= c * y
  {
    assert c * y - c * x == c * (y - x);
  }

  lemma ProductBounds(q: real, t: real, qMax: real, tMax: real)
    requires 0.0 < q < qMax && 0.0 < t <= tMax
    ensures 0.0 < q * t < qMax * tMax
  {
    MulPos(q, t);
    MulLe(q, t, tMax);
    MulLess(tMax, q, qMax);
  }

  lemma MulLess(c: real, x: real, y: real)
    requires c > 0.0 && x < y
    ensures c * x < c * y
  {
    assert c * y - c * x == c * (y - x);
  }

  lemma DivLess(x: real, y: real, d1: real, d2: real)
    requires d1 > 0.0 && d2 > 0.0 && x * d2 < y * d1
    ensures x / d1 < y / d2
  {
    var p := x / d1;
    var q := y / d2;
    assert p * d1 == x;
    assert q * d2 == y;
    var dd := d1 * d2;
    assert dd > 0.0;
    assert x * d2 == p * dd;
    assert y * d1 == q * dd;
    if p >= q {
      if p > q {
        MulLess(dd, q, p);
      }
      assert false;
    }
  }

  lemma RatioIncreasing(a: real, b: real, alpha: real)
    requires 0.0 <= a < b && alpha > 0.0
    ensures a / (a + alpha) < b / (b + alpha)
  {
    MulLess(alpha, a, b);
    assert a * (b + alpha) == a * b + a * alpha;
    assert b * (a + alpha) == a * b + b * alpha;
    DivLess(a, b, a + alpha, b + alpha);
  }

  /** A number whose product with `d` is `n` is the quotient `n / d`. */
  lemma QuotientOf(x: real, n: real, d: real)
    requires d != 0.0 && x * d == n
    ensures x == n / d
  {
    var r := n / d;
    assert r * d == n;
    assert (x - r) * d == 0.0;
  }

  /** The rise of `t / (t + alpha)` from `a` to `b`, written as one fraction. */
  lemma RatioGap(a: real, b: real, alpha: real)
    requires 0.0 <= a && 0.0 <= b && alpha > 0.0
    ensures b / (b + alpha) - a / (a + alpha) == alpha * (b - a) / ((a + alpha) * (b + alpha))
  {
    var ea, eb := a + alpha, b + alpha;
    var p, q := a / ea, b / eb;
    assert p * ea == a;
    assert q * eb == b;
    assert (q - p) * (ea * eb) == (q * eb) * ea - (p * ea) * eb;
    assert (q - p) * (ea * eb) == b * ea - a * eb;
    assert b * ea - a * eb == alpha * (b - a);
    MulPos(ea, eb);
    QuotientOf(q - p, alpha * (b - a), ea * eb);
  }

  /** A positive fraction shrinks when its numerator does not grow and its denominator
      grows. */
  lemma FractionLess(n1: real, d1: real, n2: real, d2: real)
    requires 0.0 <= n2 <= n1 && 0.0 < n1 && 0.0 < d1 < d2
    ensures n2 / d2 < n1 / d1
  {
    MulLe(d1, n2, n1);
    MulLess(n1, d1, d2);
    assert n2 * d1 < n1 * d2;
    DivLess(n2, n1, d2, d1);
  }

  /** The numerators and denominators of the gap fractions of two intervals, the later one
      no wider. */
  lemma GapParts(a1: real, b1: real, a2: real, b2: real, alpha: real)
    requires 0.0 <= a1 < b1 && 0.0 <= a2 < b2 && a1 < a2 && b1 < b2 && alpha > 0.0
    requires b2 - a2 <= b1 - a1
    ensures 0.0 < (a1 + alpha) * (b1 + alpha) < (a2 + alpha) * (b2 + alpha)
    ensures 0.0 <= alpha * (b2 - a2) <= alpha * (b1 - a1) && 0.0 < alpha * (b1 - a1)
  {
    ProductBounds(a1 + alpha, b1 + alpha, a2 + alpha, b2 + alpha);
    MulPos(alpha, b1 - a1);
    MulPos(alpha, b2 - a2);
    MulLe(alpha, b2 - a2, b1 - a1);
  }

  /** The gap fractions of `RatioGap` compare the other way round from their endpoints: the
      later, no wider interval has the smaller numerator and the larger denominator. */
  lemma GapFractionShrinks(a1: real, b1: real, a2: real, b2: real, alpha: real)
    requires 0.0 <= a1 < b1 && 0.0 <= a2 < b2 && a1 < a2 && b1 < b2 && alpha > 0.0
    requires b2 - a2 <= b1 - a1
    ensures alpha * (b2 - a2) / ((a2 + alpha) * (b2 + alpha)) < alpha * (b1 - a1) / ((a1 + alpha) * (b1 + alpha))
  {
    GapParts(a1, b1, a2, b2, alpha);
    FractionLess(alpha * (b1 - a1), (a1 + alpha) * (b1 + alpha), alpha * (b2 - a2), (a2 + alpha) * (b2 + alpha));
  }

  /** `t / (t + alpha)` rises less over a later interval that is no wider. */
  lemma RatioGapShrinks(a1: real, b1: real, a2: real, b2: real, alpha: real)
    requires 0.0 <= a1 < b1 && 0.0 <= a2 < b2 && a1 < a2 && b1 < b2 && alpha > 0.0
    requires b2 - a2 <= b1 - a1
    ensures b2 / (b2 + alpha) - a2 / (a2 + alpha) < b1 / (b1 + alpha) - a1 / (a1 + alpha)
  {
    GapFractionShrinks(a1, b1, a2, b2, alpha);
    RatioGap(a1, b1, alpha);
    RatioGap(a2, b2, alpha);
  }

  /** A weight times a ratio is the ratio of the weighted numerator. */
  lemma ScaledRatio(w: real, a: real, alpha: real)
    requires a > 0.0 && alpha > 0.0
    ensures w * (a / (a + alpha)) == (w * a) / (a + alpha)
  {
    var r := a / (a + alpha);
    assert r * (a + alpha) == a;
    assert (w * r) * (a + alpha) == w * (r * (a + alpha));
    QuotientOf(w * r, w * a, a + alpha);
  }

  /** `w1·a/(a+α1) < w2·a/(a+α2)` exactly when the cross products compare so. */
  lemma WeightedRatioLess(a: real, w1: real, alpha1: real, w2: real, alpha2: real)
    requires a > 0.0 && alpha1 > 0.0 && alpha2 > 0.0
    requires w1 * (a + alpha2) < w2 * (a + alpha1)
    ensures w1 * (a / (a + alpha1)) < w2 * (a / (a + alpha2))
  {
    ScaledRatio(w1, a, alpha1);
    ScaledRatio(w2, a, alpha2);
    MulLess(a, w1 * (a + alpha2), w2 * (a + alpha1));
    assert (w1 * a) * (a + alpha2) == a * (w1 * (a + alpha2));
    assert (w2 * a) * (a + alpha1) == a * (w2 * (a + alpha1));
    DivLess(w1 * a, w2 * a, a + alpha1, a + alpha2);
  }

  lemma RatioBounds(a: real, alpha: real)
    requires a > 0.0 && alpha > 0.0
    ensures 0.0 < a / (a + alpha) < 1.0
  {
    DivLess(a, 1.0, a + alpha, 1.0);
    DivLess(0.0, a, 1.0, a + alpha);
  }

  lemma ProductBelow(s: real, a: real)
    requires 0.0 <= s < 1.0 && 0.0 <= a <= 1.0
    ensures 0.0 <= s * a < 1.0
  {
    assert s * a <= s * 1.0 by {
      assert s * 1.0 - s * a == s * (1.0 - a);
    }
  }

  lemma LerpBounds(f0: real, f1: real, g: real)
    requires f1 < f0 && 0.0 < g <= 1.0
    ensures f1 <= f0 + g * (f1 - f0) < f0
    ensures g == 1.0 ==> f0 + g * (f1 - f0) == f1
  {
    var d := f0 - f1;
    var gd := g * d;
    assert g * (f1 - f0) == -gd;
    MulLess(d, 0.0, g);
    if g < 1.0 {
      MulLess(d, g, 1.0);
    }
    assert 0.0 < gd <= d;
  }

  lemma LerpMonotone(f0: real, f1: real, g1: real, g2: real)
    requires f1 < f0 && g1 <= g2
    ensures f0 + g2 * (f1 - f0) <= f0 + g1 * (f1 - f0)
  {
    assert g2 * (f1 - f0) - g1 * (f1 - f0) == (g2 - g1) * (f1 - f0);
  }

  lemma FracBounds(l0: real, lt: real, l1: real)
    requires l0 < lt <= l1
    ensures 0.0 < (lt - l0) / (l1 - l0) <= 1.0
  {
    if lt < l1 {
      DivLess(lt - l0, 1.0, l1 - l0, 1.0);
    }
    DivLess(0.0, lt - l0, 1.0, l1 - l0);
  }

  lemma FracMonotone(l0: real, x: real, y: real, l1: real)
    requires l0 < l1 && x < y
    ensures (x - l0) / (l1 - l0) < (y - l0) / (l1 - l0)
  {
    var d := l1 - l0;
    MulLess(d, x - l0, y - l0);
    DivLess(x - l0, y - l0, d, d);
  }

  lemma MeanBelowMax(sum: real, n: real, mx: real)
    requires n > 0.0 && 0.0 <= sum <= n * mx && mx > 0.0
    ensures 0.0 <= (sum / n) / mx <= 1.0
  {
    var mean := sum / n;
    assert mean * n == sum;
    if mean > mx {
      MulLess(n, mx, mean);
      assert false;
    }
    if mean < mx {
      DivLess(mean, 1.0, mx, 1.0);
    }
    assert 0.0 <= mean;
  }

  lemma ScaledBelow(w: real, s: real)
    requires w > 0.0 && 0.0 <= s < 1.0
    ensures 0.0 <= w * s < w
  {
    MulLess(w, s, 1.0);
  }
}
