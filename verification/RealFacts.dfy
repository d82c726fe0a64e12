/** Facts about products and quotients of reals. */
module RealFacts {
  lemma Expand(a: real, b: real, c: real, d: real, x: real)
    ensures ((a * x + b) * x + c) * x + d == a * x * x * x + b * x * x + c * x + d
  {
    assert (a * x + b) * x == a * x * x + b * x;
  }

  lemma NonNegativeProduct(x: real, w: real)
    requires x >= 0.0 && w >= 0.0
    ensures x * w >= 0.0
  {
  }

  lemma Weighted(x: real, w: real, y: real)
    requires 0.0 <= x <= 255.0 && w >= 0.0 && y == x * w
    ensures 0.0 <= y && y <= 255.0 * w
  {
    NonNegativeProduct(x, w);
    NonNegativeProduct(255.0 - x, w);
    assert (255.0 - x) * w == 255.0 * w - y;
  }

  lemma WeightedSum(r: real, g: real, b: real, w0: real, w1: real, w2: real)
    requires 0.0 <= r <= 255.0 && 0.0 <= g <= 255.0 && 0.0 <= b <= 255.0
    requires w0 >= 0.0 && w1 >= 0.0 && w2 >= 0.0 && w0 + w1 + w2 <= 1.0
    ensures 0.0 <= r * w0 + g * w1 + b * w2 <= 255.0
  {
    var x, y, z := r * w0, g * w1, b * w2;
    Weighted(r, w0, x);
    Weighted(g, w1, y);
    Weighted(b, w2, z);
    SumOfParts(x, y, z, w0, w1, w2);
  }

  lemma SumOfParts(x: real, y: real, z: real, w0: real, w1: real, w2: real)
    requires x <= 255.0 * w0 && y <= 255.0 * w1 && z <= 255.0 * w2 && w0 + w1 + w2 <= 1.0
    ensures x + y + z <= 255.0
  {
  }

  lemma Portion(g: real, whole: real)
    requires 0.0 <= g <= 1.0 && whole >= 0.0
    ensures 0.0 <= g * whole <= whole
  {
  }

  lemma ScaleIsMonotone(a: real, b: real, k: real)
    requires k > 0.0
    ensures a <= b / k <==> a * k <= b
    ensures b / k <= a <==> b <= a * k
  {
    assert b / k * k == b;
    if a <= b / k {
      assert (b / k - a) * k >= 0.0;
    } else {
      assert (a - b / k) * k > 0.0;
    }
    if b / k <= a {
      assert (a - b / k) * k >= 0.0;
    } else {
      assert (b / k - a) * k > 0.0;
    }
  }

  lemma QuotientBound(sum: real, n: real)
    requires n > 0.0 && 0.0 <= sum <= 255.0 * n
    ensures 0.0 <= sum / n <= 255.0
  {
    assert (sum / n) * n == sum;
    assert (255.0 - sum / n) * n >= 0.0;
  }

  lemma MulAssociates(a: real, b: real, c: real)
    ensures a * b * c == a * (b * c)
  {
  }

  lemma NonNegativeQuotient(a: real, b: real)
    requires a >= 0.0 && b > 0.0
    ensures a / b >= 0.0
  {
    assert a / b * b == a;
  }

  /** A part of the whole, taken in the proportion of a part of a maximum. */
  lemma Share(whole: real, part: real, max: real)
    requires whole >= 0.0 && 0.0 <= part <= max && max > 0.0
    ensures whole * part / max <= whole
  {
    var share := whole * part / max;
    assert share * max == whole * part;
    NonNegativeProduct(whole, max - part);
    assert (whole - share) * max == whole * (max - part);
    NonNegativeQuotient((whole - share) * max, max);
  }
}
