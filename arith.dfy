/** Facts about real division by a positive width that the solver does not find on its own. */
module Arith {
  import opened Screen

  /** A product with a positive factor is zero only if the other factor is. */
  lemma ZeroFactor(a: real, h: real)
    requires h > 0.0 && a * h == 0.0
    ensures a == 0.0
  {
    PositiveProduct(a, h);
    PositiveProduct(-a, h);
  }

  lemma PositiveProduct(a: real, h: real)
    ensures a > 0.0 && h > 0.0 ==> a * h > 0.0
  {
  }

  /** Division by a positive number keeps the order. */
  lemma DivideMonotone(a: real, b: real, w: Width)
    requires a <= b
    ensures a / w <= b / w
  {
    var q := b / w - a / w;
    assert q * w == b - a;
  }

  /** Scaling by w and dividing by w cancel. */
  lemma Cancel(c: real, w: Width)
    ensures (c * w) / w == c
  {
    assert ((c * w) / w) * w == c * w;
  }

  /** Dividing a negated offset gives the negated ratio. */
  lemma Negate(x: real, w: Width)
    ensures -x / w == -(x / w)
  {
    assert (-x / w + x / w) * w == 0.0;
  }

  /** A factor between lo and 1 scales a non-negative value to between lo times it and itself. */
  lemma ScaledFactor(a: real, lo: real, f: real)
    requires lo <= a <= 1.0
    ensures f >= 0.0 ==> lo * f <= a * f <= f
  {
    if f >= 0.0 {
      assert (a - lo) * f >= 0.0 && (1.0 - a) * f >= 0.0;
    }
  }

  /** Damping an offset by a factor between 0 and 1 never makes it larger. */
  lemma Damped(y: real, k: real)
    requires 0.0 <= k <= 1.0
    ensures Abs(y * k) <= Abs(y)
  {
    if y >= 0.0 {
      assert y * k >= 0.0 && y - y * k == y * (1.0 - k);
    } else {
      assert y * k <= 0.0 && y * k - y == -y * (1.0 - k);
    }
  }
}
