/** Small facts about products and quotients of variables, each proved on its
  * own so that no larger proof has to search for them. */
module Arith {

  lemma MulMonotone(x: int, y: int, h: int)
    requires x <= y && 0 <= h
    ensures x * h <= y * h
  {
    assert (y - x) * h >= 0;
  }

  lemma MulStrict(x: int, y: int, h: int)
    requires x < y && 0 < h
    ensures x * h < y * h
  {
    MulMonotone(x + 1, y, h);
  }

  lemma MulNonNegative(x: int, y: int)
    requires 0 <= x && 0 <= y
    ensures 0 <= x * y
  {
  }

  lemma MulCancel(x: int, y: int, h: int)
    requires 0 < h && x * h <= y * h
    ensures x <= y
  {
    if y < x {
      MulStrict(y, x, h);
    }
  }

  lemma MulCancelStrict(x: int, y: int, h: int)
    requires 0 < h && x * h < y * h
    ensures x < y
  {
    if y <= x {
      MulMonotone(y, x, h);
    }
  }

  lemma MulBound(x: int, xMax: int, y: int, yMax: int)
    requires 0 <= x <= xMax && 0 <= y <= yMax
    ensures 0 <= x * y <= xMax * yMax
  {
    MulMonotone(x, xMax, y);
    MulMonotone(y, yMax, xMax);
    MulNonNegative(x, y);
  }

  lemma MulAssociative(x: int, y: int, z: int)
    ensures (x * y) * z == x * (y * z)
  {
  }

  /** The defining equation of quotient and remainder by a positive divisor. */
  lemma DivMod(n: int, d: int)
    requires d > 0
    ensures n == d * (n / d) + n % d && 0 <= n % d < d
  {
  }

  lemma DivNonNegative(n: int, d: int)
    requires 0 <= n && 0 < d
    ensures 0 <= n / d
  {
    var q := n / d;
    DivMod(n, d);
    if q <= -1 {
      MulMonotone(q, -1, d);
      assert false;
    }
  }

  lemma {:induction false} DivModUnique(n: int, d: int, q: int, r: int)
    requires d > 0 && n == d * q + r && 0 <= r < d
    ensures n / d == q && n % d == r
  {
    var q', r' := n / d, n % d;
    DivMod(n, d);
    SameQuotient(d, q, r, q', r');
  }

  lemma {:induction false} SameQuotient(d: int, q: int, r: int, q': int, r': int)
    requires d > 0 && d * q + r == d * q' + r' && 0 <= r < d && 0 <= r' < d
    ensures q == q' && r == r'
  {
    if q < q' {
      MulMonotone(q + 1, q', d);
    } else if q' < q {
      MulMonotone(q' + 1, q, d);
    }
  }
}
