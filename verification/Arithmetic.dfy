/**
 Products and remainders with a variable factor, one small step at a time.
 */
module Arithmetic {

  lemma Products(q: int, b: int)
    ensures (-q) * b == -(q * b) && (q - 1) * b == q * b - b && (q + 1) * b == q * b + b
  {
  }

  lemma {:induction false} ProductAtLeast(k: int, b: int)
    requires k >= 1 && b > 0
    ensures k * b >= b
    decreases k
  {
    if k > 1 {
      ProductAtLeast(k - 1, b);
      assert k * b == (k - 1) * b + b;
    }
  }

  /** Products with a positive factor keep the order. */
  lemma ProductOrder(p: int, q: int, b: int)
    requires b > 0 && p * b < q * b
    ensures p < q
  {
    assert (p - q) * b == p * b - q * b;
    if p > q {
      ProductAtLeast(p - q, b);
    }
  }

  lemma SameProduct(p: int, q: int, b: int)
    requires b > 0 && p * b == q * b
    ensures p == q
  {
    Products(p, b);
    Products(q, b);
    ProductOrder(p, q + 1, b);
    ProductOrder(q, p + 1, b);
  }

  lemma QuotientBelow(q: int, r: int, q': int, r': int, b: int)
    requires b > 0 && 0 <= r < b && 0 <= r' < b && q * b + r == q' * b + r'
    ensures q <= q'
  {
    assert (q - q') * b == q * b - q' * b;
    if q - q' >= 1 {
      ProductAtLeast(q - q', b);
    }
  }

  /** Adding the step does not change the remainder. */
  lemma StepRemainder(x: int, step: int)
    requires step > 0
    ensures (x + step) % step == x % step
  {
    var q, r := x / step, x % step;
    assert x == q * step + r;
    assert (q + 1) * step == q * step + step;
    var q', r' := (x + step) / step, (x + step) % step;
    assert x + step == q' * step + r';
    QuotientBelow(q + 1, r, q', r', step);
    QuotientBelow(q', r', q + 1, r, step);
  }

  /** Between one step and the next nothing has remainder zero. */
  lemma NothingBetween(x: int, d: int, step: int)
    requires step > 0 && x % step == 0 && 0 < d < step
    ensures (x + d) % step != 0
  {
    var q := x / step;
    assert x == q * step;
    var q', r' := (x + d) / step, (x + d) % step;
    assert x + d == q' * step + r';
    QuotientBelow(q, d, q', r', step);
    QuotientBelow(q', r', q, d, step);
  }

  /** A multiple leaves no remainder. */
  lemma MultipleRemainder(k: int, step: int)
    requires step > 0
    ensures (k * step) % step == 0
  {
    var q, r := (k * step) / step, (k * step) % step;
    assert k * step == q * step + r;
    QuotientBelow(k, 0, q, r, step);
    QuotientBelow(q, r, k, 0, step);
  }
}
