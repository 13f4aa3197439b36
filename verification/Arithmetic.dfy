/** Division by a positive number. */
module Arithmetic {

  lemma FloorBounds(a: int, d: int)
    requires d > 0
    ensures d * (a / d) <= a < d * (a / d + 1)
  {
  }

  lemma Scaled(a: int, b: int, d: int)
    requires a <= b && d >= 0
    ensures d * a <= d * b
  {
  }

  /** The quotient is the one number whose multiple fits. */
  lemma QuotientIs(a: int, d: int, q: int)
    requires d > 0 && d * q <= a < d * (q + 1)
    ensures a / d == q
  {
    var p := a / d;
    FloorBounds(a, d);
    if p < q {
      Scaled(p + 1, q, d);
    } else if q < p {
      Scaled(q + 1, p, d);
    }
  }
}
