/** Facts about products and Euclidean division that the solver needs one at a time. */
module Arithmetic {

  lemma MulMonotone(a: int, b: int, k: int)
    requires a <= b && k >= 0
    ensures a * k <= b * k
  {
  }

  lemma Distribute(a: int, b: int, k: int)
    ensures (a + b) * k == a * k + b * k
    ensures (a - b) * k == a * k - b * k
  {
  }

  /** Quotient and remainder are the only pair of their kind. */
  lemma DivModUnique(q: int, r: int, k: int)
    requires 0 <= r < k
    ensures (q * k + r) / k == q && (q * k + r) % k == r
  {
    var x := q * k + r;
    var p := x / k;
    assert x == p * k + x % k;
    Distribute(q, p, k);
    if q > p {
      MulMonotone(1, q - p, k);
    } else if q < p {
      MulMonotone(q - p, -1, k);
    }
  }
}
