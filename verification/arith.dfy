/** Small facts about real numbers the rest of the model shares: the two-way
    minimum and maximum, and multiplication by a non-negative factor. */
module Arith {

  function Min(a: real, b: real): real
  {
    if a <= b then a else b
  }

  function Max(a: real, b: real): real
  {
    if a >= b then a else b
  }

  /** Scaling by a non-negative factor keeps an order. */
  lemma MulMono(a: real, b: real, k: real)
    requires a <= b && 0.0 <= k
    ensures a * k <= b * k
  {
  }

  /** Scaling by a positive factor keeps a strict order. */
  lemma MulStrict(a: real, b: real, k: real)
    requires a < b && 0.0 < k
    ensures a * k < b * k
  {
  }
}
