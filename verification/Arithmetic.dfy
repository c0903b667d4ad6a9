/** Products, kept out of the way of other proofs. */
module Arithmetic {

  lemma MulMonotone(a: int, b: int, w: int)
    requires a <= b && w >= 0
    ensures a * w <= b * w
  {
  }
}
