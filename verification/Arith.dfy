/** Products and rounded-up quotients. */
module Arith {

  lemma MulMonotone(a: int, b: int, r: nat)
    requires a <= b
    ensures a * r <= b * r && r * a <= r * b
  {
  }

  function CeilDiv(x: int, d: nat): (q: int)
    requires d > 0
    ensures x >= 0 ==> q >= 0
  {
    (x + d - 1) / d
  }
}
