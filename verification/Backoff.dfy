/** Exponential backoff: delays that double, and their sum. */
module Backoff {

  function Pow2(n: nat): (p: nat)
    ensures p >= 1
  {
    if n == 0 then 1 else 2 * Pow2(n - 1)
  }

  /** The total of the delays d, 2d, 4d, ... before attempt `n`. */
  function Slept(d: real, n: nat): (total: real)
    ensures total == d * (Pow2(n) as real - 1.0)
  {
    if n == 0 then 0.0 else Slept(d, n - 1) + d * (Pow2(n - 1) as real)
  }
}
