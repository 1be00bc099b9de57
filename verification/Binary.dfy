/** Binary digits, their weights, and powers of two. */
module Binary {
  /** A bit as a number. */
  function Digit(b: bool): nat {
    if b then 1 else 0
  }

  /** What a bit of the given weight contributes to a number. */
  function Weigh(b: bool, weight: nat): nat {
    if b then weight else 0
  }

  function Pow2(n: nat): (p: nat)
    ensures p > 0
  {
    if n == 0 then 1 else 2 * Pow2(n - 1)
  }
}
