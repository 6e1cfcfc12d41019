/** Powers of two, for shifts. */
module PowersOfTwo {

  /** 2 to the power n. */
  function Power2(n: nat): (p: nat)
    ensures p >= 1
  {
    if n == 0 then 1 else 2 * Power2(n - 1)
  }
}
