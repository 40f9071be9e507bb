/** Powers and truncated subtraction, shared by the modules that count in them. */
module Numbers {

  ghost function Power2(k: nat): nat {
    if k == 0 then 1 else 2 * Power2(k - 1)
  }

  ghost function Pow10(k: nat): (p: nat)
    ensures p > 0
  {
    if k == 0 then 1 else 10 * Pow10(k - 1)
  }

  /** Subtraction that stops at zero, as a saturating one does on unsigned numbers. */
  function Monus(a: nat, b: nat): nat {
    if a < b then 0 else a - b
  }
}
