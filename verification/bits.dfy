/** Single-bit views of the 8-bit ports of the design under test. */
module Bits {
  /** A logic level as the testbench reads it: 0 or 1. */
  type Bit = b: int | 0 <= b <= 1

  /** The byte with only bit `k` set, `1 << k`. */
  function Mask(k: nat): bv8
    requires k < 8
  {
    [0x01, 0x02, 0x04, 0x08, 0x10, 0x20, 0x40, 0x80][k]
  }

  /** Bit `k` of the byte `x`, i.e. `(x >> k) & 1`. */
  function BitOf(x: bv8, k: nat): Bit
    requires k < 8
  {
    if x & Mask(k) == 0 then 0 else 1
  }

  /** Testing `x & (1 << k)` for non-zero reads the same bit as `BitOf`. */
  lemma MaskSelectsBit(x: bv8, k: nat)
    requires k < 8
    ensures x & (1 << k) != 0 <==> BitOf(x, k) == 1
  {
    if k == 0 {} else if k == 1 {} else if k == 2 {} else if k == 3 {}
    else if k == 4 {} else if k == 5 {} else if k == 6 {} else {}
  }
}
