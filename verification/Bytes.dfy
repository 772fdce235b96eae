/** Bytes, and powers of their number of values. */
module Bytes {

  newtype byte = x: int | 0 <= x < 256

  function Power(n: nat): (p: nat)
    ensures p > 0
  {
    if n == 0 then 1 else 256 * Power(n - 1)
  }

  const U64: nat := 0x1_0000_0000_0000_0000

  lemma EightBytes()
    ensures Power(8) == U64
  {
    assert Power(4) == 0x1_0000_0000;
    assert Power(5) == 0x100_0000_0000;
    assert Power(6) == 0x1_0000_0000_0000;
    assert Power(7) == 0x100_0000_0000_0000;
  }
}
