/** Fixed-width helpers shared by both drivers: C's `uint32_t` and
    `uint16_t` values and 32-bit wrap-around. */
module Bits {

  const Two32: int := 0x1_0000_0000

  /** A C `uint32_t` (and `unsigned long` on the 32-bit target) as an integer. */
  type u32 = x: int | 0 <= x < 0x1_0000_0000

  /** A C `uint16_t` held in a 32-bit register value. */
  type u16 = x: bv32 | x <= 0xffff

  /** Unsigned wrap-around of a C expression evaluated in 32 bits. */
  function Wrap(x: int): (r: u32)
    ensures 0 <= x < Two32 ==> r == x
    ensures (r - x) % Two32 == 0
  {
    x % Two32
  }

  /** A 16-bit value is its own low half. */
  lemma LowHalfword(x: u16)
    ensures x & 0xffff == x
  {
  }
}
