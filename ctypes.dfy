// Fixed-width unsigned integers of the simulator (U8, U16, U32 in globals.h)
// and the wrap-around that C arithmetic on them performs.

module CTypes {

  const TWO_8: int := 0x100
  const TWO_16: int := 0x1_0000
  const TWO_32: int := 0x1_0000_0000

  type u8 = x: int | 0 <= x < 0x100
  type u16 = x: int | 0 <= x < 0x1_0000
  type u32 = x: int | 0 <= x < 0x1_0000_0000

  /** Truncation of an unbounded value to 8 bits, as a cast to U8 does. */
  function Wrap8(x: int): (r: u8)
    ensures r == x % TWO_8
    ensures 0 <= x < TWO_8 ==> r == x
  {
    x % TWO_8
  }

  /** Truncation to 16 bits (cast to U16, or U16 arithmetic). */
  function Wrap16(x: int): (r: u16)
    ensures r == x % TWO_16
    ensures 0 <= x < TWO_16 ==> r == x
  {
    x % TWO_16
  }

  /** Truncation to 32 bits (U32 arithmetic). */
  function Wrap32(x: int): (r: u32)
    ensures r == x % TWO_32
    ensures 0 <= x < TWO_32 ==> r == x
  {
    x % TWO_32
  }

  /** 2 to the power n. */
  function Pow2(n: nat): (r: nat)
    ensures r >= 1
  {
    if n == 0 then 1 else 2 * Pow2(n - 1)
  }

  /** A logical right shift of a non-negative value: n halvings. */
  function Shr(x: nat, n: nat): (r: nat)
    ensures r <= x
    ensures n == 0 ==> r == x
  {
    if n == 0 then x else Shr(x / 2, n - 1)
  }

  /** A left shift of a non-negative value, without truncation: n doublings. */
  function Shl(x: nat, n: nat): (r: nat)
    ensures x <= r
    ensures r == x * Pow2(n)
  {
    if n == 0 then x else 2 * Shl(x, n - 1)
  }
}
