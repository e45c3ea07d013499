/** Rust's `u32` and the two operators on it that the grid sizes use. */
module U32 {

  const MODULUS: nat := 0x1_0000_0000
  const MAX: nat := 0xFFFF_FFFF

  type u32 = x: nat | x < 0x1_0000_0000

  /**
   * The pair Rust's `overflowing_add` and `overflowing_mul` return: the result
   * wrapped to 32 bits (what a build without overflow checks computes) and
   * whether the exact result exceeded `u32::MAX` (where a build with overflow
   * checks panics).
   */
  datatype Overflowing = Overflowing(value: u32, overflowed: bool)

  function OverflowingAdd(a: u32, b: u32): (r: Overflowing)
    ensures !r.overflowed ==> r.value == a + b
    ensures r.overflowed ==> r.value + MODULUS == a + b
  {
    Overflowing((a + b) % MODULUS, a + b > MAX)
  }

  function OverflowingMul(a: u32, b: u32): (r: Overflowing)
    ensures r.overflowed <==> a * b > MAX
    ensures r.value == a * b % MODULUS
    ensures !r.overflowed ==> r.value == a * b
    ensures r.overflowed ==> r.value < a * b
  {
    Overflowing(a * b % MODULUS, a * b > MAX)
  }
}
