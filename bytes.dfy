/**
 * The C fixed-width integer types the application uses (uint8_t, uint16_t,
 * uint32_t), and their little-endian byte layout (the target is a
 * little-endian Cortex-M, so `memcpy` of a 16- or 32-bit value lays out the
 * low byte first).
 */
module Bytes {
  newtype u8 = x: int | 0 <= x < 0x100
  newtype u16 = x: int | 0 <= x < 0x1_0000
  newtype u32 = x: int | 0 <= x < 0x1_0000_0000

  /**
   * Storing a non-negative integer into a uint8_t. Only values below 256 are
   * stated to survive unchanged; every Length octet the model stores is one.
   */
  function Trunc8(n: nat): (b: u8)
    ensures n < 0x100 ==> b as int == n
  {
    (n % 0x100) as u8
  }

  /** The two bytes `memcpy(dst, &x, 2)` writes for a uint16_t `x`. */
  function Le16(x: u16): (b: seq<u8>)
    ensures |b| == 2
    ensures b[0] as int + 0x100 * b[1] as int == x as int
  {
    [(x % 0x100) as u8, (x / 0x100) as u8]
  }

  /** The four bytes a uint32_t `x` occupies in memory. */
  function Le32(x: u32): (b: seq<u8>)
    ensures |b| == 4
    ensures b[0] as int + 0x100 * b[1] as int + 0x1_0000 * b[2] as int
            + 0x100_0000 * b[3] as int == x as int
  {
    var n := x as int;
    var q0 := n / 0x100;
    var q1 := q0 / 0x100;
    assert n == n % 0x100 + 0x100 * q0;
    assert q0 == q0 % 0x100 + 0x100 * q1;
    assert q1 == q1 % 0x100 + 0x100 * (q1 / 0x100);
    assert q1 < 0x1_0000;
    [(n % 0x100) as u8, (q0 % 0x100) as u8, (q1 % 0x100) as u8, (q1 / 0x100) as u8]
  }
}
