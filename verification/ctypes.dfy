/**
 * The C integer types the firmware stores its values in and the conversions
 * the compiler inserts between them.
 *
 * The width of a plain C `int` depends on the board. This model assumes an
 * AVR Arduino, where `int` is 16 bits: EEPROM.get/put without
 * EEPROM.begin/commit is the AVR EEPROM interface.
 */
module CTypes {

  const INT_MIN: int := -0x8000
  const INT_MAX: int := 0x7FFF

  type byte = x: int | 0 <= x < 0x100
  type u16 = x: int | 0 <= x < 0x1_0000
  type u32 = x: int | 0 <= x < 0x1_0000_0000
  /** A signed 32-bit C `long`, the type of the load-cell driver's offset. */
  type i32 = x: int | -0x8000_0000 <= x < 0x8000_0000

  /** Conversion of a non-negative `int` to `uint16_t`: modulo 2^16. */
  function ToU16(x: nat): (r: u16)
    ensures x < 0x1_0000 ==> r == x
    ensures exists k: nat :: x == k * 0x1_0000 + r
  {
    var r := x % 0x1_0000;
    assert x == (x / 0x1_0000) * 0x1_0000 + r;
    r
  }

  /** Conversion of a `long` to `uint32_t`: modulo 2^32. */
  function ToU32(x: i32): (r: u32)
    ensures 0 <= x ==> r == x
    ensures x < 0 ==> r == x + 0x1_0000_0000
  {
    x % 0x1_0000_0000
  }

  /**
   * Conversion of a `uint32_t` to `long`: values above the `long` range wrap
   * around (the GCC behaviour for this implementation-defined conversion).
   */
  function ToI32(u: u32): (r: i32)
    ensures r % 0x1_0000_0000 == u
  {
    if u < 0x8000_0000 then u else u - 0x1_0000_0000
  }

  /** A `long` survives the round trip through a `uint32_t`. */
  lemma I32RoundTrip(x: i32)
    ensures ToI32(ToU32(x)) == x
  {
  }

  /** A `uint32_t` survives the round trip through a `long`. */
  lemma U32RoundTrip(u: u32)
    ensures ToU32(ToI32(u)) == u
  {
  }
}
