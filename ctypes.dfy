/**
 * The C integer conversions the Modbus binding applies to Lua
 * integers (64-bit `lua_Integer`). Every cast in the C code is written out
 * here as an explicit reduction, so that the model never silently assumes a
 * value is in range.
 */
module CTypes {

  const TWO_8: int := 0x100
  const TWO_16: int := 0x1_0000
  const TWO_31: int := 0x8000_0000
  const TWO_32: int := 0x1_0000_0000
  const TWO_63: int := 0x8000_0000_0000_0000
  const TWO_64: int := 0x1_0000_0000_0000_0000

  /** `uint8_t`, and the low byte of a `char`. */
  type Byte = x: int | 0 <= x < 0x100
  /** `uint16_t`, the type of a Modbus register. */
  type UInt16 = x: int | 0 <= x < 0x1_0000
  /** `unsigned int` (32 bits). */
  type UInt32 = x: int | 0 <= x < 0x1_0000_0000
  /** `int` (32 bits, two's complement). */
  type Int32 = x: int | -0x8000_0000 <= x < 0x8000_0000
  /** `size_t` (64 bits). */
  type SizeT = x: int | 0 <= x < 0x1_0000_0000_0000_0000

  /** `(unsigned int) x`: reduction modulo 2^32. */
  function ToUInt32(x: int): (r: UInt32)
    ensures (x - r) % TWO_32 == 0
    ensures 0 <= x < TWO_32 ==> r == x
  {
    x % TWO_32
  }

  /** `(int) x` as the compilers the project targets perform it: the
      two's-complement value with the same low 32 bits. */
  function ToInt32(x: int): (r: Int32)
    ensures (x - r) % TWO_32 == 0
    ensures -TWO_31 <= x < TWO_31 ==> r == x
  {
    var u := x % TWO_32;
    if u < TWO_31 then u else u - TWO_32
  }

  /** `(uint16_t) x`: reduction modulo 2^16. */
  function ToUInt16(x: int): (r: UInt16)
    ensures (x - r) % TWO_16 == 0
    ensures 0 <= x < TWO_16 ==> r == x
  {
    x % TWO_16
  }

  /** `(size_t) x`: reduction modulo 2^64, so -1 becomes SIZE_MAX. */
  function ToSizeT(x: int): (r: SizeT)
    ensures (x - r) % TWO_64 == 0
    ensures 0 <= x < TWO_64 ==> r == x
    ensures x < 0 && -TWO_64 <= x ==> r == x + TWO_64
  {
    x % TWO_64
  }

  /** The low byte of `(char) x`; whether `char` is signed does not change
      the bits handed on. */
  function ToByte(x: int): (r: Byte)
    ensures (x - r) % TWO_8 == 0
    ensures 0 <= x < TWO_8 ==> r == x
  {
    x % TWO_8
  }

  /** An `int` converted on to `uint16_t` keeps the low 16 bits of the
      original Lua integer: truncating to 32 bits first loses nothing. */
  lemma UInt16OfInt32(x: int)
    ensures ToUInt16(ToInt32(x)) == ToUInt16(x)
  {
  }
}
