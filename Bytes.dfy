// Machine integers of the firmware, as subsets of the mathematical integers,
// with the explicit conversions the C/C++ code performs implicitly.
module Bytes {

  type byte = x: int | 0 <= x < 0x100
  type u16 = x: int | 0 <= x < 0x1_0000
  type u32 = x: int | 0 <= x < 0x1_0000_0000
  type i8 = x: int | -0x80 <= x < 0x80
  type i16 = x: int | -0x8000 <= x < 0x8000
  type i32 = x: int | -0x8000_0000 <= x < 0x8000_0000

  /** Two bytes stored least-significant first, as a packed little-endian field. */
  function Le16(lo: byte, hi: byte): (r: u16)
    ensures r % 0x100 == lo && r / 0x100 == hi
  {
    lo + hi * 0x100
  }

  /** Two bytes stored most-significant first (what ntohs yields on a little-endian CPU). */
  function Be16(hi: byte, lo: byte): (r: u16)
    ensures r == Le16(lo, hi)
  {
    hi * 0x100 + lo
  }

  /** Reinterpretation of an unsigned byte as int8_t (two's complement). */
  function AsI8(b: byte): (r: i8)
    ensures r % 0x100 == b
    ensures 0 <= r <==> b < 0x80
  {
    if b < 0x80 then b else b - 0x100
  }

  /** Reinterpretation of an unsigned 16-bit word as int16_t. */
  function AsI16(w: u16): (r: i16)
    ensures r % 0x1_0000 == w
    ensures 0 <= r <==> w < 0x8000
  {
    if w < 0x8000 then w else w - 0x1_0000
  }

  /** Reinterpretation of an unsigned 32-bit word as int32_t. */
  function AsI32(w: u32): (r: i32)
    ensures r % 0x1_0000_0000 == w
    ensures 0 <= r <==> w < 0x8000_0000
  {
    if w < 0x8000_0000 then w else w - 0x1_0000_0000
  }

  /** The conversion uint32_t(x) of a wider integer: reduction modulo 2^32. */
  function ToU32(x: int): (r: u32)
    ensures 0 <= x < 0x1_0000_0000 ==> r == x
    ensures -0x1_0000_0000 <= x < 0 ==> r == x + 0x1_0000_0000
  {
    x % 0x1_0000_0000
  }

  /** The conversion int32_t(x) of a wider integer (two's complement wrap-around). */
  function ToI32(x: int): (r: i32)
    ensures -0x8000_0000 <= x < 0x8000_0000 ==> r == x
  {
    AsI32(ToU32(x))
  }

  function Pow(b: nat, e: nat): (r: nat)
    ensures b > 0 ==> r > 0
  {
    if e == 0 then 1 else b * Pow(b, e - 1)
  }

  /** The unsigned value of bytes stored least-significant first. */
  function LittleEndian(b: seq<byte>): (r: nat)
    ensures r < Pow(0x100, |b|)
  {
    if |b| == 0 then 0 else b[0] + 0x100 * LittleEndian(b[1..])
  }

  /** The byte of a text string written in the 7-bit ASCII range. */
  predicate IsAscii(s: string) {
    forall i :: 0 <= i < |s| ==> s[i] as int < 0x80
  }

  function Ascii(s: string): (r: seq<byte>)
    requires IsAscii(s)
    ensures |r| == |s| && forall i :: 0 <= i < |s| ==> r[i] == s[i] as int
  {
    seq(|s|, i requires 0 <= i < |s| => s[i] as int)
  }
}
