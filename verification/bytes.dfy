/** Byte-level building blocks shared by the image format and the tracker. */
module Bytes {

  type byte = x: int | 0 <= x < 0x100

  /** An unsigned 16-bit field. */
  type u16 = x: nat | x < 0x1_0000

  /** A 3-bit field inside a packed byte. */
  type u3 = x: nat | x < 8

  function Pow2(k: nat): (p: nat)
    ensures p >= 1
  {
    if k == 0 then 1 else 2 * Pow2(k - 1)
  }

  /** Low (first-written) byte of a 16-bit value. */
  function Lo(v: u16): byte {
    v % 0x100
  }

  /** High (second-written) byte of a 16-bit value. */
  function Hi(v: u16): byte {
    v / 0x100
  }

  /** The value of a little-endian byte pair. */
  function FromLittleEndian16(lo: byte, hi: byte): u16 {
    lo + 0x100 * hi
  }

  /** Reading the two bytes back gives the value. */
  lemma LittleEndian16RoundTrip(v: u16)
    ensures FromLittleEndian16(Lo(v), Hi(v)) == v
  {
  }

  /** Bit `i` of a byte string, bits numbered from the least significant bit of the first byte. */
  function Bit(data: seq<byte>, i: nat): (b: nat)
    requires i < 8 * |data|
    ensures b < 2
  {
    (data[i / 8] / Pow2(i % 8)) % 2
  }
}
