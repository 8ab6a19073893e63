/** The parts of Java's integer semantics the accessors rely on.

    Java's `byte`, `short`, `int` and `long` are two's-complement values of
    8, 16, 32 and 64 bits, modelled here as `bv8`, `bv16`, `bv32` and `bv64`.
    Arithmetic on a `byte` first widens it to `int` (or `long`) by sign
    extension; a cast to a narrower type keeps the low bits. `>>>` is the
    logical shift `>>` of bit-vectors. The `ReverseBytesW` functions are
    `Short.reverseBytes`, `Integer.reverseBytes` and `Long.reverseBytes`:
    the last two written as the JDK writes them, the first in a form
    equivalent to the JDK's on every 16-bit value.
 */
module JavaLang {
  import opened ByteOrder

  /** `(int) b`: sign extension of a byte to an int. */
  function ByteToInt(b: bv8): (r: bv32)
    ensures Byte32(r, 0) == b
    ensures r >> 8 == if b < 0x80 then 0 else 0xFF_FFFF
    ensures r & 0xFF == b as bv32 && r << 24 == (b as bv32) << 24
  {
    if b < 0x80 then b as bv32 else (b as bv32) | 0xFFFF_FF00
  }

  /** `(long) b`: sign extension of a byte to a long. */
  function ByteToLong(b: bv8): (r: bv64)
    ensures Byte64(r, 0) == b
    ensures r >> 8 == if b < 0x80 then 0 else 0xFF_FFFF_FFFF_FFFF
    ensures r & 0xFF == b as bv64 && r << 56 == (b as bv64) << 56
  {
    if b < 0x80 then b as bv64 else (b as bv64) | 0xFFFF_FFFF_FFFF_FF00
  }

  /** `(short) v`: the low 16 bits of an int. */
  function IntToShort(v: bv32): (r: bv16)
    ensures Byte16(r, 0) == Byte32(v, 0) && Byte16(r, 1) == Byte32(v, 1)
  {
    (v & 0xFFFF) as bv16
  }

  /** `(byte) v`: the low 8 bits of an int. */
  function IntToByte(v: bv32): (r: bv8)
    ensures r == Byte32(v, 0)
  {
    (v & 0xFF) as bv8
  }

  /** `(byte) v`: the low 8 bits of a long. */
  function LongToByte(v: bv64): (r: bv8)
    ensures r == Byte64(v, 0)
  {
    (v & 0xFF) as bv8
  }

  /** `Short.reverseBytes`: the big-endian layout of the result is the
      little-endian layout of the argument, and the other way round. */
  function ReverseBytes16(v: bv16): (r: bv16)
    ensures Encode16(BigEndian, r) == Encode16(LittleEndian, v)
    ensures Encode16(LittleEndian, r) == Encode16(BigEndian, v)
  {
    (v >> 8) | (v << 8)
  }

  /** `Integer.reverseBytes`. */
  function ReverseBytes32(v: bv32): (r: bv32)
    ensures Encode32(BigEndian, r) == Encode32(LittleEndian, v)
    ensures Encode32(LittleEndian, r) == Encode32(BigEndian, v)
  {
    (v >> 24) | ((v >> 8) & 0xFF00) | ((v << 8) & 0xFF_0000) | (v << 24)
  }

  /** `Long.reverseBytes`: first the bytes of each 16-bit half-word are
      swapped, then the four half-words are reversed. */
  function ReverseBytes64(v: bv64): (r: bv64)
    ensures Encode64(BigEndian, r) == Encode64(LittleEndian, v)
    ensures Encode64(LittleEndian, r) == Encode64(BigEndian, v)
  {
    var i := ((v & 0x00FF_00FF_00FF_00FF) << 8) | ((v >> 8) & 0x00FF_00FF_00FF_00FF);
    var r := (i << 48) | ((i & 0xFFFF_0000) << 16) | ((i >> 16) & 0xFFFF_0000) | (i >> 48);
    Encode64Swapped(r, v);
    r
  }

  /** Reversing the bytes twice gives the value back. */
  lemma ReverseBytes16Involution(v: bv16)
    ensures ReverseBytes16(ReverseBytes16(v)) == v
  {
  }

  lemma ReverseBytes32Involution(v: bv32)
    ensures ReverseBytes32(ReverseBytes32(v)) == v
  {
  }

  lemma ReverseBytes64Involution(v: bv64)
    ensures ReverseBytes64(ReverseBytes64(v)) == v
  {
  }
}
