/** Byte layouts of 16-, 32- and 64-bit values.

    A value of width W occupies W consecutive bytes of memory. In big-endian
    order the most significant byte comes first; in little-endian order the
    least significant byte comes first. `EncodeW(order, v)` is the W bytes of
    `v` as they lie in memory, `DecodeW(order, bs)` reads them back. Everything
    the accessors promise is stated in these terms.
 */
module ByteOrder {

  datatype Order = BigEndian | LittleEndian

  /** Byte `k` of `v`, counting from the least significant byte. */
  function Byte16(v: bv16, k: nat): bv8
    requires k < 2
  {
    if k == 0 then (v & 0xFF) as bv8 else (v >> 8) as bv8
  }

  function Byte32(v: bv32, k: nat): bv8
    requires k < 4
  {
    match k
    case 0 => (v & 0xFF) as bv8
    case 1 => ((v >> 8) & 0xFF) as bv8
    case 2 => ((v >> 16) & 0xFF) as bv8
    case _ => (v >> 24) as bv8
  }

  function Byte64(v: bv64, k: nat): bv8
    requires k < 8
  {
    match k
    case 0 => (v & 0xFF) as bv8
    case 1 => ((v >> 8) & 0xFF) as bv8
    case 2 => ((v >> 16) & 0xFF) as bv8
    case 3 => ((v >> 24) & 0xFF) as bv8
    case 4 => ((v >> 32) & 0xFF) as bv8
    case 5 => ((v >> 40) & 0xFF) as bv8
    case 6 => ((v >> 48) & 0xFF) as bv8
    case _ => (v >> 56) as bv8
  }

  /** The value whose bytes, most significant first, are the arguments. */
  function Join16(b1: bv8, b0: bv8): bv16
  {
    ((b1 as bv16) << 8) | (b0 as bv16)
  }

  function Join32(b3: bv8, b2: bv8, b1: bv8, b0: bv8): bv32
  {
    ((b3 as bv32) << 24) | ((b2 as bv32) << 16) | ((b1 as bv32) << 8) | (b0 as bv32)
  }

  function Join64(b7: bv8, b6: bv8, b5: bv8, b4: bv8, b3: bv8, b2: bv8, b1: bv8, b0: bv8): bv64
  {
    ((b7 as bv64) << 56) | ((b6 as bv64) << 48) | ((b5 as bv64) << 40) | ((b4 as bv64) << 32) |
    ((b3 as bv64) << 24) | ((b2 as bv64) << 16) | ((b1 as bv64) << 8) | (b0 as bv64)
  }

  /** Taking a value apart into bytes and joining them again are inverse. */
  lemma Join16Bytes(v: bv16)
    ensures Join16(Byte16(v, 1), Byte16(v, 0)) == v
  {
  }

  lemma Bytes16Join(b1: bv8, b0: bv8)
    ensures Byte16(Join16(b1, b0), 1) == b1 && Byte16(Join16(b1, b0), 0) == b0
  {
  }

  lemma Join32Bytes(v: bv32)
    ensures Join32(Byte32(v, 3), Byte32(v, 2), Byte32(v, 1), Byte32(v, 0)) == v
  {
  }

  lemma Bytes32Join(b3: bv8, b2: bv8, b1: bv8, b0: bv8)
    ensures var v := Join32(b3, b2, b1, b0);
            Byte32(v, 3) == b3 && Byte32(v, 2) == b2 && Byte32(v, 1) == b1 && Byte32(v, 0) == b0
  {
  }

  lemma Join64Bytes(v: bv64)
    ensures Join64(Byte64(v, 7), Byte64(v, 6), Byte64(v, 5), Byte64(v, 4),
                   Byte64(v, 3), Byte64(v, 2), Byte64(v, 1), Byte64(v, 0)) == v
  {
  }

  lemma Bytes64Join(b7: bv8, b6: bv8, b5: bv8, b4: bv8, b3: bv8, b2: bv8, b1: bv8, b0: bv8)
    ensures var v := Join64(b7, b6, b5, b4, b3, b2, b1, b0);
            Byte64(v, 7) == b7 && Byte64(v, 6) == b6 && Byte64(v, 5) == b5 && Byte64(v, 4) == b4 &&
            Byte64(v, 3) == b3 && Byte64(v, 2) == b2 && Byte64(v, 1) == b1 && Byte64(v, 0) == b0
  {
  }

  // ---------------------------------------------------------------- 16 bits

  function Encode16(order: Order, v: bv16): (bs: seq<bv8>)
    ensures |bs| == 2
  {
    seq(2, k requires 0 <= k < 2 => Byte16(v, if order == BigEndian then 1 - k else k))
  }

  function Decode16(order: Order, bs: seq<bv8>): bv16
    requires |bs| == 2
  {
    if order == BigEndian then Join16(bs[0], bs[1]) else Join16(bs[1], bs[0])
  }

  lemma Decode16Encode16(order: Order, v: bv16)
    ensures Decode16(order, Encode16(order, v)) == v
  {
    Join16Bytes(v);
  }

  lemma Encode16Decode16(order: Order, bs: seq<bv8>)
    requires |bs| == 2
    ensures Encode16(order, Decode16(order, bs)) == bs
  {
    var v := Decode16(order, bs);
    if order == BigEndian { Bytes16Join(bs[0], bs[1]); } else { Bytes16Join(bs[1], bs[0]); }
  }

  /** Encoding is injective: the bytes determine the value. */
  lemma Encode16Injective(order: Order, v: bv16, w: bv16)
    requires Encode16(order, v) == Encode16(order, w)
    ensures v == w
  {
    Decode16Encode16(order, v);
    Decode16Encode16(order, w);
  }

  // ---------------------------------------------------------------- 32 bits

  function Encode32(order: Order, v: bv32): (bs: seq<bv8>)
    ensures |bs| == 4
  {
    seq(4, k requires 0 <= k < 4 => Byte32(v, if order == BigEndian then 3 - k else k))
  }

  function Decode32(order: Order, bs: seq<bv8>): bv32
    requires |bs| == 4
  {
    if order == BigEndian then Join32(bs[0], bs[1], bs[2], bs[3])
    else Join32(bs[3], bs[2], bs[1], bs[0])
  }

  lemma Decode32Encode32(order: Order, v: bv32)
    ensures Decode32(order, Encode32(order, v)) == v
  {
    Join32Bytes(v);
  }

  lemma Encode32Decode32(order: Order, bs: seq<bv8>)
    requires |bs| == 4
    ensures Encode32(order, Decode32(order, bs)) == bs
  {
    var v := Decode32(order, bs);
    if order == BigEndian {
      Bytes32Join(bs[0], bs[1], bs[2], bs[3]);
    } else {
      Bytes32Join(bs[3], bs[2], bs[1], bs[0]);
    }
  }

  lemma Encode32Injective(order: Order, v: bv32, w: bv32)
    requires Encode32(order, v) == Encode32(order, w)
    ensures v == w
  {
    Decode32Encode32(order, v);
    Decode32Encode32(order, w);
  }

  // ---------------------------------------------------------------- 64 bits

  function Encode64(order: Order, v: bv64): (bs: seq<bv8>)
    ensures |bs| == 8
  {
    seq(8, k requires 0 <= k < 8 => Byte64(v, if order == BigEndian then 7 - k else k))
  }

  function Decode64(order: Order, bs: seq<bv8>): bv64
    requires |bs| == 8
  {
    if order == BigEndian then Join64(bs[0], bs[1], bs[2], bs[3], bs[4], bs[5], bs[6], bs[7])
    else Join64(bs[7], bs[6], bs[5], bs[4], bs[3], bs[2], bs[1], bs[0])
  }

  lemma Decode64Encode64(order: Order, v: bv64)
    ensures Decode64(order, Encode64(order, v)) == v
  {
    Join64Bytes(v);
  }

  lemma Encode64Decode64(order: Order, bs: seq<bv8>)
    requires |bs| == 8
    ensures Encode64(order, Decode64(order, bs)) == bs
  {
    var v := Decode64(order, bs);
    if order == BigEndian {
      Bytes64Join(bs[0], bs[1], bs[2], bs[3], bs[4], bs[5], bs[6], bs[7]);
    } else {
      Bytes64Join(bs[7], bs[6], bs[5], bs[4], bs[3], bs[2], bs[1], bs[0]);
    }
  }

  lemma Encode64Injective(order: Order, v: bv64, w: bv64)
    requires Encode64(order, v) == Encode64(order, w)
    ensures v == w
  {
    Decode64Encode64(order, v);
    Decode64Encode64(order, w);
  }

  /** Two values whose bytes are each other's in reverse order have each
      other's layouts in the opposite order. */
  lemma Encode64Swapped(v: bv64, w: bv64)
    requires Byte64(v, 0) == Byte64(w, 7) && Byte64(v, 1) == Byte64(w, 6)
    requires Byte64(v, 2) == Byte64(w, 5) && Byte64(v, 3) == Byte64(w, 4)
    requires Byte64(v, 4) == Byte64(w, 3) && Byte64(v, 5) == Byte64(w, 2)
    requires Byte64(v, 6) == Byte64(w, 1) && Byte64(v, 7) == Byte64(w, 0)
    ensures Encode64(BigEndian, v) == Encode64(LittleEndian, w)
    ensures Encode64(LittleEndian, v) == Encode64(BigEndian, w)
  {
  }
}
