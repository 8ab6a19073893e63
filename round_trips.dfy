/** What a caller of the accessors can count on: a value written at an
    address reads back unchanged in the same byte order and byte-reversed in
    the other, and the bytes before and after the written ones keep their
    contents. */
module RoundTrips {
  import opened ByteOrder
  import opened JavaLang
  import opened UnsafeMemory
  import opened ByteBufferUtil

  /** The frame of a write of `width` bytes at `address`: the memory below
      and above the block is as it was. */
  lemma WriteFrame(before: seq<bv8>, after: seq<bv8>, address: int, bs: seq<bv8>)
    requires 0 <= address && address + |bs| <= |before|
    requires after == Splice(before, address, bs)
    ensures after[..address] == before[..address]
    ensures after[address + |bs|..] == before[address + |bs|..]
  {
    SpliceOutside(before, address, bs, 0, address);
    SpliceOutside(before, address, bs, address + |bs|, |before|);
  }

  /** `setShort` stores the low 16 bits of its `int` argument. */
  method ShortRoundTrip(util: UnsafeByteBufferUtil, address: int, value: bv32) returns (r: bv16, rLE: bv16)
    requires util.unsafe.Addressable(address, 2)
    modifies util.unsafe.memory
    ensures r == IntToShort(value) && rLE == ReverseBytes16(IntToShort(value))
    ensures util.unsafe.memory[..address] == old(util.unsafe.memory[..address])
    ensures util.unsafe.memory[address + 2..] == old(util.unsafe.memory[address + 2..])
  {
    ghost var m := util.unsafe.memory[..];
    util.SetShort(address, value);
    WriteFrame(m, util.unsafe.memory[..], address, Encode16(BigEndian, IntToShort(value)));
    util.ShortLaidOut(address, IntToShort(value));
    r, rLE := util.GetShort(address), util.GetShortLE(address);
  }

  method ShortLERoundTrip(util: UnsafeByteBufferUtil, address: int, value: bv32) returns (r: bv16, rBE: bv16)
    requires util.unsafe.Addressable(address, 2)
    modifies util.unsafe.memory
    ensures r == IntToShort(value) && rBE == ReverseBytes16(IntToShort(value))
    ensures util.unsafe.memory[..address] == old(util.unsafe.memory[..address])
    ensures util.unsafe.memory[address + 2..] == old(util.unsafe.memory[address + 2..])
  {
    ghost var m := util.unsafe.memory[..];
    util.SetShortLE(address, value);
    WriteFrame(m, util.unsafe.memory[..], address, Encode16(LittleEndian, IntToShort(value)));
    util.ShortLaidOutLE(address, IntToShort(value));
    r, rBE := util.GetShortLE(address), util.GetShort(address);
  }

  method IntRoundTrip(util: UnsafeByteBufferUtil, address: int, value: bv32) returns (r: bv32, rLE: bv32)
    requires util.unsafe.Addressable(address, 4)
    modifies util.unsafe.memory
    ensures r == value && rLE == ReverseBytes32(value)
    ensures util.unsafe.memory[..address] == old(util.unsafe.memory[..address])
    ensures util.unsafe.memory[address + 4..] == old(util.unsafe.memory[address + 4..])
  {
    ghost var m := util.unsafe.memory[..];
    util.SetInt(address, value);
    WriteFrame(m, util.unsafe.memory[..], address, Encode32(BigEndian, value));
    util.IntLaidOut(address, value);
    r, rLE := util.GetInt(address), util.GetIntLE(address);
  }

  method IntLERoundTrip(util: UnsafeByteBufferUtil, address: int, value: bv32) returns (r: bv32, rBE: bv32)
    requires util.unsafe.Addressable(address, 4)
    modifies util.unsafe.memory
    ensures r == value && rBE == ReverseBytes32(value)
    ensures util.unsafe.memory[..address] == old(util.unsafe.memory[..address])
    ensures util.unsafe.memory[address + 4..] == old(util.unsafe.memory[address + 4..])
  {
    ghost var m := util.unsafe.memory[..];
    util.SetIntLE(address, value);
    WriteFrame(m, util.unsafe.memory[..], address, Encode32(LittleEndian, value));
    util.IntLaidOutLE(address, value);
    r, rBE := util.GetIntLE(address), util.GetInt(address);
  }

  method LongRoundTrip(util: UnsafeByteBufferUtil, address: int, value: bv64) returns (r: bv64, rLE: bv64)
    requires util.unsafe.Addressable(address, 8)
    modifies util.unsafe.memory
    ensures r == value && rLE == ReverseBytes64(value)
    ensures util.unsafe.memory[..address] == old(util.unsafe.memory[..address])
    ensures util.unsafe.memory[address + 8..] == old(util.unsafe.memory[address + 8..])
  {
    ghost var m := util.unsafe.memory[..];
    util.SetLong(address, value);
    WriteFrame(m, util.unsafe.memory[..], address, Encode64(BigEndian, value));
    util.LongLaidOut(address, value);
    r, rLE := util.GetLong(address), util.GetLongLE(address);
  }

  method LongLERoundTrip(util: UnsafeByteBufferUtil, address: int, value: bv64) returns (r: bv64, rBE: bv64)
    requires util.unsafe.Addressable(address, 8)
    modifies util.unsafe.memory
    ensures r == value && rBE == ReverseBytes64(value)
    ensures util.unsafe.memory[..address] == old(util.unsafe.memory[..address])
    ensures util.unsafe.memory[address + 8..] == old(util.unsafe.memory[address + 8..])
  {
    ghost var m := util.unsafe.memory[..];
    util.SetLongLE(address, value);
    WriteFrame(m, util.unsafe.memory[..], address, Encode64(LittleEndian, value));
    util.LongLaidOutLE(address, value);
    r, rBE := util.GetLongLE(address), util.GetLong(address);
  }

  /** `setIntLE(address, 0x01020304)` stores the bytes 04 03 02 01, which
      `getInt` reads as 0x04030201. */
  method IntLEExample(util: UnsafeByteBufferUtil, address: int) returns (r: bv32)
    requires util.unsafe.Addressable(address, 4)
    modifies util.unsafe.memory
    ensures util.unsafe.memory[address..address + 4] == [4, 3, 2, 1]
    ensures r == 0x0403_0201
  {
    util.SetIntLE(address, 0x0102_0304);
    assert Encode32(LittleEndian, 0x0102_0304) == [4, 3, 2, 1];
    r := util.GetInt(address);
    Encode32Injective(BigEndian, r, 0x0403_0201);
  }
}
