/** The byte-order and copy layer beneath an off-heap buffer.

    `UnsafeByteBufferUtil` reads and writes 8-, 16-, 32- and 64-bit integers
    at raw addresses, big-endian (no suffix) or little-endian (`LE`), and
    moves blocks of bytes between memory and byte arrays. Each scalar
    accessor has a fast path (one native access, byte-swapped when the
    requested order is not the native one), taken when the platform allows
    unaligned access, and a fallback that assembles the value byte by byte.
    Both paths meet the same contract, so the choice is never observable.
 */
module ByteBufferUtil {
  import opened ByteOrder
  import opened JavaLang
  import opened UnsafeMemory

  datatype Option<T> = None | Some(value: T)

  /** Up to this many bytes, a transfer to or from a byte array is done
      byte by byte; above it, with the bulk copy. */
  const JNI_COPY_TO_ARRAY_THRESHOLD: int := 6
  const JNI_COPY_FROM_ARRAY_THRESHOLD: int := 6

  /** The largest number of bytes one call of the bulk copy moves. */
  const UNSAFE_COPY_THRESHOLD: int := 1024 * 1024

  function Min(a: int, b: int): int
  {
    if a < b then a else b
  }

  /** One call of the bulk copy primitive. */
  datatype Chunk = Chunk(srcOffset: int, dstOffset: int, size: int)

  /** The calls `CopyMemory` makes to copy `length` bytes: chunks of at most
      `UNSAFE_COPY_THRESHOLD` bytes, offsets advancing by each chunk's size. */
  function ChunkPlan(srcOffset: int, dstOffset: int, length: int): seq<Chunk>
    decreases length
  {
    if length <= 0 then []
    else
      var size := Min(length, UNSAFE_COPY_THRESHOLD);
      [Chunk(srcOffset, dstOffset, size)] + ChunkPlan(srcOffset + size, dstOffset + size, length - size)
  }

  /** The sum of the sizes of `chunks`. */
  function TotalSize(chunks: seq<Chunk>): int
  {
    if chunks == [] then 0 else chunks[0].size + TotalSize(chunks[1..])
  }

  /** `calls` are the first calls of the plan for `length` bytes, and the
      rest of it is the plan for the `remaining` bytes from `srcAt` and `dstAt`. */
  ghost predicate PlanProgress(calls: seq<Chunk>, srcOffset: int, dstOffset: int, length: int,
                               srcAt: int, dstAt: int, remaining: int)
  {
    calls + ChunkPlan(srcAt, dstAt, remaining) == ChunkPlan(srcOffset, dstOffset, length)
  }

  /** Making the next call of the plan keeps the progress. */
  lemma ChunkPlanStep(calls: seq<Chunk>, srcOffset: int, dstOffset: int, length: int,
                      srcAt: int, dstAt: int, remaining: int)
    requires remaining > 0
    requires PlanProgress(calls, srcOffset, dstOffset, length, srcAt, dstAt, remaining)
    ensures var size := Min(remaining, UNSAFE_COPY_THRESHOLD);
            PlanProgress(calls + [Chunk(srcAt, dstAt, size)], srcOffset, dstOffset, length,
                         srcAt + size, dstAt + size, remaining - size)
  {
  }

  /** Chunk `i` of the plan starts `i` full chunks into both ranges and is
      full-sized unless fewer bytes than that remain. */
  lemma {:induction false} ChunkPlanAt(srcOffset: int, dstOffset: int, length: int, i: int)
    requires 0 <= i < |ChunkPlan(srcOffset, dstOffset, length)|
    ensures ChunkPlan(srcOffset, dstOffset, length)[i] ==
            Chunk(srcOffset + i * UNSAFE_COPY_THRESHOLD, dstOffset + i * UNSAFE_COPY_THRESHOLD,
                  Min(length - i * UNSAFE_COPY_THRESHOLD, UNSAFE_COPY_THRESHOLD))
    decreases length
  {
    if i > 0 {
      var size := Min(length, UNSAFE_COPY_THRESHOLD);
      ChunkPlanAt(srcOffset + size, dstOffset + size, length - size, i - 1);
    }
  }

  /** The number of calls is `length` divided by the chunk limit, rounded up. */
  lemma {:induction false} ChunkPlanCount(srcOffset: int, dstOffset: int, length: int)
    ensures |ChunkPlan(srcOffset, dstOffset, length)| ==
            if length <= 0 then 0 else (length + UNSAFE_COPY_THRESHOLD - 1) / UNSAFE_COPY_THRESHOLD
    decreases length
  {
    if length > UNSAFE_COPY_THRESHOLD {
      ChunkPlanCount(srcOffset + UNSAFE_COPY_THRESHOLD, dstOffset + UNSAFE_COPY_THRESHOLD,
                     length - UNSAFE_COPY_THRESHOLD);
    }
  }

  /** Every call moves at least one and at most `UNSAFE_COPY_THRESHOLD` bytes. */
  lemma ChunkPlanBounded(srcOffset: int, dstOffset: int, length: int)
    ensures forall c :: c in ChunkPlan(srcOffset, dstOffset, length) ==>
              0 < c.size <= UNSAFE_COPY_THRESHOLD
  {
    var plan := ChunkPlan(srcOffset, dstOffset, length);
    forall c | c in plan
      ensures 0 < c.size <= UNSAFE_COPY_THRESHOLD
    {
      var i :| 0 <= i < |plan| && plan[i] == c;
      ChunkPlanAt(srcOffset, dstOffset, length, i);
      ChunkPlanCount(srcOffset, dstOffset, length);
    }
  }

  /** The chunks together cover the whole request: nothing is skipped and
      nothing is copied twice. */
  lemma {:induction false} ChunkPlanTotal(srcOffset: int, dstOffset: int, length: int)
    ensures TotalSize(ChunkPlan(srcOffset, dstOffset, length)) == if length <= 0 then 0 else length
    decreases length
  {
    if length > 0 {
      var size := Min(length, UNSAFE_COPY_THRESHOLD);
      var plan := ChunkPlan(srcOffset, dstOffset, length);
      assert plan[1..] == ChunkPlan(srcOffset + size, dstOffset + size, length - size);
      ChunkPlanTotal(srcOffset + size, dstOffset + size, length - size);
    }
  }

  /** Three full chunks and 17 bytes take four calls. */
  lemma ChunkPlanFourCalls(srcOffset: int, dstOffset: int)
    ensures |ChunkPlan(srcOffset, dstOffset, 3 * UNSAFE_COPY_THRESHOLD + 17)| == 4
  {
    ChunkPlanCount(srcOffset, dstOffset, 3 * UNSAFE_COPY_THRESHOLD + 17);
  }

  /** The bytes the fallback writers store, `(byte) (value >>> 8k)`, are the
      value's layout. */
  lemma ShiftedBytes32(value: bv32)
    ensures Encode32(BigEndian, value) ==
            [IntToByte(value >> 24), IntToByte(value >> 16), IntToByte(value >> 8), IntToByte(value)]
    ensures Encode32(LittleEndian, value) ==
            [IntToByte(value), IntToByte(value >> 8), IntToByte(value >> 16), IntToByte(value >> 24)]
  {
  }

  lemma ShiftedBytesOf64(value: bv64)
    ensures LongToByte(value >> 56) == Byte64(value, 7) && LongToByte(value >> 48) == Byte64(value, 6)
    ensures LongToByte(value >> 40) == Byte64(value, 5) && LongToByte(value >> 32) == Byte64(value, 4)
    ensures LongToByte(value >> 24) == Byte64(value, 3) && LongToByte(value >> 16) == Byte64(value, 2)
    ensures LongToByte(value >> 8) == Byte64(value, 1) && LongToByte(value) == Byte64(value, 0)
  {
  }

  lemma ShiftedBytes64(value: bv64)
    ensures Encode64(BigEndian, value) ==
            [LongToByte(value >> 56), LongToByte(value >> 48), LongToByte(value >> 40), LongToByte(value >> 32),
             LongToByte(value >> 24), LongToByte(value >> 16), LongToByte(value >> 8), LongToByte(value)]
  {
    ShiftedBytesOf64(value);
  }

  lemma ShiftedBytes64LE(value: bv64)
    ensures Encode64(LittleEndian, value) ==
            [LongToByte(value), LongToByte(value >> 8), LongToByte(value >> 16), LongToByte(value >> 24),
             LongToByte(value >> 32), LongToByte(value >> 40), LongToByte(value >> 48), LongToByte(value >> 56)]
  {
    ShiftedBytesOf64(value);
  }

  /** The fallback readers' arithmetic. Each byte is sign-extended by the
      widening to `int` or `long`; the masks with `0xFF` and the shifts
      discard the copies of its sign bit, so what remains is the bytes side
      by side, in the order given. Arguments are in address order. */
  function ShortOfBytes(b0: bv8, b1: bv8): (r: bv16)
    ensures r == Join16(b0, b1)
  {
    IntToShort((ByteToInt(b0) << 8) | (ByteToInt(b1) & 0xFF))
  }

  function ShortLEOfBytes(b0: bv8, b1: bv8): (r: bv16)
    ensures r == Join16(b1, b0)
  {
    IntToShort((ByteToInt(b0) & 0xFF) | (ByteToInt(b1) << 8))
  }

  function IntOfBytes(b0: bv8, b1: bv8, b2: bv8, b3: bv8): (r: bv32)
    ensures r == Join32(b0, b1, b2, b3)
  {
    (ByteToInt(b0) << 24) | ((ByteToInt(b1) & 0xFF) << 16) |
    ((ByteToInt(b2) & 0xFF) << 8) | (ByteToInt(b3) & 0xFF)
  }

  function IntLEOfBytes(b0: bv8, b1: bv8, b2: bv8, b3: bv8): (r: bv32)
    ensures r == Join32(b3, b2, b1, b0)
  {
    (ByteToInt(b0) & 0xFF) | ((ByteToInt(b1) & 0xFF) << 8) |
    ((ByteToInt(b2) & 0xFF) << 16) | (ByteToInt(b3) << 24)
  }

  function LongOfBytes(b0: bv8, b1: bv8, b2: bv8, b3: bv8, b4: bv8, b5: bv8, b6: bv8, b7: bv8): (r: bv64)
    ensures r == Join64(b0, b1, b2, b3, b4, b5, b6, b7)
  {
    (ByteToLong(b0) << 56) | ((ByteToLong(b1) & 0xFF) << 48) |
    ((ByteToLong(b2) & 0xFF) << 40) | ((ByteToLong(b3) & 0xFF) << 32) |
    ((ByteToLong(b4) & 0xFF) << 24) | ((ByteToLong(b5) & 0xFF) << 16) |
    ((ByteToLong(b6) & 0xFF) << 8) | (ByteToLong(b7) & 0xFF)
  }

  function LongLEOfBytes(b0: bv8, b1: bv8, b2: bv8, b3: bv8, b4: bv8, b5: bv8, b6: bv8, b7: bv8): (r: bv64)
    ensures r == Join64(b7, b6, b5, b4, b3, b2, b1, b0)
  {
    (ByteToLong(b0) & 0xFF) | ((ByteToLong(b1) & 0xFF) << 8) |
    ((ByteToLong(b2) & 0xFF) << 16) | ((ByteToLong(b3) & 0xFF) << 24) |
    ((ByteToLong(b4) & 0xFF) << 32) | ((ByteToLong(b5) & 0xFF) << 40) |
    ((ByteToLong(b6) & 0xFF) << 48) | (ByteToLong(b7) << 56)
  }

  /** The value of `UNALIGNED` the capability probe settles on: the result
      of `java.nio.Bits.unaligned()`, or false when asking for it threw. */
  function UnalignedFromProbe(probe: Option<bool>): (unaligned: bool)
    ensures unaligned <==> probe == Some(true)
  {
    match probe
    case Some(b) => b
    case None => false
  }

  class UnsafeByteBufferUtil {
    const unsafe: Unsafe
    const UNALIGNED: bool
    const BIG_ENDIAN_NATIVE_ORDER: bool := unsafe.nativeOrder == BigEndian

    /** The capability probe, given the outcome of asking the platform
        whether unaligned access is allowed. */
    constructor (unsafe: Unsafe, probe: Option<bool>)
      ensures this.unsafe == unsafe && UNALIGNED == UnalignedFromProbe(probe)
    {
      this.unsafe := unsafe;
      UNALIGNED := UnalignedFromProbe(probe);
    }

    // ------------------------------------------------------------- reads

    function GetByte(address: int): (r: bv8)
      reads unsafe.memory
      requires unsafe.Addressable(address, 1)
      ensures r == unsafe.memory[address]
    {
      unsafe.GetByte(address)
    }

    /** Big-endian 16-bit read. */
    function GetShort(address: int): (r: bv16)
      reads unsafe.memory
      requires unsafe.Addressable(address, 2)
      ensures Encode16(BigEndian, r) == unsafe.memory[address..address + 2]
    {
      if UNALIGNED then
        var v := unsafe.GetShort(address);
        if BIG_ENDIAN_NATIVE_ORDER then v else ReverseBytes16(v)
      else
        Encode16Decode16(BigEndian, unsafe.memory[address..address + 2]);
        ShortOfBytes(unsafe.GetByte(address), unsafe.GetByte(address + 1))
    }

    /** Little-endian 16-bit read. */
    function GetShortLE(address: int): (r: bv16)
      reads unsafe.memory
      requires unsafe.Addressable(address, 2)
      ensures Encode16(LittleEndian, r) == unsafe.memory[address..address + 2]
    {
      if UNALIGNED then
        var v := unsafe.GetShort(address);
        if BIG_ENDIAN_NATIVE_ORDER then ReverseBytes16(v) else v
      else
        Encode16Decode16(LittleEndian, unsafe.memory[address..address + 2]);
        ShortLEOfBytes(unsafe.GetByte(address), unsafe.GetByte(address + 1))
    }

    /** Big-endian 32-bit read. */
    function GetInt(address: int): (r: bv32)
      reads unsafe.memory
      requires unsafe.Addressable(address, 4)
      ensures Encode32(BigEndian, r) == unsafe.memory[address..address + 4]
    {
      if UNALIGNED then
        var v := unsafe.GetInt(address);
        if BIG_ENDIAN_NATIVE_ORDER then v else ReverseBytes32(v)
      else
        Encode32Decode32(BigEndian, unsafe.memory[address..address + 4]);
        IntOfBytes(unsafe.GetByte(address), unsafe.GetByte(address + 1),
                   unsafe.GetByte(address + 2), unsafe.GetByte(address + 3))
    }

    /** Little-endian 32-bit read. */
    function GetIntLE(address: int): (r: bv32)
      reads unsafe.memory
      requires unsafe.Addressable(address, 4)
      ensures Encode32(LittleEndian, r) == unsafe.memory[address..address + 4]
    {
      if UNALIGNED then
        var v := unsafe.GetInt(address);
        if BIG_ENDIAN_NATIVE_ORDER then ReverseBytes32(v) else v
      else
        Encode32Decode32(LittleEndian, unsafe.memory[address..address + 4]);
        IntLEOfBytes(unsafe.GetByte(address), unsafe.GetByte(address + 1),
                    unsafe.GetByte(address + 2), unsafe.GetByte(address + 3))
    }

    /** Big-endian 64-bit read. */
    function GetLong(address: int): (r: bv64)
      reads unsafe.memory
      requires unsafe.Addressable(address, 8)
      ensures Encode64(BigEndian, r) == unsafe.memory[address..address + 8]
    {
      if UNALIGNED then
        var v := unsafe.GetLong(address);
        if BIG_ENDIAN_NATIVE_ORDER then v else ReverseBytes64(v)
      else
        Encode64Decode64(BigEndian, unsafe.memory[address..address + 8]);
        LongOfBytes(unsafe.GetByte(address), unsafe.GetByte(address + 1),
                    unsafe.GetByte(address + 2), unsafe.GetByte(address + 3),
                    unsafe.GetByte(address + 4), unsafe.GetByte(address + 5),
                    unsafe.GetByte(address + 6), unsafe.GetByte(address + 7))
    }

    /** Little-endian 64-bit read. */
    function GetLongLE(address: int): (r: bv64)
      reads unsafe.memory
      requires unsafe.Addressable(address, 8)
      ensures Encode64(LittleEndian, r) == unsafe.memory[address..address + 8]
    {
      if UNALIGNED then
        var v := unsafe.GetLong(address);
        if BIG_ENDIAN_NATIVE_ORDER then ReverseBytes64(v) else v
      else
        Encode64Decode64(LittleEndian, unsafe.memory[address..address + 8]);
        LongLEOfBytes(unsafe.GetByte(address), unsafe.GetByte(address + 1),
                       unsafe.GetByte(address + 2), unsafe.GetByte(address + 3),
                       unsafe.GetByte(address + 4), unsafe.GetByte(address + 5),
                       unsafe.GetByte(address + 6), unsafe.GetByte(address + 7))
    }

    // ------------------------------------------- properties of the reads

    /** Reading big-endian gives the byte-reversed little-endian reading. */
    lemma ShortOrdersReversed(address: int)
      requires unsafe.Addressable(address, 2)
      ensures GetShort(address) == ReverseBytes16(GetShortLE(address))
    {
    }

    lemma IntOrdersReversed(address: int)
      requires unsafe.Addressable(address, 4)
      ensures GetInt(address) == ReverseBytes32(GetIntLE(address))
    {
    }

    lemma LongOrdersReversed(address: int)
      requires unsafe.Addressable(address, 8)
      ensures GetLong(address) == ReverseBytes64(GetLongLE(address))
    {
    }

    /** A reading does not depend on `UNALIGNED`: an instance over the same
        memory with the other path, or the same one, reads the same values. */
    lemma ShortPathsAgree(other: UnsafeByteBufferUtil, address: int)
      requires other.unsafe == unsafe && unsafe.Addressable(address, 2)
      ensures other.GetShort(address) == GetShort(address)
      ensures other.GetShortLE(address) == GetShortLE(address)
    {
      Encode16Injective(BigEndian, other.GetShort(address), GetShort(address));
      Encode16Injective(LittleEndian, other.GetShortLE(address), GetShortLE(address));
    }

    lemma IntPathsAgree(other: UnsafeByteBufferUtil, address: int)
      requires other.unsafe == unsafe && unsafe.Addressable(address, 4)
      ensures other.GetInt(address) == GetInt(address)
      ensures other.GetIntLE(address) == GetIntLE(address)
    {
      Encode32Injective(BigEndian, other.GetInt(address), GetInt(address));
      Encode32Injective(LittleEndian, other.GetIntLE(address), GetIntLE(address));
    }

    lemma LongPathsAgree(other: UnsafeByteBufferUtil, address: int)
      requires other.unsafe == unsafe && unsafe.Addressable(address, 8)
      ensures other.GetLong(address) == GetLong(address)
      ensures other.GetLongLE(address) == GetLongLE(address)
    {
      Encode64Injective(BigEndian, other.GetLong(address), GetLong(address));
      Encode64Injective(LittleEndian, other.GetLongLE(address), GetLongLE(address));
    }

    /** Memory holding the big-endian layout of `v` reads back as `v` in big-endian
        order and as `v` with its bytes reversed in little-endian order. */
    lemma ShortLaidOut(address: int, v: bv16)
      requires unsafe.Addressable(address, 2)
      requires unsafe.memory[address..address + 2] == Encode16(BigEndian, v)
      ensures GetShort(address) == v
      ensures GetShortLE(address) == ReverseBytes16(v)
    {
      // Not needed for correctness; keeps the proof cheap.
      Encode16Injective(BigEndian, GetShort(address), v);
      Encode16Injective(LittleEndian, GetShortLE(address), ReverseBytes16(v));
    }

    lemma IntLaidOut(address: int, v: bv32)
      requires unsafe.Addressable(address, 4)
      requires unsafe.memory[address..address + 4] == Encode32(BigEndian, v)
      ensures GetInt(address) == v
      ensures GetIntLE(address) == ReverseBytes32(v)
    {
      Encode32Injective(BigEndian, GetInt(address), v);
      Encode32Injective(LittleEndian, GetIntLE(address), ReverseBytes32(v));
    }

    lemma LongLaidOut(address: int, v: bv64)
      requires unsafe.Addressable(address, 8)
      requires unsafe.memory[address..address + 8] == Encode64(BigEndian, v)
      ensures GetLong(address) == v
      ensures GetLongLE(address) == ReverseBytes64(v)
    {
      Encode64Injective(BigEndian, GetLong(address), v);
      Encode64Injective(LittleEndian, GetLongLE(address), ReverseBytes64(v));
    }

    /** The same for memory holding the little-endian layout of `v`. */
    lemma ShortLaidOutLE(address: int, v: bv16)
      requires unsafe.Addressable(address, 2)
      requires unsafe.memory[address..address + 2] == Encode16(LittleEndian, v)
      ensures GetShortLE(address) == v
      ensures GetShort(address) == ReverseBytes16(v)
    {
      Encode16Injective(LittleEndian, GetShortLE(address), v);
      Encode16Injective(BigEndian, GetShort(address), ReverseBytes16(v));
    }

    lemma IntLaidOutLE(address: int, v: bv32)
      requires unsafe.Addressable(address, 4)
      requires unsafe.memory[address..address + 4] == Encode32(LittleEndian, v)
      ensures GetIntLE(address) == v
      ensures GetInt(address) == ReverseBytes32(v)
    {
      Encode32Injective(LittleEndian, GetIntLE(address), v);
      Encode32Injective(BigEndian, GetInt(address), ReverseBytes32(v));
    }

    lemma LongLaidOutLE(address: int, v: bv64)
      requires unsafe.Addressable(address, 8)
      requires unsafe.memory[address..address + 8] == Encode64(LittleEndian, v)
      ensures GetLongLE(address) == v
      ensures GetLong(address) == ReverseBytes64(v)
    {
      Encode64Injective(LittleEndian, GetLongLE(address), v);
      Encode64Injective(BigEndian, GetLong(address), ReverseBytes64(v));
    }

    // ------------------------------------------------------------ writes

    method SetByte(address: int, value: bv32)
      requires unsafe.Addressable(address, 1)
      modifies unsafe.memory
      ensures unsafe.memory[..] == old(unsafe.memory[..])[address := IntToByte(value)]
    {
      unsafe.PutByte(address, IntToByte(value));
    }

    /** Big-endian 16-bit write of the low 16 bits of `value`. */
    method SetShort(address: int, value: bv32)
      requires unsafe.Addressable(address, 2)
      modifies unsafe.memory
      ensures unsafe.memory[..] ==
              Splice(old(unsafe.memory[..]), address, Encode16(BigEndian, IntToShort(value)))
    {
      if UNALIGNED {
        unsafe.PutShort(address, if BIG_ENDIAN_NATIVE_ORDER then IntToShort(value) else ReverseBytes16(IntToShort(value)));
      } else {
        ghost var m := unsafe.memory[..];
        unsafe.PutByte(address, IntToByte(value >> 8));
        unsafe.PutByte(address + 1, IntToByte(value));
        SpliceUpdates2(m, address, IntToByte(value >> 8), IntToByte(value));
      }
    }

    /** Little-endian 16-bit write of the low 16 bits of `value`. */
    method SetShortLE(address: int, value: bv32)
      requires unsafe.Addressable(address, 2)
      modifies unsafe.memory
      ensures unsafe.memory[..] ==
              Splice(old(unsafe.memory[..]), address, Encode16(LittleEndian, IntToShort(value)))
    {
      if UNALIGNED {
        unsafe.PutShort(address, if BIG_ENDIAN_NATIVE_ORDER then ReverseBytes16(IntToShort(value)) else IntToShort(value));
      } else {
        ghost var m := unsafe.memory[..];
        unsafe.PutByte(address, IntToByte(value));
        unsafe.PutByte(address + 1, IntToByte(value >> 8));
        SpliceUpdates2(m, address, IntToByte(value), IntToByte(value >> 8));
      }
    }

    /** Big-endian 32-bit write. */
    method SetInt(address: int, value: bv32)
      requires unsafe.Addressable(address, 4)
      modifies unsafe.memory
      ensures unsafe.memory[..] == Splice(old(unsafe.memory[..]), address, Encode32(BigEndian, value))
    {
      if UNALIGNED {
        unsafe.PutInt(address, if BIG_ENDIAN_NATIVE_ORDER then value else ReverseBytes32(value));
      } else {
        ghost var m := unsafe.memory[..];
        unsafe.PutByte(address, IntToByte(value >> 24));
        unsafe.PutByte(address + 1, IntToByte(value >> 16));
        unsafe.PutByte(address + 2, IntToByte(value >> 8));
        unsafe.PutByte(address + 3, IntToByte(value));
        SpliceUpdates4(m, address, IntToByte(value >> 24), IntToByte(value >> 16), IntToByte(value >> 8), IntToByte(value));
        ShiftedBytes32(value);
      }
    }

    /** Little-endian 32-bit write. */
    method SetIntLE(address: int, value: bv32)
      requires unsafe.Addressable(address, 4)
      modifies unsafe.memory
      ensures unsafe.memory[..] == Splice(old(unsafe.memory[..]), address, Encode32(LittleEndian, value))
    {
      if UNALIGNED {
        unsafe.PutInt(address, if BIG_ENDIAN_NATIVE_ORDER then ReverseBytes32(value) else value);
      } else {
        ghost var m := unsafe.memory[..];
        unsafe.PutByte(address, IntToByte(value));
        unsafe.PutByte(address + 1, IntToByte(value >> 8));
        unsafe.PutByte(address + 2, IntToByte(value >> 16));
        unsafe.PutByte(address + 3, IntToByte(value >> 24));
        SpliceUpdates4(m, address, IntToByte(value), IntToByte(value >> 8), IntToByte(value >> 16), IntToByte(value >> 24));
        ShiftedBytes32(value);
      }
    }

    /** Big-endian 64-bit write. */
    method SetLong(address: int, value: bv64)
      requires unsafe.Addressable(address, 8)
      modifies unsafe.memory
      ensures unsafe.memory[..] == Splice(old(unsafe.memory[..]), address, Encode64(BigEndian, value))
    {
      if UNALIGNED {
        unsafe.PutLong(address, if BIG_ENDIAN_NATIVE_ORDER then value else ReverseBytes64(value));
      } else {
        ghost var m := unsafe.memory[..];
        unsafe.PutByte(address, LongToByte(value >> 56));
        unsafe.PutByte(address + 1, LongToByte(value >> 48));
        unsafe.PutByte(address + 2, LongToByte(value >> 40));
        unsafe.PutByte(address + 3, LongToByte(value >> 32));
        unsafe.PutByte(address + 4, LongToByte(value >> 24));
        unsafe.PutByte(address + 5, LongToByte(value >> 16));
        unsafe.PutByte(address + 6, LongToByte(value >> 8));
        unsafe.PutByte(address + 7, LongToByte(value));
        SpliceUpdates8(m, address, LongToByte(value >> 56), LongToByte(value >> 48), LongToByte(value >> 40),
                       LongToByte(value >> 32), LongToByte(value >> 24), LongToByte(value >> 16),
                       LongToByte(value >> 8), LongToByte(value));
        ShiftedBytes64(value);
      }
    }

    /** Little-endian 64-bit write. */
    method SetLongLE(address: int, value: bv64)
      requires unsafe.Addressable(address, 8)
      modifies unsafe.memory
      ensures unsafe.memory[..] == Splice(old(unsafe.memory[..]), address, Encode64(LittleEndian, value))
    {
      if UNALIGNED {
        unsafe.PutLong(address, if BIG_ENDIAN_NATIVE_ORDER then ReverseBytes64(value) else value);
      } else {
        ghost var m := unsafe.memory[..];
        unsafe.PutByte(address, LongToByte(value));
        unsafe.PutByte(address + 1, LongToByte(value >> 8));
        unsafe.PutByte(address + 2, LongToByte(value >> 16));
        unsafe.PutByte(address + 3, LongToByte(value >> 24));
        unsafe.PutByte(address + 4, LongToByte(value >> 32));
        unsafe.PutByte(address + 5, LongToByte(value >> 40));
        unsafe.PutByte(address + 6, LongToByte(value >> 48));
        unsafe.PutByte(address + 7, LongToByte(value >> 56));
        SpliceUpdates8(m, address, LongToByte(value), LongToByte(value >> 8), LongToByte(value >> 16),
                       LongToByte(value >> 24), LongToByte(value >> 32), LongToByte(value >> 40),
                       LongToByte(value >> 48), LongToByte(value >> 56));
        ShiftedBytes64LE(value);
      }
    }

    // ------------------------------------------------------------ blocks

    /** Copies `length` bytes from `src` at `srcOffset` to `dst` at
        `dstOffset` in calls of at most `UNSAFE_COPY_THRESHOLD` bytes each;
        `calls` records the calls made. Nothing happens when `length <= 0`.
        One side is always memory and the other a byte array. */
    method CopyMemory(src: array<bv8>, srcOffset: int, dst: array<bv8>, dstOffset: int, length: int)
      returns (ghost calls: seq<Chunk>)
      requires src != dst
      requires InBounds(src, srcOffset, length) && InBounds(dst, dstOffset, length)
      modifies dst
      ensures calls == ChunkPlan(srcOffset, dstOffset, length)
      ensures dst[..] == if length <= 0 then old(dst[..])
                         else Splice(old(dst[..]), dstOffset, src[srcOffset..srcOffset + length])
    {
      ghost var src0, dst0 := src[..], dst[..];
      ghost var copied := 0;
      var remaining, srcAt, dstAt := length, srcOffset, dstOffset;
      calls := [];
      while remaining > 0
        invariant length > 0 ==> 0 <= copied <= length
        invariant remaining == length - copied && (length <= 0 ==> copied == 0)
        invariant srcAt == srcOffset + copied && dstAt == dstOffset + copied
        invariant PlanProgress(calls, srcOffset, dstOffset, length, srcAt, dstAt, remaining)
        invariant src[..] == src0
        invariant dst[..] == if copied == 0 then dst0
                             else Splice(dst0, dstOffset, src0[srcOffset..srcOffset + length][..copied])
        decreases remaining
      {
        var size := Min(remaining, UNSAFE_COPY_THRESHOLD);
        ghost var calls0, d := calls, dst[..];
        unsafe.CopyMemory(src, srcAt, dst, dstAt, size);
        calls := calls + [Chunk(srcAt, dstAt, size)];
        ChunkPlanStep(calls0, srcOffset, dstOffset, length, srcAt, dstAt, remaining);
        CopyStep(dst0, dstOffset, src0, srcOffset, length, copied, size, srcAt, dstAt, d, dst[..]);
        remaining, srcAt, dstAt := remaining - size, srcAt + size, dstAt + size;
        copied := copied + size;
      }
    }

    /** Copies `length` bytes of memory from `address` into `dst` from
        `dstIndex` on: one bulk copy above the threshold, otherwise byte by
        byte. Nothing happens when `length <= 0`. */
    method GetBytes(address: int, dst: array<bv8>, dstIndex: int, length: int)
      requires dst != unsafe.memory
      requires InBounds(unsafe.memory, address, length) && InBounds(dst, dstIndex, length)
      modifies dst
      ensures dst[..] == if length <= 0 then old(dst[..])
                         else Splice(old(dst[..]), dstIndex, unsafe.memory[address..address + length])
    {
      if length > JNI_COPY_TO_ARRAY_THRESHOLD {
        ghost var calls := CopyMemory(unsafe.memory, address, dst, dstIndex, length);
      } else {
        ghost var dst0 := dst[..];
        ghost var bytes := if length <= 0 then [] else unsafe.memory[address..address + length];
        ghost var copied := 0;
        var end := dstIndex + length;
        var i, at := dstIndex, address;
        while i < end
          invariant length > 0 ==> 0 <= copied <= length
          invariant length <= 0 ==> copied == 0
          invariant i == dstIndex + copied && at == address + copied
          invariant dst[..] == if copied == 0 then dst0 else Splice(dst0, dstIndex, bytes[..copied])
        {
          ghost var d := dst[..];
          dst[i] := unsafe.GetByte(at);
          CopyByteStep(dst0, dstIndex, bytes, copied, i, unsafe.memory[at], d, dst[..]);
          i, at := i + 1, at + 1;
          copied := copied + 1;
        }
      }
    }

    /** Copies `length` bytes of `src` from `srcIndex` on into memory from
        `address` on: one bulk copy above the threshold, otherwise byte by
        byte. Nothing happens when `length <= 0`. */
    method SetBytes(address: int, src: array<bv8>, srcIndex: int, length: int)
      requires src != unsafe.memory
      requires InBounds(src, srcIndex, length) && InBounds(unsafe.memory, address, length)
      modifies unsafe.memory
      ensures unsafe.memory[..] == if length <= 0 then old(unsafe.memory[..])
                                   else Splice(old(unsafe.memory[..]), address, src[srcIndex..srcIndex + length])
    {
      if length > JNI_COPY_FROM_ARRAY_THRESHOLD {
        ghost var calls := CopyMemory(src, srcIndex, unsafe.memory, address, length);
      } else {
        ghost var mem0 := unsafe.memory[..];
        ghost var bytes := if length <= 0 then [] else src[srcIndex..srcIndex + length];
        ghost var copied := 0;
        var end := srcIndex + length;
        var i, at := srcIndex, address;
        while i < end
          invariant length > 0 ==> 0 <= copied <= length
          invariant length <= 0 ==> copied == 0
          invariant i == srcIndex + copied && at == address + copied
          invariant unsafe.memory[..] == if copied == 0 then mem0 else Splice(mem0, address, bytes[..copied])
        {
          ghost var m := unsafe.memory[..];
          unsafe.PutByte(at, src[i]);
          CopyByteStep(mem0, address, bytes, copied, at, src[i], m, unsafe.memory[..]);
          i, at := i + 1, at + 1;
          copied := copied + 1;
        }
      }
    }
  }
}
