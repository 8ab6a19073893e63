# UnsafeByteBufferUtil in Dafny

A model of Jupiter's `UnsafeByteBufferUtil`, the layer beneath its off-heap
byte buffers. It reads and writes bytes and 16-, 32- and 64-bit integers at
raw memory addresses, in big-endian order (`getShort`, `setInt`, ...) or
little-endian order (`getShortLE`, `setIntLE`, ...). It also moves blocks of
bytes between memory and Java byte arrays.

- **Scalar accessors.** Each one has two paths:
  - a fast path, taken when the static initializer found that the platform
    allows unaligned access (`UNALIGNED`). It makes one native access and
    reverses the bytes when the requested order is not the native order
    (`BIG_ENDIAN_NATIVE_ORDER`);
  - a fallback that assembles or scatters the value one byte at a time,
    using Java's shifts, masks and sign-extending widenings.
- **Bulk transfers.** `getBytes` and `setBytes` copy byte by byte up to
  `JNI_COPY_TO_ARRAY_THRESHOLD` / `JNI_COPY_FROM_ARRAY_THRESHOLD` (6) bytes.
  Above that they call `copyMemory`. `copyMemory` splits a copy into calls of
  at most `UNSAFE_COPY_THRESHOLD` (1 MiB) bytes each.

The files:

- `byte_order.dfy` (module `ByteOrder`): byte layouts.
  - `EncodeW(order, v)` gives the W bytes of `v` as they lie in memory;
    `DecodeW` reads them back.
  - They are proved inverse and injective.
- `java_lang.dfy` (module `JavaLang`): the Java integer semantics the source
  relies on.
  - Conversions: `(int) b`, `(long) b`, `(short) v` and `(byte) v`, bit for bit.
  - `Integer/Long.reverseBytes` in the JDK's formulas, and
    `Short.reverseBytes` in a form equivalent to the JDK's.
- `unsafe_memory.dfy` (module `UnsafeMemory`):
  - `Splice`, the memory after a block has been written;
  - a stand-in for `sun.misc.Unsafe`, whose memory is an `array<bv8>` and
    whose addresses are indices into it;
  - the lemmas that connect byte-wise writes with block writes.
- `byte_buffer_util.dfy` (module `ByteBufferUtil`): the class itself, as
  below.
  - The constants are module constants.
  - The static fields are the `const` fields of one instance. Its
    constructor plays the static initializer.
  - Getters are functions that say which bytes the result is made of.
  - Setters are methods whose postcondition is the whole new memory.
  - `getBytes`, `setBytes` and `copyMemory` keep their loops.
- `round_trips.dfy` (module `RoundTrips`): what a caller can rely on.
  - Writing a value and then reading it in the same order gives the value
    back; `setShort` keeps only the low 16 bits of its `int`.
  - Reading it in the other order gives the value byte-reversed.
  - The bytes before and after the written ones keep their contents.

Every contract is the same whichever path runs. So the `UNALIGNED` flag, the
native byte order and the size thresholds never change what a call does. The
lemmas `...PathsAgree` state this for reads. For writes and block transfers
it is their postconditions, which mention neither the flag nor the threshold.

When no `Unsafe` is available (lines 57-59), only `UNALIGNED` is forced to
false; `BIG_ENDIAN_NATIVE_ORDER` is still read from the platform (line 78);
the fallbacks still call through `unsafe`.

## Model

All source paths are under `jupiter-common/src/main/java/org/jupiter/common/util/internal/`;
the cells give the full path.

| member | source | states |
|---|---|---|
| ByteBufferUtil.UnalignedFromProbe | jupiter-common/src/main/java/org/jupiter/common/util/internal/UnsafeByteBufferUtil.java:62-75 | `UNALIGNED` is true exactly when the probe of `java.nio.Bits.unaligned()` answered true; a probe that answered false or threw gives false |
| ByteBufferUtil.UnsafeByteBufferUtil.constructor | jupiter-common/src/main/java/org/jupiter/common/util/internal/UnsafeByteBufferUtil.java:54-79 | the flags are fixed once: `UNALIGNED` from the probe, `BIG_ENDIAN_NATIVE_ORDER` from the native order |
| ByteBufferUtil.UnsafeByteBufferUtil.GetByte | jupiter-common/src/main/java/org/jupiter/common/util/internal/UnsafeByteBufferUtil.java:81-83 | the byte stored at the address |
| ByteBufferUtil.UnsafeByteBufferUtil.GetShort | jupiter-common/src/main/java/org/jupiter/common/util/internal/UnsafeByteBufferUtil.java:85-91 | on both paths, the result's big-endian layout is exactly the two bytes at the address |
| ByteBufferUtil.UnsafeByteBufferUtil.GetShortLE | jupiter-common/src/main/java/org/jupiter/common/util/internal/UnsafeByteBufferUtil.java:93-99 | on both paths, the result's little-endian layout is exactly the two bytes at the address |
| ByteBufferUtil.UnsafeByteBufferUtil.GetInt | jupiter-common/src/main/java/org/jupiter/common/util/internal/UnsafeByteBufferUtil.java:101-110 | on both paths, the result's big-endian layout is exactly the four bytes at the address |
| ByteBufferUtil.UnsafeByteBufferUtil.GetIntLE | jupiter-common/src/main/java/org/jupiter/common/util/internal/UnsafeByteBufferUtil.java:112-121 | on both paths, the result's little-endian layout is exactly the four bytes at the address |
| ByteBufferUtil.UnsafeByteBufferUtil.GetLong | jupiter-common/src/main/java/org/jupiter/common/util/internal/UnsafeByteBufferUtil.java:123-136 | on both paths, the result's big-endian layout is exactly the eight bytes at the address |
| ByteBufferUtil.UnsafeByteBufferUtil.GetLongLE | jupiter-common/src/main/java/org/jupiter/common/util/internal/UnsafeByteBufferUtil.java:138-151 | on both paths, the result's little-endian layout is exactly the eight bytes at the address |
| ByteBufferUtil.ShortOfBytes | jupiter-common/src/main/java/org/jupiter/common/util/internal/UnsafeByteBufferUtil.java:90 | the fallback expression, with the first byte sign-extended, is the first byte joined above the second in the low 16 bits |
| ByteBufferUtil.ShortLEOfBytes | jupiter-common/src/main/java/org/jupiter/common/util/internal/UnsafeByteBufferUtil.java:98 | the little-endian fallback expression is the second byte joined above the first |
| ByteBufferUtil.IntOfBytes | jupiter-common/src/main/java/org/jupiter/common/util/internal/UnsafeByteBufferUtil.java:106-109 | the fallback expression is the four bytes joined, first byte most significant, so the sign extension of the first byte is shifted out |
| ByteBufferUtil.IntLEOfBytes | jupiter-common/src/main/java/org/jupiter/common/util/internal/UnsafeByteBufferUtil.java:117-120 | the little-endian fallback expression is the four bytes joined, last byte most significant |
| ByteBufferUtil.LongOfBytes | jupiter-common/src/main/java/org/jupiter/common/util/internal/UnsafeByteBufferUtil.java:128-135 | the fallback expression is the eight bytes joined, first byte most significant |
| ByteBufferUtil.LongLEOfBytes | jupiter-common/src/main/java/org/jupiter/common/util/internal/UnsafeByteBufferUtil.java:143-150 | the little-endian fallback expression is the eight bytes joined, last byte most significant; `(long)` of the last byte is sign-extended but shifted out |
| ByteBufferUtil.UnsafeByteBufferUtil.ShortOrdersReversed | jupiter-common/src/main/java/org/jupiter/common/util/internal/UnsafeByteBufferUtil.java:85-99 | `getShort(a) == Short.reverseBytes(getShortLE(a))` for every address |
| ByteBufferUtil.UnsafeByteBufferUtil.IntOrdersReversed | jupiter-common/src/main/java/org/jupiter/common/util/internal/UnsafeByteBufferUtil.java:101-121 | `getInt(a) == Integer.reverseBytes(getIntLE(a))` for every address |
| ByteBufferUtil.UnsafeByteBufferUtil.LongOrdersReversed | jupiter-common/src/main/java/org/jupiter/common/util/internal/UnsafeByteBufferUtil.java:123-151 | `getLong(a) == Long.reverseBytes(getLongLE(a))` for every address |
| ByteBufferUtil.UnsafeByteBufferUtil.ShortPathsAgree | jupiter-common/src/main/java/org/jupiter/common/util/internal/UnsafeByteBufferUtil.java:85-99 | any two instances over the same memory read the same shorts, so the fast path and the fallback agree, whatever the native order |
| ByteBufferUtil.UnsafeByteBufferUtil.IntPathsAgree | jupiter-common/src/main/java/org/jupiter/common/util/internal/UnsafeByteBufferUtil.java:101-121 | the same for ints |
| ByteBufferUtil.UnsafeByteBufferUtil.LongPathsAgree | jupiter-common/src/main/java/org/jupiter/common/util/internal/UnsafeByteBufferUtil.java:123-151 | the same for longs |
| ByteBufferUtil.UnsafeByteBufferUtil.ShortLaidOut | jupiter-common/src/main/java/org/jupiter/common/util/internal/UnsafeByteBufferUtil.java:85-99 | memory holding the big-endian layout of `v` reads as `v` with `getShort` and as its byte reversal with `getShortLE` |
| ByteBufferUtil.UnsafeByteBufferUtil.ShortLaidOutLE | jupiter-common/src/main/java/org/jupiter/common/util/internal/UnsafeByteBufferUtil.java:85-99 | memory holding the little-endian layout of `v` reads as `v` with `getShortLE` and as its byte reversal with `getShort` |
| ByteBufferUtil.UnsafeByteBufferUtil.IntLaidOut | jupiter-common/src/main/java/org/jupiter/common/util/internal/UnsafeByteBufferUtil.java:101-121 | the same for ints, big-endian layout |
| ByteBufferUtil.UnsafeByteBufferUtil.IntLaidOutLE | jupiter-common/src/main/java/org/jupiter/common/util/internal/UnsafeByteBufferUtil.java:101-121 | the same for ints, little-endian layout |
| ByteBufferUtil.UnsafeByteBufferUtil.LongLaidOut | jupiter-common/src/main/java/org/jupiter/common/util/internal/UnsafeByteBufferUtil.java:123-151 | the same for longs, big-endian layout |
| ByteBufferUtil.UnsafeByteBufferUtil.LongLaidOutLE | jupiter-common/src/main/java/org/jupiter/common/util/internal/UnsafeByteBufferUtil.java:123-151 | the same for longs, little-endian layout |
| ByteBufferUtil.UnsafeByteBufferUtil.SetByte | jupiter-common/src/main/java/org/jupiter/common/util/internal/UnsafeByteBufferUtil.java:164-166 | the low 8 bits of `value` are stored at the address and no other byte changes |
| ByteBufferUtil.UnsafeByteBufferUtil.SetShort | jupiter-common/src/main/java/org/jupiter/common/util/internal/UnsafeByteBufferUtil.java:168-176 | on both paths, memory afterwards is the old memory with the big-endian layout of `(short) value` at the address and nothing else changed |
| ByteBufferUtil.UnsafeByteBufferUtil.SetShortLE | jupiter-common/src/main/java/org/jupiter/common/util/internal/UnsafeByteBufferUtil.java:178-186 | the same with the little-endian layout |
| ByteBufferUtil.UnsafeByteBufferUtil.SetInt | jupiter-common/src/main/java/org/jupiter/common/util/internal/UnsafeByteBufferUtil.java:188-197 | on both paths, the big-endian layout of `value` is written at the address and nothing else changes |
| ByteBufferUtil.UnsafeByteBufferUtil.SetIntLE | jupiter-common/src/main/java/org/jupiter/common/util/internal/UnsafeByteBufferUtil.java:199-208 | the same with the little-endian layout |
| ByteBufferUtil.UnsafeByteBufferUtil.SetLong | jupiter-common/src/main/java/org/jupiter/common/util/internal/UnsafeByteBufferUtil.java:210-223 | on both paths, the big-endian layout of `value` is written at the address and nothing else changes |
| ByteBufferUtil.UnsafeByteBufferUtil.SetLongLE | jupiter-common/src/main/java/org/jupiter/common/util/internal/UnsafeByteBufferUtil.java:225-238 | the same with the little-endian layout |
| ByteBufferUtil.ShiftedBytes32 | jupiter-common/src/main/java/org/jupiter/common/util/internal/UnsafeByteBufferUtil.java:192-195 | the bytes `(byte) (value >>> 24)`, ..., `(byte) value` are the big-endian layout of `value`, and in the opposite order the little-endian one (lines 203-206) |
| ByteBufferUtil.ShiftedBytes64 | jupiter-common/src/main/java/org/jupiter/common/util/internal/UnsafeByteBufferUtil.java:214-221 | the bytes `(byte) (value >>> 56)`, ..., `(byte) value` are the big-endian layout of `value` |
| ByteBufferUtil.ShiftedBytes64LE | jupiter-common/src/main/java/org/jupiter/common/util/internal/UnsafeByteBufferUtil.java:229-236 | the bytes `(byte) value`, ..., `(byte) (value >>> 56)` are the little-endian layout of `value` |
| ByteBufferUtil.UnsafeByteBufferUtil.GetBytes | jupiter-common/src/main/java/org/jupiter/common/util/internal/UnsafeByteBufferUtil.java:153-162 | below and above the threshold alike, `dst[dstIndex..dstIndex+length)` becomes the `length` bytes from the address and the rest of `dst` is unchanged; `length <= 0` changes nothing |
| ByteBufferUtil.UnsafeByteBufferUtil.SetBytes | jupiter-common/src/main/java/org/jupiter/common/util/internal/UnsafeByteBufferUtil.java:240-249 | below and above the threshold alike, memory from the address gets `src[srcIndex..srcIndex+length)` and no other byte changes; `length <= 0` changes nothing |
| ByteBufferUtil.UnsafeByteBufferUtil.CopyMemory | jupiter-common/src/main/java/org/jupiter/common/util/internal/UnsafeByteBufferUtil.java:251-259 | the destination range receives the source range, the rest of the destination is unchanged, and the primitive calls made are exactly `ChunkPlan`; no call at all when `length <= 0` |
| ByteBufferUtil.ChunkPlanStep | jupiter-common/src/main/java/org/jupiter/common/util/internal/UnsafeByteBufferUtil.java:252-258 | one loop iteration's call, `min(length, 1 MiB)` bytes at the current offsets, is the next call of the plan and leaves the plan for the remaining bytes |
| ByteBufferUtil.ChunkPlanAt | jupiter-common/src/main/java/org/jupiter/common/util/internal/UnsafeByteBufferUtil.java:252-258 | call `i` starts `i` MiB into both ranges and has size `min(length - i MiB, 1 MiB)` |
| ByteBufferUtil.ChunkPlanCount | jupiter-common/src/main/java/org/jupiter/common/util/internal/UnsafeByteBufferUtil.java:252-255 | the number of calls is `ceil(length / 1 MiB)`, and zero when `length <= 0` |
| ByteBufferUtil.ChunkPlanBounded | jupiter-common/src/main/java/org/jupiter/common/util/internal/UnsafeByteBufferUtil.java:50-53 | every call moves at least 1 and at most `UNSAFE_COPY_THRESHOLD` bytes |
| ByteBufferUtil.ChunkPlanTotal | jupiter-common/src/main/java/org/jupiter/common/util/internal/UnsafeByteBufferUtil.java:252-258 | the sizes of the calls add up to `length` (zero when `length <= 0`) |
| ByteBufferUtil.ChunkPlanFourCalls | jupiter-common/src/main/java/org/jupiter/common/util/internal/UnsafeByteBufferUtil.java:52 | copying 3 MiB plus 17 bytes takes four calls |
| JavaLang.ReverseBytes16 | jupiter-common/src/main/java/org/jupiter/common/util/internal/UnsafeByteBufferUtil.java:88 | the big-endian layout of `Short.reverseBytes(v)` is the little-endian layout of `v`, and the other way round; the body is equivalent to the JDK's formula, not a copy of it |
| JavaLang.ReverseBytes32 | jupiter-common/src/main/java/org/jupiter/common/util/internal/UnsafeByteBufferUtil.java:104 | the same for `Integer.reverseBytes` |
| JavaLang.ReverseBytes64 | jupiter-common/src/main/java/org/jupiter/common/util/internal/UnsafeByteBufferUtil.java:126 | the same for `Long.reverseBytes`, in the JDK's swap-then-rotate formula |
| JavaLang.ReverseBytes16Involution | jupiter-common/src/main/java/org/jupiter/common/util/internal/UnsafeByteBufferUtil.java:88 | reversing twice is the identity: each fast-path read undoes the swap of the matching write |
| JavaLang.ReverseBytes32Involution | jupiter-common/src/main/java/org/jupiter/common/util/internal/UnsafeByteBufferUtil.java:104 | the same for ints |
| JavaLang.ReverseBytes64Involution | jupiter-common/src/main/java/org/jupiter/common/util/internal/UnsafeByteBufferUtil.java:126 | the same for longs |
| JavaLang.ByteToInt | jupiter-common/src/main/java/org/jupiter/common/util/internal/UnsafeByteBufferUtil.java:90 | `(int) b` keeps `b` in its low byte and fills the rest with its sign bit; `& 0xff` recovers `b` |
| JavaLang.ByteToLong | jupiter-common/src/main/java/org/jupiter/common/util/internal/UnsafeByteBufferUtil.java:128 | the same for `(long) b` |
| JavaLang.IntToShort | jupiter-common/src/main/java/org/jupiter/common/util/internal/UnsafeByteBufferUtil.java:171 | `(short) value` keeps the two low bytes of `value` |
| JavaLang.IntToByte | jupiter-common/src/main/java/org/jupiter/common/util/internal/UnsafeByteBufferUtil.java:165 | `(byte) value` is the low byte of `value` |
| JavaLang.LongToByte | jupiter-common/src/main/java/org/jupiter/common/util/internal/UnsafeByteBufferUtil.java:221 | `(byte) value` is the low byte of a long |
| UnsafeMemory.SpliceOutside | jupiter-common/src/main/java/org/jupiter/common/util/internal/UnsafeByteBufferUtil.java:188-197 | a write of a block leaves every range outside the block unchanged: the setters' frame |
| RoundTrips.WriteFrame | jupiter-common/src/main/java/org/jupiter/common/util/internal/UnsafeByteBufferUtil.java:164-238 | after a setter's write of a block, the memory below the block and the memory above it are as before |
| RoundTrips.ShortRoundTrip | jupiter-common/src/main/java/org/jupiter/common/util/internal/UnsafeByteBufferUtil.java:168-176 | after `setShort(a, value)`: `getShort(a) == (short) value`, `getShortLE(a)` is its byte reversal, bytes below and above unchanged |
| RoundTrips.ShortLERoundTrip | jupiter-common/src/main/java/org/jupiter/common/util/internal/UnsafeByteBufferUtil.java:178-186 | after `setShortLE(a, value)`: `getShortLE(a) == (short) value`, `getShort(a)` is its byte reversal, bytes below and above unchanged |
| RoundTrips.IntRoundTrip | jupiter-common/src/main/java/org/jupiter/common/util/internal/UnsafeByteBufferUtil.java:188-197 | after `setInt(a, v)`: `getInt(a) == v`, `getIntLE(a) == Integer.reverseBytes(v)`, bytes below and above unchanged |
| RoundTrips.IntLERoundTrip | jupiter-common/src/main/java/org/jupiter/common/util/internal/UnsafeByteBufferUtil.java:199-208 | after `setIntLE(a, v)`: `getIntLE(a) == v`, `getInt(a) == Integer.reverseBytes(v)`, bytes below and above unchanged |
| RoundTrips.LongRoundTrip | jupiter-common/src/main/java/org/jupiter/common/util/internal/UnsafeByteBufferUtil.java:210-223 | after `setLong(a, v)`: `getLong(a) == v`, `getLongLE(a) == Long.reverseBytes(v)`, bytes below and above unchanged |
| RoundTrips.LongLERoundTrip | jupiter-common/src/main/java/org/jupiter/common/util/internal/UnsafeByteBufferUtil.java:225-238 | after `setLongLE(a, v)`: `getLongLE(a) == v`, `getLong(a) == Long.reverseBytes(v)`, bytes below and above unchanged |
| RoundTrips.IntLEExample | jupiter-common/src/main/java/org/jupiter/common/util/internal/UnsafeByteBufferUtil.java:199-208 | `setIntLE(a, 0x01020304)` stores 04 03 02 01, which `getInt(a)` reads as 0x04030201 |

## Left out

- The probe's mechanics are left out: reflection on `java.nio.Bits`, the
  class loader and the warning log (lines 63-71). The probe's outcome is a
  constructor parameter: `Some(b)` when `unaligned()` answered `b`, `None`
  when it threw.
- `JUnsafe.getUnsafe()` returning null (lines 57-59) is not modelled: an
  instance always has an `Unsafe`. In that case the Java code has no usable
  fallback, since every path calls through `unsafe`.
- Real addresses are not modelled. An address is an index into one byte
  array that stands for all of off-heap memory. Java reaches a byte array
  through `BYTE_ARRAY_BASE_OFFSET` plus an index (lines 40, 61, 155, 242);
  the model passes the array and the index.
- `sun.misc.Unsafe` and `Short/Integer/Long.reverseBytes` are not part of
  this repository. They are modelled after their documented behaviour.
  - A native access reads or writes W bytes in native order.
  - `copyMemory` copies a block.
  - `reverseBytes` follows the JDK's formula.
- ByteBufferUtil.UnsafeByteBufferUtil.CopyMemory: requires the two arrays to
  be different, so a copy inside one array is not modelled, whether its
  ranges overlap or not. Both callers (lines 155 and 242) copy between
  memory and a Java array, never within one of them. The primitive
  `Unsafe.CopyMemory` excludes overlapping ranges, for which no behaviour is
  promised.
- ByteBufferUtil.UnsafeByteBufferUtil.GetBytes: requires `dst` to be
  distinct from memory, as a Java heap array always is.
- ByteBufferUtil.UnsafeByteBufferUtil.SetBytes: requires `src` to be
  distinct from memory, as a Java heap array always is.
- Bounds:
  - The Java code checks no addresses or indices. An access outside memory
    or outside the array is undefined (Unsafe) or throws (the byte loop).
  - Every accessor requires its bytes to lie inside memory and the array.
    These preconditions stand for the callers' obligation.
  - A `length <= 0` transfer needs no bounds and does nothing.
- The offsets and indices are unbounded: 64-bit wrap-around of addresses and
  the `int` overflow of `dstIndex + length` (lines 157, 244) are not
  modelled.
- `CopyMemory`'s ghost `calls` result records each call to the primitive.
  It is how the chunking is observed; Java has no such result.
- Safepoint polling, the purpose of the 1 MiB limit (lines 50-51), is not
  modelled.
- Thread safety is out of scope, since the source has no synchronisation.
