/** A stand-in for `sun.misc.Unsafe`: raw memory as an array of bytes.

    An address is an index into `memory`. A multi-byte access reads or writes
    W consecutive bytes in the platform's native byte order, with no
    alignment requirement. `CopyMemory` moves a block of bytes between two
    arrays; the accessor layer passes `memory` itself where Java passes a
    null base object (an absolute address).
 */
module UnsafeMemory {
  import opened ByteOrder

  /** `s` with the bytes from `at` on replaced by `bs`. */
  function Splice(s: seq<bv8>, at: int, bs: seq<bv8>): (r: seq<bv8>)
    requires 0 <= at && at + |bs| <= |s|
    ensures |r| == |s|
    ensures r[at..at + |bs|] == bs
  {
    s[..at] + bs + s[at + |bs|..]
  }

  lemma SpliceNothing(s: seq<bv8>, at: int)
    requires 0 <= at <= |s|
    ensures Splice(s, at, []) == s
  {
  }

  /** Writing `b` just past a spliced block extends the block. */
  lemma SpliceExtend(s: seq<bv8>, at: int, bs: seq<bv8>, b: bv8)
    requires 0 <= at && at + |bs| < |s|
    ensures Splice(s, at, bs)[at + |bs| := b] == Splice(s, at, bs + [b])
  {
    var l, r := Splice(s, at, bs)[at + |bs| := b], Splice(s, at, bs + [b]);
    assert forall i :: 0 <= i < |s| ==> l[i] == r[i];
  }

  /** Two adjacent writes are one write of both blocks. */
  lemma SpliceAppend(s: seq<bv8>, at: int, bs: seq<bv8>, cs: seq<bv8>)
    requires 0 <= at && at + |bs| + |cs| <= |s|
    ensures Splice(Splice(s, at, bs), at + |bs|, cs) == Splice(s, at, bs + cs)
  {
    var l, r := Splice(Splice(s, at, bs), at + |bs|, cs), Splice(s, at, bs + cs);
    forall i | 0 <= i < |s|
      ensures l[i] == r[i]
    {
      if at <= i < at + |bs| {
        assert Splice(s, at, bs)[at..at + |bs|][i - at] == bs[i - at];
      } else if at + |bs| <= i < at + |bs| + |cs| {
        assert l[at + |bs|..at + |bs| + |cs|][i - at - |bs|] == cs[i - at - |bs|];
      }
    }
  }

  /** A range of a range is a range of the whole. */
  lemma SliceOfSlice(s: seq<bv8>, lo: int, hi: int, i: int, j: int)
    requires 0 <= lo <= hi <= |s| && 0 <= i <= j <= hi - lo
    ensures s[lo..hi][i..j] == s[lo + i..lo + j]
  {
    assert forall k :: 0 <= k < j - i ==> s[lo..hi][i..j][k] == s[lo + i + k];
  }

  /** Splicing in the next part of `bs` extends a spliced prefix of it. */
  lemma SpliceGrow(s: seq<bv8>, at: int, bs: seq<bv8>, n: int, m: int)
    requires 0 <= n <= m <= |bs| && 0 <= at && at + |bs| <= |s|
    ensures Splice(Splice(s, at, bs[..n]), at + n, bs[n..m]) == Splice(s, at, bs[..m])
  {
    SpliceAppend(s, at, bs[..n], bs[n..m]);
    assert bs[..n] + bs[n..m] == bs[..m];
  }

  /** One step of a block copy of `src[from..from + length]` to `at`: with
      its first `done` bytes already in place in `t` (none, at the start),
      writing the next `size` bytes, from `srcAt` to `dstAt`, leaves the
      first `done + size` in place. */
  lemma CopyStep(s: seq<bv8>, at: int, src: seq<bv8>, from: int, length: int,
                 done: int, size: int, srcAt: int, dstAt: int, t: seq<bv8>, u: seq<bv8>)
    requires 0 <= from && from + length <= |src| && 0 <= at && at + length <= |s|
    requires 0 <= done && 0 < size && done + size <= length
    requires srcAt == from + done && dstAt == at + done
    requires t == if done == 0 then s else Splice(s, at, src[from..from + length][..done])
    requires |t| == |s|
    requires u == Splice(t, dstAt, src[srcAt..srcAt + size])
    ensures u == Splice(s, at, src[from..from + length][..done + size])
  {
    var bs := src[from..from + length];
    SliceOfSlice(src, from, from + length, done, done + size);
    assert src[srcAt..srcAt + size] == bs[done..done + size];
    if done == 0 {
      SpliceNothing(s, at);
      assert bs[..done] == [];
    }
    assert t == Splice(s, at, bs[..done]);
    SpliceGrow(s, at, bs, done, done + size);
  }

  /** One step of a byte-by-byte copy of `bs` to `at`: with its first `done`
      bytes in place in `t` (none, at the start), writing byte `done` at
      `pos` leaves the first `done + 1` in place. */
  lemma CopyByteStep(s: seq<bv8>, at: int, bs: seq<bv8>, done: int, pos: int, b: bv8,
                     t: seq<bv8>, u: seq<bv8>)
    requires 0 <= at && at + |bs| <= |s| && 0 <= done < |bs|
    requires pos == at + done && b == bs[done]
    requires t == if done == 0 then s else Splice(s, at, bs[..done])
    requires u == t[pos := b]
    ensures u == Splice(s, at, bs[..done + 1])
  {
    if done == 0 {
      SpliceNothing(s, at);
      assert bs[..done] == [];
    }
    SpliceExtend(s, at, bs[..done], bs[done]);
    assert bs[..done] + [bs[done]] == bs[..done + 1];
  }

  /** A splice leaves every range outside the spliced block as it was. */
  lemma SpliceOutside(s: seq<bv8>, at: int, bs: seq<bv8>, lo: int, hi: int)
    requires 0 <= at && at + |bs| <= |s| && 0 <= lo <= hi <= |s|
    requires at + |bs| <= lo || hi <= at
    ensures Splice(s, at, bs)[lo..hi] == s[lo..hi]
  {
    assert forall i :: lo <= i < hi ==> Splice(s, at, bs)[i] == s[i];
  }

  /** Writing bytes one at a time at consecutive indices is one splice. */
  lemma SpliceUpdates2(s: seq<bv8>, at: int, b0: bv8, b1: bv8)
    requires 0 <= at && at + 2 <= |s|
    ensures s[at := b0][at + 1 := b1] == Splice(s, at, [b0, b1])
  {
    var l, r := s[at := b0][at + 1 := b1], Splice(s, at, [b0, b1]);
    assert forall i :: 0 <= i < |s| ==> l[i] == r[i];
  }

  lemma SpliceUpdates4(s: seq<bv8>, at: int, b0: bv8, b1: bv8, b2: bv8, b3: bv8)
    requires 0 <= at && at + 4 <= |s|
    ensures s[at := b0][at + 1 := b1][at + 2 := b2][at + 3 := b3] == Splice(s, at, [b0, b1, b2, b3])
  {
    var l, r := s[at := b0][at + 1 := b1][at + 2 := b2][at + 3 := b3], Splice(s, at, [b0, b1, b2, b3]);
    assert forall i :: 0 <= i < |s| ==> l[i] == r[i];
  }

  lemma SpliceUpdates8(s: seq<bv8>, at: int, b0: bv8, b1: bv8, b2: bv8, b3: bv8,
                       b4: bv8, b5: bv8, b6: bv8, b7: bv8)
    requires 0 <= at && at + 8 <= |s|
    ensures s[at := b0][at + 1 := b1][at + 2 := b2][at + 3 := b3]
             [at + 4 := b4][at + 5 := b5][at + 6 := b6][at + 7 := b7] ==
            Splice(s, at, [b0, b1, b2, b3, b4, b5, b6, b7])
  {
    var t := s[at := b0][at + 1 := b1][at + 2 := b2][at + 3 := b3];
    SpliceUpdates4(s, at, b0, b1, b2, b3);
    SpliceUpdates4(t, at + 4, b4, b5, b6, b7);
    SpliceAppend(s, at, [b0, b1, b2, b3], [b4, b5, b6, b7]);
    assert [b0, b1, b2, b3] + [b4, b5, b6, b7] == [b0, b1, b2, b3, b4, b5, b6, b7];
  }

  /** The byte ranges `[srcOffset, srcOffset + length)` of `src` and
      `[dstOffset, dstOffset + length)` of `dst` do not overlap. */
  predicate Disjoint(src: array<bv8>, srcOffset: int, dst: array<bv8>, dstOffset: int, length: int)
  {
    src != dst || srcOffset + length <= dstOffset || dstOffset + length <= srcOffset
  }

  /** `length` bytes from `offset` lie inside `a` (trivially so when there are none). */
  predicate InBounds(a: array<bv8>, offset: int, length: int)
  {
    length <= 0 || (0 <= offset && offset + length <= a.Length)
  }

  /** Writes `bs` into `a` from index `at` on. */
  method Store(a: array<bv8>, at: int, bs: seq<bv8>)
    requires 0 <= at && at + |bs| <= a.Length
    modifies a
    ensures a[..] == Splice(old(a[..]), at, bs)
  {
    forall k | 0 <= k < |bs| {
      a[at + k] := bs[k];
    }
    assert forall i :: 0 <= i < a.Length ==> a[..][i] == Splice(old(a[..]), at, bs)[i];
  }

  class Unsafe {
    const memory: array<bv8>
    const nativeOrder: Order

    constructor (memory: array<bv8>, nativeOrder: Order)
      ensures this.memory == memory && this.nativeOrder == nativeOrder
    {
      this.memory := memory;
      this.nativeOrder := nativeOrder;
    }

    /** A `width`-byte access at `address` stays inside memory. */
    predicate Addressable(address: int, width: nat)
    {
      0 <= address && address + width <= memory.Length
    }

    function GetByte(address: int): (b: bv8)
      reads memory
      requires Addressable(address, 1)
      ensures b == memory[address]
    {
      memory[address]
    }

    /** Native-order 16-bit read. */
    function GetShort(address: int): (v: bv16)
      reads memory
      requires Addressable(address, 2)
      ensures Encode16(nativeOrder, v) == memory[address..address + 2]
    {
      Encode16Decode16(nativeOrder, memory[address..address + 2]);
      Decode16(nativeOrder, memory[address..address + 2])
    }

    function GetInt(address: int): (v: bv32)
      reads memory
      requires Addressable(address, 4)
      ensures Encode32(nativeOrder, v) == memory[address..address + 4]
    {
      Encode32Decode32(nativeOrder, memory[address..address + 4]);
      Decode32(nativeOrder, memory[address..address + 4])
    }

    function GetLong(address: int): (v: bv64)
      reads memory
      requires Addressable(address, 8)
      ensures Encode64(nativeOrder, v) == memory[address..address + 8]
    {
      Encode64Decode64(nativeOrder, memory[address..address + 8]);
      Decode64(nativeOrder, memory[address..address + 8])
    }

    method PutByte(address: int, b: bv8)
      requires Addressable(address, 1)
      modifies memory
      ensures memory[..] == old(memory[..])[address := b]
    {
      memory[address] := b;
    }

    /** Native-order 16-bit write. */
    method PutShort(address: int, v: bv16)
      requires Addressable(address, 2)
      modifies memory
      ensures memory[..] == Splice(old(memory[..]), address, Encode16(nativeOrder, v))
    {
      Store(memory, address, Encode16(nativeOrder, v));
    }

    method PutInt(address: int, v: bv32)
      requires Addressable(address, 4)
      modifies memory
      ensures memory[..] == Splice(old(memory[..]), address, Encode32(nativeOrder, v))
    {
      Store(memory, address, Encode32(nativeOrder, v));
    }

    method PutLong(address: int, v: bv64)
      requires Addressable(address, 8)
      modifies memory
      ensures memory[..] == Splice(old(memory[..]), address, Encode64(nativeOrder, v))
    {
      Store(memory, address, Encode64(nativeOrder, v));
    }

    /** The bulk copy primitive: one call moves `bytes` bytes. No promise is
        made for overlapping ranges, so they are excluded. */
    method CopyMemory(src: array<bv8>, srcOffset: int, dst: array<bv8>, dstOffset: int, bytes: int)
      requires 0 <= bytes
      requires 0 <= srcOffset && srcOffset + bytes <= src.Length
      requires 0 <= dstOffset && dstOffset + bytes <= dst.Length
      requires Disjoint(src, srcOffset, dst, dstOffset, bytes)
      modifies dst
      ensures dst[..] == Splice(old(dst[..]), dstOffset, old(src[..])[srcOffset..srcOffset + bytes])
    {
      Store(dst, dstOffset, src[srcOffset..srcOffset + bytes]);
    }
  }
}
