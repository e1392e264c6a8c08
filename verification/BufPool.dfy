/**
  `BufPool`: fixed blocks in one flat allocation, a size per block, and a free queue kept
  as a ring with 32-bit counters that are never reset.  Each operation is stated on the
  pool's value `view`.
 */
module BufferPool {
  import opened Bits
  import opened Ring
  import opened Blocks

  const INVALID_IDX: nat := 0xFFFF_FFFF

  /** Block `i` lies inside the allocation. */
  lemma BlockBounds(i: nat, n: nat, size: nat)
    requires i < n
    ensures i * size + size <= n * size
  {
    assert n * size == i * size + (n - i) * size;
    assert (n - i) * size == size + (n - i - 1) * size;
  }

  /** Blocks of different numbers do not overlap. */
  lemma BlocksApart(i: nat, j: nat, size: nat)
    requires i != j
    ensures i * size + size <= j * size || j * size + size <= i * size
  {
    if i < j {
      BlockBounds(i, j, size);
    } else {
      BlockBounds(j, i, size);
    }
  }

  ghost predicate MemOk(mem: seq<byte>, sizes: seq<nat>, size: nat) {
    && |mem| == |sizes| * size
    && forall i :: 0 <= i < |sizes| ==> sizes[i] <= size
  }

  /** The visible bytes of each block. */
  ghost function Slices(mem: seq<byte>, sizes: seq<nat>, size: nat): (r: seq<seq<byte>>)
    requires MemOk(mem, sizes, size)
    ensures |r| == |sizes|
    ensures forall i :: 0 <= i < |r| ==> |r[i]| == sizes[i]
  {
    seq(|sizes|, i requires 0 <= i < |sizes| => Slice(mem, i, size, sizes[i], |sizes|))
  }

  ghost function Slice(mem: seq<byte>, i: nat, size: nat, n: nat, count: nat): (r: seq<byte>)
    requires i < count && n <= size && |mem| == count * size
    ensures |r| == n
  {
    BlockBounds(i, count, size);
    mem[i * size..i * size + n]
  }

  /** Bytes written past a block's visible end are invisible everywhere. */
  lemma HiddenWrite(mem: seq<byte>, mem': seq<byte>, sizes: seq<nat>, size: nat, idx: nat, at: nat)
    requires MemOk(mem, sizes, size) && |mem'| == |mem|
    requires idx < |sizes| && sizes[idx] <= at <= size
    requires forall k :: 0 <= k < |mem| && !(idx * size + at <= k < idx * size + size) ==> mem'[k] == mem[k]
    ensures Slices(mem', sizes, size) == Slices(mem, sizes, size)
  {
    forall i | 0 <= i < |sizes|
      ensures Slice(mem', i, size, sizes[i], |sizes|) == Slice(mem, i, size, sizes[i], |sizes|)
    {
      BlockBounds(i, |sizes|, size);
      if i != idx {
        BlocksApart(i, idx, size);
      }
    }
  }

  /** Changing one size changes one block. */
  lemma Resize(mem: seq<byte>, sizes: seq<nat>, size: nat, idx: nat, n: nat)
    requires MemOk(mem, sizes, size) && idx < |sizes| && n <= size
    ensures MemOk(mem, sizes[idx := n], size)
    ensures Slices(mem, sizes[idx := n], size) == Slices(mem, sizes, size)[idx := Slice(mem, idx, size, n, |sizes|)]
  {
  }

  class BufPool {
    const bufNum: nat
    const bufSize: nat
    const bufs: array<byte>
    const dataSize: array<nat>
    const freeIdxQueue: array<nat>
    var head: nat
    var tail: nat
    ghost var view: Pool  // the value of the pool

    /** Storage is well formed; says nothing about what the queue contains. */
    ghost predicate Shape()
      reads this, bufs, dataSize, freeIdxQueue
    {
      && IsPow2(bufNum) && bufSize > 0
      && bufs.Length == bufNum * bufSize < I32_LIMIT
      && dataSize.Length == bufNum && freeIdxQueue.Length == bufNum
      && dataSize != freeIdxQueue
      && RingOk(bufNum, head, tail, U32)
      && MemOk(bufs[..], dataSize[..], bufSize)
    }

    ghost function Abstract(): (p: Pool)
      requires Shape()
      reads this, bufs, dataSize, freeIdxQueue
    {
      Pool(bufSize, Live(freeIdxQueue[..], head, tail, U32), Slices(bufs[..], dataSize[..], bufSize))
    }

    ghost predicate Valid()
      reads this, bufs, dataSize, freeIdxQueue
    {
      Shape() && view == Abstract() && PoolOk(view)
    }

    constructor (bufNum: nat, bufSize: nat)
      requires bufNum > 0 && And(bufNum, bufNum - 1) == 0
      requires bufSize > 0 && bufNum * bufSize < I32_LIMIT
      ensures Valid() && fresh(bufs) && fresh(dataSize) && fresh(freeIdxQueue)
      ensures this.bufNum == bufNum && this.bufSize == bufSize
      ensures view == FullPool(bufNum, bufSize)
    {
      PowerOfTwoTest(bufNum);
      assert bufNum < I32_LIMIT by { MulAtLeast(bufSize, bufNum); }
      EmptyRing(bufNum, 0, U32);
      this.bufNum := bufNum;
      this.bufSize := bufSize;
      bufs := new byte[bufNum * bufSize];
      dataSize := new nat[bufNum](i => 0);
      freeIdxQueue := new nat[bufNum];
      head, tail := 0, 0;
      view := Pool(bufSize, [], Blank(bufNum));
      new;
      assert Abstract().data == Blank(bufNum);
      for i := 0 to bufNum
        invariant Valid()
        invariant fresh(bufs) && fresh(dataSize) && fresh(freeIdxQueue)
        invariant view.free == Numbers(i) && view.data == Blank(bufNum)
      {
        NumbersStep(i);
        Release(i);
        assert Blank(bufNum)[i := []] == Blank(bufNum);
      }
    }

    function BufAddr(idx: nat): (addr: nat)
    {
      idx * bufSize
    }

    function BufIndex(addr: nat): (idx: nat)
      requires bufSize > 0
    {
      addr / bufSize
    }

    /** An address anywhere inside block `i` maps back to `i`: release by address is release by index. */
    lemma AddressRoundTrip(i: nat, at: nat)
      requires at < bufSize
      ensures BufIndex(BufAddr(i) + at) == i
    {
      var x := i * bufSize + at;
      ModUnique(x, i, at, bufSize);
      var q := x / bufSize;
      assert x == q * bufSize + at;
      if q < i {
        BlockBounds(q, i, bufSize);
      } else if i < q {
        BlockBounds(i, q, bufSize);
      }
    }

    method Acquire() returns (idx: nat)
      requires Valid()
      modifies this`head, this`view
      ensures Valid()
      ensures old(view.free) == [] ==> idx == INVALID_IDX && view == old(view)
      ensures old(view.free) != [] ==>
                && idx == old(view.free)[0] && idx < bufNum && idx != INVALID_IDX
                && view == old(view).(free := old(view.free)[1..])
    {
      if head == tail {
        return INVALID_IDX;
      }
      ghost var p := view;
      PopFront(freeIdxQueue[..], head, tail, U32);
      AcquireHolds(p, multiset{});
      MulAtLeast(bufSize, bufNum);
      idx := freeIdxQueue[SlotOf(head, bufNum)];
      head := Inc(head, U32);
      view := p.(free := p.free[1..]);
    }

    /** The overflow assertion of the source holds because a held block is not in the queue. */
    method Release(idx: nat)
      requires Valid() && idx < bufNum && Holds(view, multiset{idx})
      modifies this`tail, this`view, dataSize, freeIdxQueue
      ensures Valid() && view == Blocks.Release(old(view), idx)
      ensures view.free == old(view).free + [idx] && view.data == old(view).data[idx := []]
    {
      ghost var p := view;
      RoomToRelease(p, multiset{idx}, idx);
      assert Sub(tail, head, U32) < bufNum;
      assert Holds(Blocks.Release(p, idx), multiset{}) by {
        assert multiset{idx} + multiset{} == multiset{idx};
        ReleaseHolds(p, idx, multiset{});
      }
      PushBack(freeIdxQueue[..], head, tail, U32, idx);
      Resize(bufs[..], dataSize[..], bufSize, idx, 0);
      ghost var queue, sizes, slot := freeIdxQueue[..], dataSize[..], tail % bufNum;
      freeIdxQueue[SlotOf(tail, bufNum)] := idx;
      tail := Inc(tail, U32);
      dataSize[idx] := 0;
      assert freeIdxQueue[..] == queue[slot := idx];
      assert dataSize[..] == sizes[idx := 0];
      view := Blocks.Release(p, idx);
    }

    /** `std::copy` of `src` into block `idx` at offset `at`, beyond its visible bytes. */
    method CopyTo(idx: nat, at: nat, src: seq<byte>)
      requires Valid() && idx < bufNum
      requires dataSize[idx] <= at && at + |src| <= bufSize
      modifies bufs
      ensures Valid()
      ensures BufAddr(idx) + bufSize <= bufs.Length
      ensures bufs[BufAddr(idx) + at..BufAddr(idx) + at + |src|] == src
      ensures bufs[BufAddr(idx)..BufAddr(idx) + at] == old(bufs[BufAddr(idx)..BufAddr(idx) + at])
    {
      BlockBounds(idx, bufNum, bufSize);
      var base := BufAddr(idx) + at;
      ghost var mem := bufs[..];
      forall k | 0 <= k < |src| {
        bufs[base + k] := src[k];
      }
      HiddenWrite(mem, bufs[..], dataSize[..], bufSize, idx, at);
    }

    method SetDataSize(idx: nat, size: nat)
      requires Valid() && idx < bufNum && size <= bufSize
      requires idx in view.free ==> size == 0
      modifies this`view, dataSize
      ensures Valid()
      ensures BufAddr(idx) + bufSize <= bufs.Length
      ensures view == old(view).(data := old(view).data[idx := bufs[BufAddr(idx)..BufAddr(idx) + size]])
    {
      BlockBounds(idx, bufNum, bufSize);
      Resize(bufs[..], dataSize[..], bufSize, idx, size);
      ghost var sizes := dataSize[..];
      dataSize[idx] := size;
      assert dataSize[..] == sizes[idx := size];
      view := view.(data := view.data[idx := bufs[BufAddr(idx)..BufAddr(idx) + size]]);
    }

    lemma Extent()
      requires Valid()
      ensures |view.data| == bufNum && view.blockSize == bufSize > 0
    {
    }

    /** `data_size(idx)` is the length of the block's visible bytes, and those are at `buf_addr(idx)`. */
    lemma SizeOfView(idx: nat)
      requires Valid() && idx < bufNum
      ensures idx < dataSize.Length && idx < |view.data| && dataSize[idx] == |view.data[idx]| <= bufSize
      ensures BufAddr(idx) + bufSize <= bufs.Length
      ensures view.data[idx] == bufs[BufAddr(idx)..BufAddr(idx) + dataSize[idx]]
    {
      BlockBounds(idx, bufNum, bufSize);
    }
  }
}
