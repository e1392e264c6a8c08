/**
  `BufRing`: the receive blocks of one worker and the ring through which they are lent to the
  kernel.  The kernel is the environment: it takes any block lent to it, fills it, and reports
  the block's number and the number of bytes.
 */
module ReceiveRing {
  import opened Bits
  import opened Blocks
  import opened BufferPool

  class BufRing {
    const bufNum: nat
    const bufSize: nat
    const bufs: array<byte>
    const dataSize: array<nat>
    var lent: seq<nat>     // block numbers in the kernel's ring, oldest first
    ghost var view: Pool   // `free` is what the kernel has

    ghost predicate Shape()
      reads this, bufs, dataSize
    {
      && IsPow2(bufNum) && bufSize > 0
      && bufs.Length == bufNum * bufSize < I32_LIMIT
      && dataSize.Length == bufNum && MemOk(bufs[..], dataSize[..], bufSize)
    }

    ghost predicate Valid()
      reads this, bufs, dataSize
    {
      Shape() && view == Pool(bufSize, lent, Slices(bufs[..], dataSize[..], bufSize)) && PoolOk(view)
    }

    constructor (bufNum: nat, bufSize: nat)
      requires bufNum > 0 && And(bufNum, bufNum - 1) == 0
      requires bufSize > 0 && bufNum * bufSize < I32_LIMIT
      ensures Valid() && fresh(bufs) && fresh(dataSize)
      ensures this.bufNum == bufNum && this.bufSize == bufSize && view == FullPool(bufNum, bufSize)
    {
      PowerOfTwoTest(bufNum);
      this.bufNum := bufNum;
      this.bufSize := bufSize;
      bufs := new byte[bufNum * bufSize];
      dataSize := new nat[bufNum](i => 0);
      lent := [];
      view := FullPool(bufNum, bufSize);
      new;
      for i := 0 to bufNum
        invariant lent == Numbers(i) && view == FullPool(bufNum, bufSize)
        invariant Shape() && forall k :: 0 <= k < bufNum ==> dataSize[k] == 0
        invariant fresh(bufs) && fresh(dataSize)
      {
        NumbersStep(i);
        lent := lent + [i];
      }
      AllOnce(bufNum);
      assert Slices(bufs[..], dataSize[..], bufSize) == Blank(bufNum);
    }

    function BufAddr(idx: nat): (addr: nat)
    {
      idx * bufSize
    }

    /** `add_buf` and `advance_ring`: the block is the kernel's again. */
    method Release(idx: nat)
      requires Valid() && idx < bufNum && Holds(view, multiset{idx})
      modifies this`lent, this`view, dataSize
      ensures Valid() && view == Blocks.Release(old(view), idx)
      ensures view.free == old(view).free + [idx] && view.data == old(view).data[idx := []]
    {
      ghost var p := view;
      assert Holds(Blocks.Release(p, idx), multiset{}) by {
        assert multiset{idx} + multiset{} == multiset{idx};
        ReleaseHolds(p, idx, multiset{});
      }
      Resize(bufs[..], dataSize[..], bufSize, idx, 0);
      ghost var sizes := dataSize[..];
      lent := lent + [idx];
      dataSize[idx] := 0;
      assert dataSize[..] == sizes[idx := 0];
      view := Blocks.Release(p, idx);
    }

    method SetDataSize(idx: nat, size: nat)
      requires Valid() && idx < bufNum && size <= bufSize && (idx in view.free ==> size == 0)
      modifies this`view, dataSize
      ensures Valid() && BufAddr(idx) + bufSize <= bufs.Length
      ensures view == old(view).(data := old(view).data[idx := bufs[BufAddr(idx)..BufAddr(idx) + size]])
    {
      BlockBounds(idx, bufNum, bufSize);
      Resize(bufs[..], dataSize[..], bufSize, idx, size);
      ghost var sizes := dataSize[..];
      dataSize[idx] := size;
      assert dataSize[..] == sizes[idx := size];
      view := view.(data := view.data[idx := bufs[BufAddr(idx)..BufAddr(idx) + size]]);
    }

    /** The kernel takes the `k`-th block it was lent and receives `bytes` into it. */
    method KernelFills(k: nat, bytes: seq<byte>) returns (idx: nat)
      requires Valid() && k < |view.free| && 0 < |bytes| <= bufSize
      modifies this`lent, this`view, bufs
      ensures Valid() && idx == old(view.free)[k] && idx < bufNum && idx !in view.free
      ensures view == old(view).(free := Without(old(view.free), k))
      ensures BufAddr(idx) + bufSize <= bufs.Length && bufs[BufAddr(idx)..BufAddr(idx) + |bytes|] == bytes
    {
      ghost var p := view;
      idx := lent[k];
      TakenByKernel(p, k);
      BlockBounds(idx, bufNum, bufSize);
      var base := BufAddr(idx);
      ghost var mem := bufs[..];
      assert |view.data[idx]| == 0 && dataSize[idx] == 0;
      forall j | 0 <= j < |bytes| {
        bufs[base + j] := bytes[j];
      }
      HiddenWrite(mem, bufs[..], dataSize[..], bufSize, idx, 0);
      lent := lent[..k] + lent[k + 1..];
      view := p.(free := lent);
    }

    lemma SizeOfView(idx: nat)
      requires Valid() && idx < bufNum
      ensures idx < dataSize.Length && idx < |view.data| && dataSize[idx] == |view.data[idx]| <= bufSize
      ensures BufAddr(idx) + bufSize <= bufs.Length
      ensures view.data[idx] == bufs[BufAddr(idx)..BufAddr(idx) + dataSize[idx]]
    {
      BlockBounds(idx, bufNum, bufSize);
    }
  }

  /** Taking any one block out of the ring passes it to the taker. */
  lemma TakenByKernel(p: Pool, k: nat)
    requires PoolOk(p) && k < |p.free|
    ensures p.free[k] < |p.data| && p.data[p.free[k]] == []
    ensures var rest := Without(p.free, k);
            p.free[k] !in rest && PoolOk(p.(free := rest))
    ensures forall held :: Holds(p, held) ==> Holds(p.(free := Without(p.free, k)), multiset{p.free[k]} + held)
  {
    var x, rest := p.free[k], Without(p.free, k);
    assert x in p.free;
    OnceIndices(p.free, |p.data|);
    WithoutCount(p.free, k);
    OncePart(multiset(rest), multiset(p.free), |p.data|);
    forall held | Holds(p, held) ensures Holds(p.(free := rest), multiset{x} + held) {
      assert multiset(rest) + (multiset{x} + held) == multiset(p.free) + held;
    }
  }
}
