/**
  `WriteBufDgram`: the pending list of a UDP channel, turned slot by slot into datagrams.
  `vecs` gives, for each header, the blocks behind its iovec addresses.
 */
module WriteDgram {
  import opened Bits
  import opened Ring
  import opened Blocks
  import opened BufferPool
  import opened WriteSpec
  import opened WriteBuffer
  import opened WriteStream
  import opened UdpWorker
  import opened MessageSlots

  /** The header's entries are the addresses and lengths of whole blocks. */
  ghost predicate Matches(pool: BufPool, h: Header, v: seq<Iovec>) {
    && h.count == |v| <= |h.iov| && h.iov[..|v|] == Raw(pool, v)
    && forall i :: 0 <= i < |v| ==> v[i].at == 0 && v[i].block < pool.bufNum
  }

  class WriteBufDgram {
    const base: WriteBufBase
    const hdrs: MsghdrPool
    const slotQueue: array<nat>
    var msghdrHead: nat
    var msghdrTail: nat
    ghost var queue: seq<nat>        // slots waiting for the write loop
    ghost var vecs: seq<seq<Iovec>>  // what each header refers to

    /** No array is used for two purposes. */
    ghost predicate Separate() {
      && slotQueue != base.pendingBufs && slotQueue != base.pool.dataSize && slotQueue != base.pool.freeIdxQueue
      && slotQueue != hdrs.pool && slotQueue != hdrs.counts
      && hdrs.pool != base.pendingBufs && hdrs.pool != base.pool.dataSize && hdrs.pool != base.pool.freeIdxQueue
      && hdrs.counts != base.pendingBufs && hdrs.counts != base.pool.dataSize && hdrs.counts != base.pool.freeIdxQueue
    }

    ghost predicate QueueOk()
      reads this`msghdrHead, this`msghdrTail, this`queue, slotQueue
    {
      && slotQueue.Length == base.capacity && IsPow2(base.capacity)
      && RingOk(base.capacity, msghdrHead, msghdrTail, U64)
      && queue == Live(slotQueue[..], msghdrHead, msghdrTail, U64)
    }

    ghost predicate SlotsMatch()
      reads this`vecs, hdrs`slots
    {
      && |hdrs.slots| == |vecs| == hdrs.capacity
      && forall i :: 0 <= i < |vecs| ==> Matches(base.pool, hdrs.slots[i], vecs[i])
    }

    ghost predicate Valid()
      reads this, slotQueue, base, base.pendingBufs,
            base.pool, base.pool.bufs, base.pool.dataSize, base.pool.freeIdxQueue,
            hdrs, hdrs.names, hdrs.counts, hdrs.iovecs, hdrs.pool
    {
      Separate() && QueueOk() && base.Valid() && hdrs.Valid() && SlotsMatch()
    }

    constructor (pool: BufPool, hdrs: MsghdrPool, capacity: nat)
      requires pool.Valid() && hdrs.Valid() && capacity > 0 && And(capacity, capacity - 1) == 0 && capacity < I32_LIMIT
      requires forall i :: 0 <= i < hdrs.capacity ==> hdrs.slots[i] == Zeroed(hdrs.maxIov)
      requires hdrs.pool != pool.dataSize && hdrs.pool != pool.freeIdxQueue
      requires hdrs.counts != pool.dataSize && hdrs.counts != pool.freeIdxQueue
      ensures Valid() && base.pool == pool && this.hdrs == hdrs && base.capacity == capacity
      ensures base.pending == [] && queue == [] && vecs == seq(hdrs.capacity, i => [])
      ensures fresh(base) && fresh(base.pendingBufs) && fresh(slotQueue)
    {
      base := new WriteBufBase(pool, capacity);
      this.hdrs := hdrs;
      slotQueue := new nat[capacity];
      msghdrHead, msghdrTail := 0, 0;
      queue := [];
      vecs := seq(hdrs.capacity, i => []);
      new;
      EmptyRing(capacity, 0, U64);
    }

    lemma Parts()
      requires Valid()
      ensures base.Valid() && hdrs.Valid() && QueueOk() && SlotsMatch() && Separate()
      ensures base.pool.Valid() && Holds(base.pool.view, multiset(base.pending))
      ensures InRange(base.pool.view.data, base.pending)
      ensures |base.pending| <= base.capacity && |queue| <= base.capacity
      ensures base.pendingTail < U64 && base.pendingHead < U64
      ensures Sub(base.pendingTail, base.pendingHead, U64) == |base.pending|
      ensures msghdrTail < U64 && msghdrHead < U64 && Sub(msghdrTail, msghdrHead, U64) == |queue|
    {
      base.Bounds();
      base.ValidPool();
      HoldsIndices(base.pool.view, base.pending);
    }

    lemma Rejoin()
      requires base.Valid() && hdrs.Valid() && QueueOk() && SlotsMatch() && Separate()
      ensures Valid()
    {
    }

    method Append(src: seq<byte>) returns (ok: bool)
      requires Valid() && |src| < U32
      modifies base`pendingTail, base`pending, base.pendingBufs,
               base.pool, base.pool.bufs, base.pool.dataSize, base.pool.freeIdxQueue
      ensures Valid() && Holds(old(base.pool.view), multiset(old(base.pending))) && |old(base.pending)| <= base.capacity
      ensures AppendSpec(old(base.pool.view), old(base.pending), base.capacity, src)
              == Outcome(ok, base.pool.view, base.pending)
    {
      hide Valid, base.Valid, hdrs.Valid, AppendSpec, SlotsMatch, QueueOk, Holds;
      Parts();
      ok := base.Append(src);
      Rejoin();
    }

    method Prepend(src: seq<byte>) returns (ok: bool)
      requires Valid() && |src| < U32
      modifies base`pendingHead, base`pending, base.pendingBufs,
               base.pool, base.pool.bufs, base.pool.dataSize, base.pool.freeIdxQueue
      ensures Valid() && Holds(old(base.pool.view), multiset(old(base.pending))) && |old(base.pending)| <= base.capacity
      ensures PrependSpec(old(base.pool.view), old(base.pending), base.capacity, src)
              == Outcome(ok, base.pool.view, base.pending)
    {
      hide Valid, base.Valid, hdrs.Valid, PrependSpec, SlotsMatch, QueueOk, Holds;
      Parts();
      ok := base.Prepend(src);
      Rejoin();
    }

    method DiscardPending()
      requires Valid()
      modifies base`pendingHead, base`pendingTail, base`pending,
               base.pool`tail, base.pool`view, base.pool.dataSize, base.pool.freeIdxQueue
      ensures Valid() && base.pending == []
      ensures InRange(old(base.pool.view.data), old(base.pending))
      ensures base.pool.view == ReleaseAll(old(base.pool.view), old(base.pending))
    {
      hide Valid, base.Valid, hdrs.Valid, SlotsMatch, QueueOk, Holds;
      Parts();
      assert multiset(base.pending) + multiset{} == multiset(base.pending);
      base.DiscardPending(multiset{});
      Rejoin();
    }

    method AcquireSlot() returns (ok: bool, slot: nat)
      requires Valid()
      modifies hdrs`head, hdrs`free
      ensures Valid() && ok == (old(hdrs.free) != [])
      ensures ok ==> slot == old(hdrs.free)[0] < hdrs.capacity && hdrs.free == old(hdrs.free)[1..] && vecs[slot] == []
      ensures ok ==> slot !in hdrs.free && Once(multiset(hdrs.free) + multiset{slot}, hdrs.capacity)
      ensures !ok ==> hdrs.free == old(hdrs.free)
    {
      hide Valid, base.Valid, hdrs.Valid, QueueOk, Holds, Once;
      Parts();
      ok, slot := hdrs.Acquire();
      if ok {
        hdrs.NotFree(slot);
        assert Matches(base.pool, Zeroed(hdrs.maxIov), vecs[slot]);
      }
      Rejoin();
    }

    /** The destination, copied into the header. */
    method NameSlot(slot: nat, name: seq<byte>)
      requires Valid() && slot < hdrs.capacity && slot !in hdrs.free
      modifies hdrs`slots, hdrs.names
      ensures Valid() && slot < |old(hdrs.slots)|
      ensures hdrs.slots == old(hdrs.slots)[slot := old(hdrs.slots)[slot].(name := name)]
    {
      hide Valid, base.Valid, hdrs.Valid, QueueOk, Holds;
      Parts();
      hdrs.SetName(slot, name);
      assert forall i :: 0 <= i < |vecs| ==> Matches(base.pool, old(hdrs.slots)[i], vecs[i]);
      Rejoin();
    }

    /** One entry of the header, for the first pending block. */
    method MoveEntry(slot: nat, j: nat, ghost v: Iovec)
      requires base.Valid() && hdrs.Valid() && Separate() && base.pending != []
      requires slot < hdrs.capacity && slot !in hdrs.free && j < hdrs.maxIov
      requires base.pending[0] < |base.pool.view.data|
      requires v == Iovec(base.pending[0], 0, |base.pool.view.data[base.pending[0]]|)
      modifies base`pendingHead, base`pending, hdrs`slots, hdrs.iovecs
      ensures base.Valid() && hdrs.Valid() && base.pending == old(base.pending)[1..]
      ensures |old(hdrs.slots)[slot].iov| == hdrs.maxIov
      ensures hdrs.slots
              == old(hdrs.slots)[slot :=
                   old(hdrs.slots)[slot].(iov := old(hdrs.slots)[slot].iov[j := RawOf(base.pool, v)])]
    {
      ghost var pend := base.pending;
      assert pend == [pend[0]] + pend[1..];
      HoldsPart(base.pool.view, multiset(pend[1..]), multiset(pend));
      var idx := base.PopPending();
      base.pool.SizeOfView(idx);
      hdrs.SetEntry(slot, j, RawIovec(base.pool.BufAddr(idx), base.pool.dataSize[idx]));
    }

    /** The loop of `submit`: every pending block becomes an entry of the header, in order. */
    method FillSlot(slot: nat) returns (n: nat)
      requires base.Valid() && hdrs.Valid() && Separate() && slot < hdrs.capacity && slot !in hdrs.free
      requires |base.pending| <= hdrs.maxIov && InRange(base.pool.view.data, base.pending)
      requires |hdrs.slots| == hdrs.capacity && |hdrs.slots[slot].iov| == hdrs.maxIov
      modifies base`pendingHead, base`pending, hdrs`slots, hdrs.iovecs
      ensures base.Valid() && hdrs.Valid() && base.pending == [] && n == |old(base.pending)|
      ensures |hdrs.slots| == hdrs.capacity && |hdrs.slots[slot].iov| == hdrs.maxIov
      ensures hdrs.slots == old(hdrs.slots)[slot := old(hdrs.slots)[slot].(iov := hdrs.slots[slot].iov)]
      ensures hdrs.slots[slot].iov[..n] == Raw(base.pool, Iovecs(base.pool.view.data, old(base.pending), 0))
    {
      hide base.Valid, hdrs.Valid;
      ghost var pend, slots0 := base.pending, hdrs.slots;
      ghost var v := Iovecs(base.pool.view.data, pend, 0);
      ghost var raw := Raw(base.pool, v);
      n := 0;
      base.Bounds();
      while base.pendingHead != base.pendingTail
        invariant base.Valid() && hdrs.Valid() && n <= |pend| && base.pending == pend[n..]
        invariant base.pendingHead < U64 && base.pendingTail < U64
        invariant base.pendingHead == base.pendingTail <==> n == |pend|
        invariant |hdrs.slots| == hdrs.capacity && |hdrs.slots[slot].iov| == hdrs.maxIov
        invariant hdrs.slots == slots0[slot := slots0[slot].(iov := hdrs.slots[slot].iov)]
        invariant hdrs.slots[slot].iov[..n] == raw[..n]
        decreases |pend| - n
      {
        ghost var iov := hdrs.slots[slot].iov;
        assert base.pending[0] == pend[n];
        MoveEntry(slot, n, v[n]);
        OneMore(iov, raw, n);
        n := n + 1;
        base.Bounds();
      }
      assert raw[..n] == raw;
    }

    /** `slot_queue_[msghdr_tail_++ & mask_] = slot` */
    method Enqueue(slot: nat)
      requires QueueOk() && |queue| < base.capacity
      modifies this`msghdrTail, this`queue, slotQueue
      ensures QueueOk() && queue == old(queue) + [slot]
    {
      ghost var ring, at := slotQueue[..], msghdrTail % base.capacity;
      PushBack(ring, msghdrHead, msghdrTail, U64, slot);
      slotQueue[SlotOf(msghdrTail, base.capacity)] := slot;
      msghdrTail := Inc(msghdrTail, U64);
      assert slotQueue[..] == ring[at := slot];
      queue := queue + [slot];
    }

    /**
      All pending blocks become the header's iovecs and the header joins the queue, or nothing changes.
      A `slot` past the last header stands for null.
     */
    method Submit(slot: nat) returns (ok: bool)
      requires Valid() && slot !in hdrs.free
      modifies this`msghdrTail, this`queue, this`vecs, slotQueue, base`pendingHead, base`pending,
               hdrs`slots, hdrs.iovecs, hdrs.counts
      ensures Valid() && InRange(base.pool.view.data, old(base.pending))
      ensures ok <==> slot < hdrs.capacity && 0 < |old(base.pending)| <= hdrs.maxIov && |old(queue)| < base.capacity
      ensures ok ==> base.pending == [] && queue == old(queue) + [slot]
      ensures ok ==> vecs == old(vecs)[slot := Iovecs(base.pool.view.data, old(base.pending), 0)]
      ensures !ok ==> base.pending == old(base.pending) && queue == old(queue)
      ensures !ok ==> vecs == old(vecs) && hdrs.slots == old(hdrs.slots)
      ensures |hdrs.slots| == |old(hdrs.slots)|
      ensures forall i :: 0 <= i < |hdrs.slots| ==> hdrs.slots[i].name == old(hdrs.slots)[i].name
    {
      hide Valid, base.Valid, hdrs.Valid, QueueOk, Matches;
      Parts();
      var pendingCount := Sub(base.pendingTail, base.pendingHead, U64);
      if pendingCount == 0 {
        return false;
      }
      if Sub(msghdrTail, msghdrHead, U64) >= base.capacity {
        return false;
      }
      if slot >= hdrs.capacity {
        return false;
      }
      if pendingCount > hdrs.maxIov {
        return false;
      }
      Commit(slot);
      return true;
    }

    method Commit(slot: nat)
      requires Valid() && slot < hdrs.capacity && slot !in hdrs.free
      requires 0 < |base.pending| <= hdrs.maxIov && |queue| < base.capacity
      requires InRange(base.pool.view.data, base.pending)
      modifies this`msghdrTail, this`queue, this`vecs, slotQueue, base`pendingHead, base`pending,
               hdrs`slots, hdrs.iovecs, hdrs.counts
      ensures Valid() && base.pending == [] && queue == old(queue) + [slot]
      ensures vecs == old(vecs)[slot := Iovecs(base.pool.view.data, old(base.pending), 0)]
      ensures |hdrs.slots| == |old(hdrs.slots)|
      ensures forall i :: 0 <= i < |hdrs.slots| ==> hdrs.slots[i].name == old(hdrs.slots)[i].name
    {
      hide base.Valid, hdrs.Valid, QueueOk, Matches;
      Parts();
      SlotShape(slot);
      ghost var pend, slots0 := base.pending, hdrs.slots;
      ghost var v := Iovecs(base.pool.view.data, pend, 0);
      var n := FillSlot(slot);
      hdrs.SetCount(slot, n);
      Enqueue(slot);
      vecs := vecs[slot := v];
      MatchesNow(base.pool, hdrs.slots[slot], pend);
    }

    lemma SlotShape(slot: nat)
      requires hdrs.Valid() && slot < hdrs.capacity
      ensures |hdrs.slots| == hdrs.capacity && |hdrs.slots[slot].iov| == hdrs.maxIov
    {
    }

    method PeekSlot(offset: int) returns (found: bool, slot: nat)
      requires QueueOk()
      ensures found <==> 0 <= offset < |queue|
      ensures found ==> slot == queue[offset]
    {
      if offset < 0 || offset >= Sub(msghdrTail, msghdrHead, U64) {
        return false, 0;
      }
      LiveAt(slotQueue[..], msghdrHead, msghdrTail, U64, offset);
      return true, slotQueue[SlotOf(msghdrHead + offset, base.capacity)];
    }

    method ClearSlotQueue()
      requires Valid()
      modifies this`msghdrHead, this`queue
      ensures Valid() && queue == []
    {
      hide base.Valid, hdrs.Valid;
      msghdrHead := msghdrTail;
      queue := [];
      EmptyRing(base.capacity, msghdrTail, U64);
    }

    /** One turn of `release_slot`: the block behind the `i`-th address goes back to the pool. */
    method ReleaseEntry(slot: nat, i: nat, ghost idx: nat)
      requires base.pool.Valid() && hdrs.Valid() && slot < hdrs.capacity && i < hdrs.maxIov
      requires |hdrs.slots[slot].iov| == hdrs.maxIov && hdrs.slots[slot].iov[i].addr == base.pool.BufAddr(idx)
      requires idx < base.pool.bufNum && Holds(base.pool.view, multiset{idx})
      modifies base.pool`tail, base.pool`view, base.pool.dataSize, base.pool.freeIdxQueue
      ensures base.pool.Valid() && idx < |old(base.pool.view.data)|
      ensures base.pool.view == Blocks.Release(old(base.pool.view), idx)
    {
      BlockBounds(slot, hdrs.capacity, hdrs.maxIov);
      base.pool.Extent();
      base.pool.AddressRoundTrip(idx, 0);
      var addr := hdrs.iovecs[slot * hdrs.maxIov + i].addr;
      assert addr == hdrs.slots[slot].iov[i].addr;
      base.pool.Release(base.pool.BufIndex(addr));
    }

    /** The loop of `release_slot`: all blocks the header refers to, in order. */
    method ReleaseEntries(slot: nat, ghost held: multiset<nat>)
      requires base.pool.Valid() && hdrs.Valid() && Separate() && SlotsMatch() && slot < hdrs.capacity
      requires Holds(base.pool.view, multiset(BlocksOf(vecs[slot])) + held)
      modifies base.pool`tail, base.pool`view, base.pool.dataSize, base.pool.freeIdxQueue
      ensures base.pool.Valid() && hdrs.Valid() && Holds(base.pool.view, held)
      ensures InRange(old(base.pool.view.data), BlocksOf(vecs[slot]))
      ensures base.pool.view == ReleaseAll(old(base.pool.view), BlocksOf(vecs[slot]))
    {
      hide base.pool.Valid, hdrs.Valid, Holds;
      ghost var p0, blocks := base.pool.view, BlocksOf(vecs[slot]);
      ReleaseAllHolds(p0, blocks, held);
      SlotShape(slot);
      CountIs(slot);
      var i := 0;
      assert blocks[0..] == blocks;
      while i < hdrs.counts[slot]
        invariant base.pool.Valid() && hdrs.Valid() && i <= |blocks| == hdrs.counts[slot]
        invariant Holds(base.pool.view, multiset(blocks[i..]) + held)
        invariant InRange(base.pool.view.data, blocks[i..])
        invariant ReleaseAll(base.pool.view, blocks[i..]) == ReleaseAll(p0, blocks)
      {
        FirstOfHeld(base.pool.view, blocks[i..], held);
        ReleaseAllFirst(base.pool.view, blocks[i..]);
        assert blocks[i..][1..] == blocks[i + 1..];
        EntryIs(slot, i);
        ReleaseEntry(slot, i, blocks[i]);
        i := i + 1;
      }
      assert blocks[i..] == [];
      ReleaseNone(base.pool.view);
      assert multiset([]) + held == held;
    }

    lemma CountIs(slot: nat)
      requires hdrs.Valid() && SlotsMatch() && slot < hdrs.capacity
      ensures slot < hdrs.counts.Length && hdrs.counts[slot] == |vecs[slot]|
    {
    }

    lemma EntryIs(slot: nat, i: nat)
      requires hdrs.Valid() && SlotsMatch() && slot < hdrs.capacity && i < |vecs[slot]|
      ensures i < hdrs.maxIov && i < |hdrs.slots[slot].iov|
      ensures vecs[slot][i].block < base.pool.bufNum
      ensures hdrs.slots[slot].iov[i].addr == base.pool.BufAddr(vecs[slot][i].block)
    {
      var h, v := hdrs.slots[slot], vecs[slot];
      assert Matches(base.pool, h, v);
      assert h.iov[i] == h.iov[..|v|][i] == RawOf(base.pool, v[i]);
      assert v[i].at == 0;
    }

    /** Buffers recovered from raw addresses go back in order, then the header, zeroed. */
    method ReleaseSlot(slot: nat, ghost held: multiset<nat>)
      requires Valid() && slot < hdrs.capacity && Once(multiset(hdrs.free) + multiset{slot}, hdrs.capacity)
      requires Holds(base.pool.view, multiset(BlocksOf(vecs[slot])) + held) && multiset(base.pending) <= held
      modifies this`vecs, base.pool`tail, base.pool`view, base.pool.dataSize, base.pool.freeIdxQueue,
               hdrs`tail, hdrs`free, hdrs`slots, hdrs.names, hdrs.counts, hdrs.iovecs, hdrs.pool
      ensures Valid() && Holds(base.pool.view, held)
      ensures InRange(old(base.pool.view.data), BlocksOf(old(vecs)[slot]))
      ensures base.pool.view == ReleaseAll(old(base.pool.view), BlocksOf(old(vecs)[slot]))
      ensures vecs == old(vecs)[slot := []] && hdrs.free == old(hdrs.free) + [slot]
      ensures hdrs.slots == old(hdrs.slots)[slot := Zeroed(hdrs.maxIov)]
    {
      hide base.pool.Valid, hdrs.Valid, Holds, QueueOk, Matches, Once, base.Shape;
      Parts();
      BaseShape();
      ReleaseEntries(slot, held);
      hdrs.Release(slot);
      vecs := vecs[slot := []];
      HoldsPart(base.pool.view, multiset(base.pending), held);
      BaseAgain();
      EmptyMatches(base.pool, hdrs.maxIov);
    }

    lemma BaseShape()
      requires base.Valid()
      ensures base.Shape()
    {
    }

    lemma BaseAgain()
      requires base.Shape() && base.pool.Valid() && Holds(base.pool.view, multiset(base.pending))
      ensures base.Valid()
    {
    }
  }

  lemma EmptyMatches(pool: BufPool, maxIov: nat)
    ensures Matches(pool, Zeroed(maxIov), [])
  {
    assert Zeroed(maxIov).iov[..0] == [];
  }

  lemma OneMore(iov: seq<RawIovec>, raw: seq<RawIovec>, n: nat)
    requires n < |iov| && n < |raw| && iov[..n] == raw[..n]
    ensures iov[n := raw[n]][..n + 1] == raw[..n + 1]
  {
    assert iov[n := raw[n]][..n + 1] == iov[..n] + [raw[n]];
    assert raw[..n + 1] == raw[..n] + [raw[n]];
  }

  lemma MatchesNow(pool: BufPool, h: Header, pend: seq<nat>)
    requires pool.Valid() && InRange(pool.view.data, pend) && h.count == |pend| <= |h.iov|
    requires h.iov[..|pend|] == Raw(pool, Iovecs(pool.view.data, pend, 0))
    ensures Matches(pool, h, Iovecs(pool.view.data, pend, 0))
  {
    pool.Extent();
  }
}
