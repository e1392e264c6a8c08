/**
  `ReadBufStream`: the queue of received blocks of one TCP channel, with 32-bit counters.
 */
module ReadBuffer {
  import opened Bits
  import opened Ring
  import opened Blocks
  import opened WriteSpec
  import opened WriteStream
  import opened ReceiveRing
  import opened ReadSpec

  /** A fragment as `peek` reports it: an address and a length. */
  ghost function Fragment(ring: BufRing, v: Iovec): RawIovec {
    RawIovec(ring.BufAddr(v.block) + v.at, v.len)
  }

  ghost function Fragments(ring: BufRing, v: seq<Iovec>): (r: seq<RawIovec>)
    ensures |r| == |v|
  {
    seq(|v|, i requires 0 <= i < |v| => Fragment(ring, v[i]))
  }

  lemma FragmentReads(ring: BufRing, v: Iovec)
    requires ring.Valid() && v.block < |ring.view.data| && v.at + v.len <= |ring.view.data[v.block]|
    ensures ring.BufAddr(v.block) + v.at + v.len <= ring.bufs.Length
    ensures ring.bufs[ring.BufAddr(v.block) + v.at..ring.BufAddr(v.block) + v.at + v.len] == ReadOne(ring.view.data, v)
  {
    ring.SizeOfView(v.block);
    ArraySlice(ring.bufs, ring.BufAddr(v.block), ring.dataSize[v.block], v.at, v.len);
  }

  /** Following the addresses reads the blocks. */
  lemma {:induction false} FragmentsRead(ring: BufRing, v: seq<Iovec>)
    requires ring.Valid() && Readable(ring.view.data, v)
    ensures InMemory(ring.bufs[..], Fragments(ring, v))
    ensures ReadRaw(ring.bufs[..], Fragments(ring, v)) == ReadVec(ring.view.data, v)
    decreases |v|
  {
    hide ring.Valid, ring.BufAddr, Fragment;
    FragmentsInMemory(ring, v);
    if v != [] {
      var raw, mem := Fragments(ring, v), ring.bufs[..];
      FragmentsRead(ring, v[1..]);
      assert raw[1..] == Fragments(ring, v[1..]);
      FragmentBytes(ring, v[0]);
      ReadVecFirst(ring.view.data, v);
    }
  }

  lemma FragmentBytes(ring: BufRing, v: Iovec)
    requires ring.Valid() && v.block < |ring.view.data| && v.at + v.len <= |ring.view.data[v.block]|
    ensures var f := Fragment(ring, v);
            f.addr + f.len <= ring.bufs.Length && ring.bufs[..][f.addr..f.addr + f.len] == ReadOne(ring.view.data, v)
  {
    hide ring.Valid, ring.BufAddr;
    FragmentReads(ring, v);
    var f := Fragment(ring, v);
    assert ring.bufs[..][f.addr..f.addr + f.len] == ring.bufs[f.addr..f.addr + f.len];
  }

  lemma FragmentsInMemory(ring: BufRing, v: seq<Iovec>)
    requires ring.Valid() && Readable(ring.view.data, v)
    ensures InMemory(ring.bufs[..], Fragments(ring, v))
  {
    hide ring.Valid, ring.BufAddr, Fragment;
    forall i | 0 <= i < |v| ensures Fragment(ring, v[i]).addr + Fragment(ring, v[i]).len <= ring.bufs.Length {
      FragmentBytes(ring, v[i]);
    }
  }

  class ReadBufStream {
    const ring: BufRing
    const capacity: nat
    const bufQueue: array<nat>
    const peeked: array<RawIovec>
    var head: nat
    var tail: nat
    var readableBytes: nat
    var headOffset: nat
    ghost var queue: seq<nat>  // the received blocks, first to last

    ghost predicate Shape()
      reads this, bufQueue
    {
      && IsPow2(capacity) && capacity < I32_LIMIT
      && bufQueue.Length == capacity && peeked.Length == capacity && bufQueue != ring.dataSize
      && RingOk(capacity, head, tail, U32)
      && queue == Live(bufQueue[..], head, tail, U32)
    }

    /** Everything but the byte count. */
    ghost predicate Core()
      reads this, bufQueue, ring, ring.bufs, ring.dataSize
    {
      && Shape() && ring.Valid() && capacity == ring.bufNum
      && Holds(ring.view, multiset(queue))
      && HeadOk(ring.view.data, queue, headOffset) && Filled(ring.view.data, queue)
    }

    ghost predicate Valid()
      reads this, bufQueue, ring, ring.bufs, ring.dataSize
    {
      Core() && readableBytes == |Unsent(ring.view.data, queue, headOffset)|
    }

    constructor (ring: BufRing)
      requires ring.Valid()
      ensures Valid() && queue == [] && this.ring == ring && fresh(bufQueue) && fresh(peeked) && head == 0 && tail == 0
    {
      assert ring.bufNum < I32_LIMIT by { MulAtLeast(ring.bufSize, ring.bufNum); }
      EmptyRing(ring.bufNum, 0, U32);
      this.ring := ring;
      capacity := ring.bufNum;
      bufQueue := new nat[ring.bufNum];
      peeked := new RawIovec[ring.bufNum](_ => RawIovec(0, 0));
      head, tail, readableBytes, headOffset := 0, 0, 0, 0;
      queue := [];
      new;
      assert multiset(ring.view.free) + multiset([]) == multiset(ring.view.free);
    }

    ghost function Unread(): Sending
      reads this, ring
    {
      Sending(ring.view, queue, headOffset)
    }

    lemma Facts()
      requires Core()
      ensures SendOk(Unread()) && |UnsentOf(Unread())| < I32_LIMIT && Filled(ring.view.data, queue)
      ensures head < U32 && tail < U32 && Sub(tail, head, U32) == |queue| <= capacity
      ensures ring.Valid() && |ring.view.data| == capacity
    {
      HoldsIndices(ring.view, queue);
      assert Apart(queue) by {
        assert forall i :: 0 <= i < |queue| ==> queue[i] == (queue + ring.view.free)[i];
      }
      UnsentBound(ring.view, queue, headOffset);
    }

    /**
      A block the kernel has just filled is always accepted: the queue has as many places as there are blocks,
      and this one is not in it yet.
     */
    method PushBuf(idx: nat) returns (ok: bool)
      requires Valid() && idx < capacity && ring.view.data[idx] != []
      requires Holds(ring.view, multiset(queue) + multiset{idx})
      modifies this`tail, this`readableBytes, this`queue, bufQueue
      ensures Valid() && ok && queue == old(queue) + [idx] && old(tail) < U32 && tail == Inc(old(tail), U32)
      ensures Unsent(ring.view.data, queue, headOffset)
              == old(Unsent(ring.view.data, queue, headOffset)) + ring.view.data[idx]
    {
      ghost var p, q := ring.view, queue;
      PushFits(p, q, idx);
      Facts();
      if Sub(tail, head, U32) >= capacity {
        assert false;
        return false;
      }
      Accepted(p, q, headOffset, idx);
      ghost var slots, slot := bufQueue[..], tail % capacity;
      PushBack(slots, head, tail, U32, idx);
      UnsentBound(p, q + [idx], headOffset);
      ring.SizeOfView(idx);
      bufQueue[SlotOf(tail, capacity)] := idx;
      tail := Inc(tail, U32);
      queue := queue + [idx];
      readableBytes := AddWord(readableBytes, ring.dataSize[idx]);
      assert bufQueue[..] == slots[slot := idx];
      return true;
    }

    /**
      The delivery part of the read loop: `set_buf_data_size(idx, res)` and `push_buf(idx)`, whose result it ignores.
     */
    method OnReceived(idx: nat, res: nat)
      requires Valid() && idx < capacity && ring.view.data[idx] == [] && 0 < res <= ring.bufSize
      requires Holds(ring.view, multiset(queue) + multiset{idx})
      modifies this`tail, this`readableBytes, this`queue, bufQueue, ring`view, ring.dataSize
      ensures Valid() && queue == old(queue) + [idx] && old(tail) < U32 && tail == Inc(old(tail), U32)
      ensures ring.BufAddr(idx) + res <= ring.bufs.Length
      ensures ring.view
              == old(ring.view).(data :=
                   old(ring.view.data)[idx := ring.bufs[ring.BufAddr(idx)..ring.BufAddr(idx) + res]])
      ensures Unsent(ring.view.data, queue, headOffset)
              == old(Unsent(ring.view.data, queue, headOffset)) + ring.bufs[ring.BufAddr(idx)..ring.BufAddr(idx) + res]
    {
      ghost var p := ring.view;
      SizeSet(idx, res);
      var accepted := PushBuf(idx);
    }

    /** The kernel receives `bytes` into the `k`-th block it was lent, and the read loop queues the block. */
    method Receive(k: nat, bytes: seq<byte>)
      requires Valid() && k < |ring.view.free| && 0 < |bytes| <= ring.bufSize
      modifies this`tail, this`readableBytes, this`queue, bufQueue, ring`lent, ring`view, ring.bufs, ring.dataSize
      ensures Valid() && old(tail) < U32 && tail == Inc(old(tail), U32)
      ensures queue == old(queue) + [old(ring.view.free)[k]] && ring.view.free == Without(old(ring.view.free), k)
      ensures Unsent(ring.view.data, queue, headOffset) == old(Unsent(ring.view.data, queue, headOffset)) + bytes
    {
      hide Valid, Unsent, Holds, Without;
      var idx := TakeFilled(k, bytes);
      OnReceived(idx, |bytes|);
    }

    /** The kernel's half: the block is out of its ring, filled, and in no queue yet. */
    method TakeFilled(k: nat, bytes: seq<byte>) returns (idx: nat)
      requires Valid() && k < |ring.view.free| && 0 < |bytes| <= ring.bufSize
      modifies ring`lent, ring`view, ring.bufs
      ensures Valid() && idx == old(ring.view.free)[k] && idx < capacity && ring.view.data[idx] == []
      ensures ring.view == old(ring.view).(free := Without(old(ring.view.free), k))
      ensures Holds(ring.view, multiset(queue) + multiset{idx})
      ensures ring.BufAddr(idx) + |bytes| <= ring.bufs.Length
      ensures ring.bufs[ring.BufAddr(idx)..ring.BufAddr(idx) + |bytes|] == bytes
    {
      ghost var p, q := ring.view, queue;
      TakenByKernel(p, k);
      assert p.free[k] in p.free;
      idx := ring.KernelFills(k, bytes);
      hide Live, Unsent, Without, ring.Valid;
      assert Holds(ring.view, multiset{idx} + multiset(q));
      HoldsPart(ring.view, multiset(q), multiset{idx} + multiset(q));
      assert multiset{idx} + multiset(q) == multiset(q) + multiset{idx};
    }

    /** A byte received and consumed: the queue is empty again and both counters have moved by one. */
    method Round(b: byte)
      requires Valid() && queue == [] && ring.view.free != []
      modifies this`head, this`tail, this`readableBytes, this`queue, this`headOffset, bufQueue,
               ring`lent, ring`view, ring.bufs, ring.dataSize
      ensures Valid() && queue == [] && ring.view.free != []
      ensures old(tail) < U32 && head == tail == Inc(old(tail), U32)
    {
      assert 0 < ring.bufSize && Unsent(ring.view.data, [], headOffset) == [];
      Receive(0, [b]);
      ghost var u := Unread();
      Facts();
      assert |UnsentOf(u)| == 1;
      FilledDrains(u);
      ghost var k := ConsumeReleases(u, 1);
      ReleaseAllEffect(u.pool, u.send[..k]);
      hide Core, Unsent, WriteSpec.Consume;
      var _ := Consume(1);
      Settled();
    }

    lemma Settled()
      requires Valid() && queue == []
      ensures head == tail
    {
      Facts();
    }

    method SizeSet(idx: nat, res: nat)
      requires Valid() && idx < capacity && ring.view.data[idx] == [] && 0 < res <= ring.bufSize
      requires Holds(ring.view, multiset(queue) + multiset{idx})
      modifies ring`view, ring.dataSize
      ensures Valid() && Holds(ring.view, multiset(queue) + multiset{idx})
      ensures ring.BufAddr(idx) + ring.bufSize <= ring.bufs.Length
      ensures ring.view
              == old(ring.view).(data :=
                   old(ring.view.data)[idx := ring.bufs[ring.BufAddr(idx)..ring.BufAddr(idx) + res]])
      ensures Unsent(ring.view.data, queue, headOffset) == old(Unsent(ring.view.data, queue, headOffset))
    {
      ghost var p := ring.view;
      PushFits(p, queue, idx);
      RoomToRelease(p, multiset(queue) + multiset{idx}, idx);
      ring.SetDataSize(idx, res);
      StillHeld(p, ring.view, queue, headOffset, idx);
    }

    method HeadBlock() returns (idx: nat, avail: nat)
      requires Core() && queue != []
      ensures idx == queue[0] && SendOk(Unread()) && avail == Remaining(Unread())
    {
      Facts();
      PopFront(bufQueue[..], head, tail, U32);
      idx := bufQueue[SlotOf(head, capacity)];
      ring.SizeOfView(idx);
      avail := ring.dataSize[idx] - headOffset;
    }

    /** `head_offset_ += k` inside the head block. */
    method AdvanceOffset(k: nat)
      requires Core() && queue != [] && SendOk(Unread()) && k < Remaining(Unread())
      modifies this`headOffset
      ensures Core() && Unread() == old(Unread()).(offset := old(headOffset) + k)
    {
      headOffset := headOffset + k;
    }

    /** `buf_ring_->release(...); head_offset_ = 0; ++head_` */
    method ReleaseHead(idx: nat)
      requires Core() && queue != [] && idx == queue[0]
      modifies this`head, this`queue, this`headOffset, ring`lent, ring`view, ring.dataSize
      ensures Core() && SendOk(old(Unread())) && Unread() == Advance(old(Unread()))
    {
      hide Holds, SendOk, Unsent, PoolOk;
      Facts();
      PlusNothing(multiset(queue));
      AdvanceOwnership(Unread(), multiset{});
      PlusNothing(multiset(queue[1..]));
      AdvanceBytes(Unread());
      RestFilled(ring.view, queue);
      PopFront(bufQueue[..], head, tail, U32);
      hide Live;
      ring.Release(idx);
      head := Inc(head, U32);
      headOffset := 0;
      queue := queue[1..];
    }

    /** One turn of the loop of `consume`. */
    method ConsumeTurn(size: nat) returns (left: nat)
      requires Core() && SendOk(Unread()) && 0 < size <= |UnsentOf(Unread())|
      modifies this`head, this`queue, this`headOffset, ring`lent, ring`view, ring.dataSize
      ensures Core() && SendOk(Unread()) && left < size && left <= |UnsentOf(Unread())|
      ensures WriteSpec.Consume(Unread(), left) == WriteSpec.Consume(old(Unread()), size)
    {
      hide Core, SendOk, Unsent, WriteSpec.Consume, Remaining, Advance;
      ConsumeStep(Unread(), size);
      var idx, avail := HeadBlock();
      HeadNotEmpty();
      if avail > size {
        AdvanceOffset(size);
        ConsumeNothing(Unread());
        return 0;
      }
      ReleaseHead(idx);
      return size - avail;
    }

    lemma HeadNotEmpty()
      requires Core() && queue != [] && SendOk(Unread())
      ensures Remaining(Unread()) > 0
    {
    }

    /** Drops exactly the first `size` unread bytes, or refuses because there are not that many. */
    method Consume(size: nat) returns (ok: bool)
      requires Valid()
      modifies this`head, this`queue, this`headOffset, this`readableBytes, ring`lent, ring`view, ring.dataSize
      ensures Valid() && SendOk(old(Unread())) && (ok <==> size <= old(readableBytes))
      ensures old(readableBytes) == |UnsentOf(old(Unread()))|
      ensures Unread() == if ok then WriteSpec.Consume(old(Unread()), size) else old(Unread())
    {
      Facts();
      if size > readableBytes {
        return false;
      }
      ConsumeBytes(Unread(), size);
      readableBytes := readableBytes - size;
      ConsumeLoop(size);
      return true;
    }

    /** The block at position `k` of the queue, by the raw counter `i`. */
    method BlockAt(i: nat, k: nat) returns (idx: nat, size: nat)
      requires Core() && k < |queue| && i == head + k
      ensures idx == queue[k] < |ring.view.data| && size == |ring.view.data[idx]|
    {
      hide Holds, Unsent, Filled, PoolOk;
      LiveAt(bufQueue[..], head, tail, U32, k);
      idx := bufQueue[SlotOf(i, capacity)];
      ring.SizeOfView(idx);
      size := ring.dataSize[idx];
    }

    /** One fragment. */
    method PeekTurn(i: nat, k: nat, left: nat, ghost size: nat, ghost done: seq<Iovec>) returns (taken: nat,
                    ghost v: Iovec)
      requires Core() && Peeking(ring.view.data, queue, headOffset, size, k, left, done)
      requires i == head + k && k < |queue| && left > 0 && k < peeked.Length && peeked[..k] == Fragments(ring, done)
      modifies peeked
      ensures taken <= left && Peeking(ring.view.data, queue, headOffset, size, k + 1, left - taken, done + [v])
      ensures peeked[..k + 1] == Fragments(ring, done + [v])
    {
      hide Peeking, PeekVec, Core;
      var idx, blockSize := BlockAt(i, k);
      QueueInRange();
      PeekingStep(ring.view.data, queue, headOffset, size, k, left, done);
      var offset := HeadOffsetAt(k, headOffset);
      taken := Min(blockSize - offset, left);
      v := Iovec(idx, offset, taken);
      ghost var before := peeked[..];
      peeked[k] := RawIovec(ring.BufAddr(idx) + offset, taken);
      assert peeked[..k + 1] == before[..k] + [Fragment(ring, v)];
      assert Fragments(ring, done + [v]) == Fragments(ring, done) + [Fragment(ring, v)];
    }

    lemma QueueInRange()
      requires Core()
      ensures InRange(ring.view.data, queue) && HeadOk(ring.view.data, queue, headOffset) && |queue| <= peeked.Length
      ensures head < U32 && tail < U32 && (head <= tail ==> |queue| == tail - head)
    {
    }

    /** The loop of `peek`; the comparison `i < tail_` is the source's, on the raw counters. */
    method PeekLoop(size: nat) returns (count: nat)
      requires Core() && head <= tail
      modifies peeked
      ensures Core() && count <= peeked.Length && HeadOk(ring.view.data, queue, headOffset)
      ensures peeked[..count] == Fragments(ring, PeekVec(ring.view.data, queue, headOffset, size))
    {
      hide Peeking, PeekVec, Core, HeadOk;
      QueueInRange();
      ghost var done := [];
      var left: nat := size;
      var i: nat := head;
      count := 0;
      PeekingStart(ring.view.data, queue, headOffset, size);
      while i < tail && left > 0
        invariant Peeking(ring.view.data, queue, headOffset, size, count, left, done) && i == head + count <= tail
        invariant peeked[..count] == Fragments(ring, done)
      {
        var taken;
        ghost var v;
        taken, v := PeekTurn(i, count, left, size, done);
        done := done + [v];
        left := left - taken;
        i, count := i + 1, count + 1;
      }
      PeekingDone(ring.view.data, queue, headOffset, size, count, left, done);
    }

    /**
      The fragments are the first `size` unread bytes exactly when nothing is asked for or the 32-bit counters have not
      wrapped between head and tail; otherwise `peek` succeeds with no fragments at all.
     */
    method Peek(size: nat) returns (found: bool, count: nat)
      requires Valid()
      modifies peeked
      ensures Valid() && (found <==> size <= readableBytes)
      ensures readableBytes == |Unsent(ring.view.data, queue, headOffset)|
      ensures count <= peeked.Length && InMemory(ring.bufs[..], peeked[..count])
      ensures found ==>
                (ReadRaw(ring.bufs[..], peeked[..count]) == Unsent(ring.view.data, queue, headOffset)[..size]
                 <==> size == 0 || head <= tail)
      ensures found && tail < head ==> count == 0
    {
      if size > readableBytes {
        return false, 0;
      }
      if head <= tail {
        PeekIsPrefix(ring.view.data, queue, headOffset, size);
        FragmentsRead(ring, PeekVec(ring.view.data, queue, headOffset, size));
        hide Core, Unsent, ReadRaw, InMemory, PeekVec, Fragments;
        count := PeekLoop(size);
      } else {
        count := 0;
      }
      return true, count;
    }

    /** Every held block goes back to the kernel, exactly once and in order. */
    method Reset()
      requires Valid()
      modifies this`head, this`tail, this`queue, this`headOffset, this`readableBytes, ring`lent, ring`view,
               ring.dataSize
      ensures Valid() && queue == [] && readableBytes == 0
      ensures InRange(old(ring.view.data), old(queue)) && ring.view == ReleaseAll(old(ring.view), old(queue))
    {
      Facts();
      FilledDrains(Unread());
      ghost var k := ConsumeReleases(Unread(), readableBytes);
      ghost var q := queue;
      var _ := Consume(readableBytes);
      assert queue == q[k..] == [] && q[..k] == q;
      headOffset := 0;
      head, tail := 0, 0;
      EmptyRing(capacity, 0, U32);
    }

    method ConsumeLoop(n: nat)
      requires Core() && SendOk(Unread()) && n <= |UnsentOf(Unread())|
      modifies this`head, this`queue, this`headOffset, ring`lent, ring`view, ring.dataSize
      ensures Core() && Unread() == WriteSpec.Consume(old(Unread()), n)
    {
      hide *;
      var size: nat := n;
      ghost var goal := WriteSpec.Consume(Unread(), n);
      while size > 0
        invariant Core() && SendOk(Unread()) && size <= |UnsentOf(Unread())|
        invariant WriteSpec.Consume(Unread(), size) == goal
      {
        size := ConsumeTurn(size);
      }
      ConsumeNothing(Unread());
    }
  }

  /** Filling a block outside the queue changes nothing in it. */
  lemma StillHeld(p: Pool, p': Pool, q: seq<nat>, offset: nat, idx: nat)
    requires idx < |p.data| && idx !in q && p' == p.(data := p'.data) && |p'.data| == |p.data| && PoolOk(p')
    requires forall i :: 0 <= i < |p.data| && i != idx ==> p'.data[i] == p.data[i]
    requires Holds(p, multiset(q) + multiset{idx}) && HeadOk(p.data, q, offset) && Filled(p.data, q)
    ensures Holds(p', multiset(q) + multiset{idx}) && Holds(p', multiset(q))
    ensures HeadOk(p'.data, q, offset) && Filled(p'.data, q)
    ensures Unsent(p'.data, q, offset) == Unsent(p.data, q, offset)
  {
    HoldsPart(p', multiset(q), multiset(q) + multiset{idx});
    assert forall i :: i in q ==> i != idx;
    GatherFrame(p.data, p'.data, q);
    UnsentIsSuffix(p.data, q, offset);
    UnsentIsSuffix(p'.data, q, offset);
    forall k | 0 <= k < |q| ensures p'.data[q[k]] != [] {
      assert q[k] in q;
    }
  }

  lemma PlusNothing(m: multiset<nat>)
    ensures multiset{} + m == m
  {
  }

  lemma RestFilled(p: Pool, q: seq<nat>)
    requires InRange(p.data, q) && Apart(q) && q != [] && Filled(p.data, q)
    ensures InRange(Release(p, q[0]).data, q[1..]) && Filled(Release(p, q[0]).data, q[1..])
  {
    HeadApart(q);
    forall k | 0 <= k < |q[1..]| ensures Release(p, q[0]).data[q[1..][k]] != [] {
      assert q[1..][k] == q[k + 1] && q[1..][k] in q[1..];
    }
  }

  lemma PushFits(p: Pool, q: seq<nat>, idx: nat)
    requires Holds(p, multiset(q) + multiset{idx})
    ensures |q| < |p.data| && idx !in q
  {
    var all := q + [idx];
    assert multiset(all) == multiset(q) + multiset{idx};
    OncePart(multiset(all), multiset(p.free) + multiset(all), |p.data|);
    OnceAtMost(multiset(all), |p.data|);
    OnceIndices(all, |p.data|);
    assert forall i :: 0 <= i < |q| ==> all[i] == q[i] && all[|q|] == idx;
  }

  lemma Accepted(p: Pool, q: seq<nat>, offset: nat, idx: nat)
    requires Holds(p, multiset(q) + multiset{idx}) && HeadOk(p.data, q, offset) && Filled(p.data, q)
    requires idx < |p.data| && p.data[idx] != []
    ensures Holds(p, multiset(q + [idx]))
    ensures HeadOk(p.data, q + [idx], offset) && Filled(p.data, q + [idx])
    ensures Unsent(p.data, q + [idx], offset) == Unsent(p.data, q, offset) + p.data[idx]
  {
    assert multiset(q + [idx]) == multiset(q) + multiset{idx};
    UnsentConcat(p.data, q, offset, [idx]);
    assert Gather(p.data, [idx]) == p.data[idx] + [];
    NothingAfter(p.data[idx]);
  }

  /**
    The input that `peek` fails on: a reader that has passed on one block less than a 32-bit counter has values, and
    then receives one more byte.  The byte is there to be read, and a peek for it succeeds with no fragment.
   */
  method PeekAfterWrap(bufNum: nat, bufSize: nat, b: byte) returns (reader: ReadBufStream, found: bool, count: nat)
    requires bufNum > 0 && And(bufNum, bufNum - 1) == 0 && bufSize > 0 && bufNum * bufSize < I32_LIMIT
    ensures reader.Valid() && reader.readableBytes == 1 && reader.tail < reader.head
    ensures Unsent(reader.ring.view.data, reader.queue, reader.headOffset) == [b]
    ensures found && count == 0
  {
    var ring := new BufRing(bufNum, bufSize);
    reader := new ReadBufStream(ring);
    Wind(reader, b);
    assert Unsent(ring.view.data, [], reader.headOffset) == [];
    reader.Receive(0, [b]);
    found, count := reader.Peek(1);
  }

  /** Rounds until both counters hold the largest 32-bit value. */
  method Wind(reader: ReadBufStream, b: byte)
    requires reader.Valid() && reader.queue == [] && reader.ring.view.free != [] && reader.tail == 0
    modifies reader, reader.bufQueue, reader.ring, reader.ring.bufs, reader.ring.dataSize
    ensures reader.Valid() && reader.queue == [] && reader.ring.view.free != []
    ensures reader.head == reader.tail == U32 - 1
  {
    hide reader.Valid, Unsent;
    reader.Settled();
    var i := 0;
    while i < U32 - 1
      invariant i <= U32 - 1 && reader.Valid() && reader.queue == [] && reader.ring.view.free != []
      invariant reader.head == reader.tail == i
    {
      reader.Round(b);
      i := i + 1;
    }
  }
}
