/**
  `WriteBufStream`: the send ring of a TCP channel on top of its pending list.
 */
module WriteStream {
  import opened Bits
  import opened Ring
  import opened Blocks
  import opened BufferPool
  import opened WriteSpec
  import opened WriteBuffer

  /** An `iovec` as the kernel sees it: an address and a length. */
  datatype RawIovec = RawIovec(addr: nat, len: nat)

  ghost predicate InMemory(mem: seq<byte>, v: seq<RawIovec>) {
    forall i :: 0 <= i < |v| ==> v[i].addr + v[i].len <= |mem|
  }

  /** The bytes the kernel gathers from memory. */
  ghost function ReadRaw(mem: seq<byte>, v: seq<RawIovec>): seq<byte>
    requires InMemory(mem, v)
  {
    if v == [] then [] else mem[v[0].addr..v[0].addr + v[0].len] + ReadRaw(mem, v[1..])
  }

  /** Block, offset and length turned into an address. */
  ghost function RawOf(pool: BufPool, v: Iovec): RawIovec {
    RawIovec(pool.BufAddr(v.block) + v.at, v.len)
  }

  ghost function Raw(pool: BufPool, v: seq<Iovec>): (r: seq<RawIovec>)
    ensures |r| == |v|
  {
    seq(|v|, i requires 0 <= i < |v| => RawOf(pool, v[i]))
  }

  lemma RawEntry(pool: BufPool, v: Iovec)
    requires pool.Valid() && v.block < |pool.view.data| && v.at + v.len <= |pool.view.data[v.block]|
    ensures pool.BufAddr(v.block) + v.at + v.len <= pool.bufs.Length
    ensures pool.bufs[pool.BufAddr(v.block) + v.at..pool.BufAddr(v.block) + v.at + v.len]
            == pool.view.data[v.block][v.at..v.at + v.len]
  {
    hide *;
    pool.Extent();
    pool.SizeOfView(v.block);
    ArraySlice(pool.bufs, pool.BufAddr(v.block), pool.dataSize[v.block], v.at, v.len);
  }

  lemma ArraySlice(a: array<byte>, base: nat, n: nat, at: nat, len: nat)
    requires base + n <= a.Length && at + len <= n
    ensures a[base..base + n][at..at + len] == a[base + at..base + at + len]
  {
    var l, r := a[base..base + n][at..at + len], a[base + at..base + at + len];
    forall k | 0 <= k < len ensures l[k] == r[k] {
      assert l[k] == a[base..base + n][at + k] == a[base + at + k];
    }
  }

  /** Reading memory through the addresses is reading the blocks. */
  lemma {:induction false} RawReads(pool: BufPool, v: seq<Iovec>)
    requires pool.Valid() && Readable(pool.view.data, v)
    ensures InMemory(pool.bufs[..], Raw(pool, v))
    ensures ReadRaw(pool.bufs[..], Raw(pool, v)) == ReadVec(pool.view.data, v)
    decreases |v|
  {
    hide pool.Valid, pool.BufAddr;
    var raw := Raw(pool, v);
    forall i | 0 <= i < |raw| ensures raw[i].addr + raw[i].len <= pool.bufs.Length {
      RawEntry(pool, v[i]);
    }
    if v != [] {
      RawReads(pool, v[1..]);
      assert raw[1..] == Raw(pool, v[1..]);
      RawEntry(pool, v[0]);
      var mem := pool.bufs[..];
      assert mem[raw[0].addr..raw[0].addr + raw[0].len] == pool.bufs[raw[0].addr..raw[0].addr + raw[0].len];
    }
  }

  lemma {:induction false} ReadVecLast(data: seq<seq<byte>>, v: seq<Iovec>)
    requires Readable(data, v) && v != []
    ensures var n := |v| - 1;
            Readable(data, v[..n]) && ReadVec(data, v) == ReadVec(data, v[..n]) + ReadOne(data, v[n])
    decreases |v|
  {
    var n := |v| - 1;
    ReadVecFirst(data, v);
    if n == 0 {
      assert v[..0] == [] && v[1..] == [];
      NothingAfter(ReadOne(data, v[0]));
      NothingBefore(ReadOne(data, v[0]));
    } else {
      hide ReadVec, ReadOne;
      ReadVecLast(data, v[1..]);
      assert v[1..][..n - 1] == v[..n][1..];
      ReadVecFirst(data, v[..n]);
      Assoc(ReadOne(data, v[0]), ReadVec(data, v[..n][1..]), ReadOne(data, v[n]));
    }
  }

  lemma {:induction false} ReadVecGrows(data: seq<seq<byte>>, v: seq<Iovec>, i: nat)
    requires Readable(data, v) && i <= |v|
    ensures Readable(data, v[..i]) && |ReadVec(data, v[..i])| <= |ReadVec(data, v)|
    decreases |v|
  {
    if i == |v| {
      assert v[..i] == v;
    } else {
      ReadVecLast(data, v);
      assert v[..|v| - 1][..i] == v[..i];
      ReadVecGrows(data, v[..|v| - 1], i);
    }
  }

  class WriteBufStream {
    const base: WriteBufBase
    const sendQueue: array<nat>
    const iovecs: array<RawIovec>
    var sendHead: nat
    var sendTail: nat
    var sendHeadOffset: nat
    ghost var send: seq<nat>  // the submitted blocks, first to last

    ghost predicate Shape()
      reads this, sendQueue
    {
      && sendQueue.Length == base.capacity && iovecs.Length == base.capacity
      && sendQueue != base.pendingBufs && sendQueue != base.pool.dataSize && sendQueue != base.pool.freeIdxQueue
      && IsPow2(base.capacity)
      && RingOk(base.capacity, sendHead, sendTail, U64)
      && send == Live(sendQueue[..], sendHead, sendTail, U64)
    }

    ghost predicate Valid()
      reads this, sendQueue, base, base.pendingBufs,
            base.pool, base.pool.bufs, base.pool.dataSize, base.pool.freeIdxQueue
    {
      && Shape() && base.Valid()
      && Holds(base.pool.view, multiset(base.pending) + multiset(send))
      && HeadOk(base.pool.view.data, send, sendHeadOffset)
    }

    constructor (pool: BufPool, capacity: nat)
      requires pool.Valid() && capacity > 0 && And(capacity, capacity - 1) == 0 && capacity < I32_LIMIT
      ensures Valid() && send == [] && base.pending == [] && base.pool == pool && base.capacity == capacity
      ensures fresh(base) && fresh(base.pendingBufs) && fresh(sendQueue) && fresh(iovecs)
    {
      base := new WriteBufBase(pool, capacity);
      sendQueue := new nat[capacity];
      iovecs := new RawIovec[capacity](_ => RawIovec(0, 0));
      sendHead, sendTail, sendHeadOffset := 0, 0, 0;
      send := [];
      new;
      EmptyRing(capacity, 0, U64);
      assert multiset(base.pending) + multiset(send) == multiset(base.pending);
    }

    ghost function Sending(): Sending
      reads this, base, base.pool
    {
      WriteSpec.Sending(base.pool.view, send, sendHeadOffset)
    }

    /** The two halves of `Valid` that the pool's other users care about. */
    lemma Facts()
      requires Valid()
      ensures Holds(base.pool.view, multiset(base.pending) + multiset(send))
      ensures Holds(base.pool.view, multiset(send)) && SendOk(Sending())
      ensures |base.pending| <= base.capacity && |send| <= base.capacity
      ensures InRange(base.pool.view.data, base.pending)
      ensures forall x :: x in send ==> x !in base.pool.view.free && x !in base.pending && x < |base.pool.view.data|
    {
      var p := base.pool.view;
      HoldsPart(p, multiset(send), multiset(base.pending) + multiset(send));
      HoldsIndices(p, send);
      var both := base.pending + send;
      assert multiset(both) == multiset(base.pending) + multiset(send);
      HoldsIndices(p, both);
      assert InRange(p.data, base.pending) by {
        assert forall i :: 0 <= i < |base.pending| ==> base.pending[i] == both[i];
      }
      assert Apart(send) by {
        assert forall i :: 0 <= i < |send| ==> send[i] == (send + p.free)[i];
      }
      forall x | x in send ensures x !in base.pending && x < |p.data| {
        var k :| 0 <= k < |send| && send[k] == x;
        assert (both + p.free)[|base.pending| + k] == x;
        assert forall i :: 0 <= i < |base.pending| ==> base.pending[i] == (both + p.free)[i];
      }
    }

    /** Work on the pending list leaves the send ring, its bytes and its ownership alone. */
    lemma StillSending(p0: Pool, p: Pool)
      requires HeadOk(p0.data, send, sendHeadOffset) && |p.data| == |p0.data|
      requires forall x :: x in send ==> x < |p0.data| && p.data[x] == p0.data[x]
      ensures HeadOk(p.data, send, sendHeadOffset)
      ensures Unsent(p.data, send, sendHeadOffset) == Unsent(p0.data, send, sendHeadOffset)
      ensures Iovecs(p.data, send, sendHeadOffset) == Iovecs(p0.data, send, sendHeadOffset)
    {
      GatherFrame(p0.data, p.data, send);
      UnsentIsSuffix(p0.data, send, sendHeadOffset);
      UnsentIsSuffix(p.data, send, sendHeadOffset);
    }

    method Append(src: seq<byte>) returns (ok: bool)
      requires Valid() && |src| < U32
      modifies base`pendingTail, base`pending, base.pendingBufs,
               base.pool, base.pool.bufs, base.pool.dataSize, base.pool.freeIdxQueue
      ensures Valid()
      ensures AppendSpec(old(base.pool.view), old(base.pending), base.capacity, src)
              == Outcome(ok, base.pool.view, base.pending)
      ensures Unsent(base.pool.view.data, send, sendHeadOffset)
              == old(Unsent(base.pool.view.data, send, sendHeadOffset))
    {
      ghost var p, pend := base.pool.view, base.pending;
      Facts();
      AppendOwnership(p, pend, base.capacity, src, multiset(send));
      ok := base.Append(src);
      StillSending(p, base.pool.view);
    }

    method Prepend(src: seq<byte>) returns (ok: bool)
      requires Valid() && |src| < U32
      modifies base`pendingHead, base`pending, base.pendingBufs,
               base.pool, base.pool.bufs, base.pool.dataSize, base.pool.freeIdxQueue
      ensures Valid()
      ensures PrependSpec(old(base.pool.view), old(base.pending), base.capacity, src)
              == Outcome(ok, base.pool.view, base.pending)
      ensures Unsent(base.pool.view.data, send, sendHeadOffset)
              == old(Unsent(base.pool.view.data, send, sendHeadOffset))
    {
      ghost var p, pend := base.pool.view, base.pending;
      Facts();
      PrependOwnership(p, pend, base.capacity, src, multiset(send));
      ok := base.Prepend(src);
      StillSending(p, base.pool.view);
    }

    /** `send_queue_[send_tail_++ & mask_] = pending_bufs_[pending_head_++ & mask_]` */
    method MoveOne()
      requires Valid() && base.pending != [] && |send| < base.capacity
      modifies this`sendTail, this`send, sendQueue, base`pendingHead, base`pending
      ensures Valid() && send == old(send) + [old(base.pending)[0]] && base.pending == old(base.pending)[1..]
    {
      ghost var p, pend, sent := base.pool.view, base.pending, send;
      MoveOwnership(p, pend, sent);
      ghost var ring, slot := sendQueue[..], sendTail % base.capacity;
      PushBack(ring, sendHead, sendTail, U64, pend[0]);
      UnsentConcat(p.data, sent, sendHeadOffset, [pend[0]]);
      var idx := base.PopPending();
      sendQueue[SlotOf(sendTail, base.capacity)] := idx;
      sendTail := Inc(sendTail, U64);
      send := send + [idx];
      assert sendQueue[..] == ring[slot := idx];
    }

    /** Hands every pending block to the send ring, or, when they do not all fit, none. */
    method Submit() returns (ok: bool)
      requires Valid()
      modifies this`sendTail, this`send, sendQueue, base`pendingHead, base`pending
      ensures Valid() && InRange(base.pool.view.data, old(base.pending))
      ensures ok <==> old(base.pending) != [] && |old(base.pending)| <= base.capacity - |old(send)|
      ensures ok ==> send == old(send + base.pending) && base.pending == []
      ensures !ok ==> send == old(send) && base.pending == old(base.pending)
      ensures Unsent(base.pool.view.data, send, sendHeadOffset)
              == old(Unsent(base.pool.view.data, send, sendHeadOffset))
                 + (if ok then Gather(base.pool.view.data, old(base.pending)) else [])
    {
      ghost var data, pend0, sent0 := base.pool.view.data, base.pending, send;
      hide *;
      Facts();
      Counts();
      NothingAfter(Unsent(data, sent0, sendHeadOffset));
      var pendingCount := Sub(base.pendingTail, base.pendingHead, U64);
      if pendingCount == 0 {
        return false;
      }
      var sendCount := Sub(sendTail, sendHead, U64);
      if pendingCount > base.capacity - sendCount {
        return false;
      }
      MoveAll();
      UnsentConcat(data, sent0, sendHeadOffset, pend0);
      return true;
    }

    method MoveAll()
      requires Valid() && |send| + |base.pending| <= base.capacity
      modifies this`sendTail, this`send, sendQueue, base`pendingHead, base`pending
      ensures Valid() && send == old(send + base.pending) && base.pending == []
    {
      hide *;
      ghost var all := send + base.pending;
      Counts();
      while base.pendingHead != base.pendingTail
        invariant Valid() && send + base.pending == all && |all| <= base.capacity
        invariant base.pendingHead < U64 && base.pendingTail < U64
        invariant base.pendingHead == base.pendingTail <==> base.pending == []
        decreases |base.pending|
      {
        FirstMoves(send, base.pending);
        MoveOne();
        Counts();
      }
    }

    /** All unsent bytes together fit an `unsigned int`. */
    lemma UnsentFitsWord()
      requires Valid()
      ensures |Unsent(base.pool.view.data, send, sendHeadOffset)| < I32_LIMIT
    {
      Facts();
      UnsentBound(base.pool.view, send, sendHeadOffset);
    }

    /** One entry of the array handed to `writev`. */
    method FillIovec(i: nat, ghost v: Iovec) returns (len: nat)
      requires Valid() && i < |send| && v == Iovecs(base.pool.view.data, send, sendHeadOffset)[i]
      modifies iovecs
      ensures len == v.len && iovecs.Length == base.capacity
      ensures iovecs[..] == old(iovecs[..])[i := RawOf(base.pool, v)]
    {
      LiveAt(sendQueue[..], sendHead, sendTail, U64, i);
      var idx := sendQueue[SlotOf(sendHead + i, base.capacity)];
      assert idx == send[i];
      base.pool.SizeOfView(idx);
      var offset := if i == 0 then sendHeadOffset else 0;
      len := base.pool.dataSize[idx] - offset;
      iovecs[i] := RawIovec(base.pool.BufAddr(idx) + offset, len);
    }

    /** The kernel, reading through the array, gets exactly the unsent bytes; `bytes` is their number. */
    method PeekIovec() returns (count: nat, bytes: nat)
      requires Valid()
      modifies iovecs
      ensures Valid() && count == |send| <= iovecs.Length
      ensures bytes == |Unsent(base.pool.view.data, send, sendHeadOffset)|
      ensures HeadOk(base.pool.view.data, send, sendHeadOffset)
      ensures iovecs[..count] == Raw(base.pool, Iovecs(base.pool.view.data, send, sendHeadOffset))
      ensures InMemory(base.pool.bufs[..], iovecs[..count])
      ensures ReadRaw(base.pool.bufs[..], iovecs[..count]) == Unsent(base.pool.view.data, send, sendHeadOffset)
    {
      hide *;
      Counts();
      ghost var data := base.pool.view.data;
      ghost var v := Iovecs(data, send, sendHeadOffset);
      ghost var raw := Raw(base.pool, v);
      PeekIsUnsent(data, send, sendHeadOffset);
      UnsentFitsWord();
      WordSizes();
      RawReads(base.pool, v);
      count := Sub(sendTail, sendHead, U64);
      bytes := 0;
      var i := 0;
      ReadVecNone(data, v);
      while i < count
        invariant 0 <= i <= count && iovecs.Length >= count
        invariant iovecs[..i] == raw[..i]
        invariant Readable(data, v[..i]) && bytes == |ReadVec(data, v[..i])|
      {
        ReadVecStep(data, v, i);
        RawAt(base.pool, v, i);
        var len := FillIovec(i, v[i]);
        bytes := AddWord(bytes, len);
        i := i + 1;
      }
      assert v[..count] == v && raw[..count] == raw;
    }

    method HeadBlock() returns (idx: nat, remaining: nat)
      requires Valid() && send != []
      ensures idx == send[0] && SendOk(Sending()) && remaining == Remaining(Sending())
    {
      Facts();
      idx := sendQueue[SlotOf(sendHead, base.capacity)];
      assert idx == send[0];
      base.pool.SizeOfView(idx);
      remaining := base.pool.dataSize[idx] - sendHeadOffset;
    }

    /** `send_head_offset_ += k` inside the head block. */
    method AdvanceOffset(k: nat)
      requires Valid() && send != [] && SendOk(Sending()) && k < Remaining(Sending())
      modifies this`sendHeadOffset
      ensures Valid() && Sending() == old(Sending()).(offset := old(sendHeadOffset) + k)
    {
      sendHeadOffset := sendHeadOffset + k;
    }

    /** `buf_pool_->release(idx); ++send_head_; send_head_offset_ = 0` */
    method ReleaseHead(idx: nat)
      requires Valid() && send != [] && idx == send[0]
      modifies this`sendHead, this`send, this`sendHeadOffset,
               base.pool`tail, base.pool`view, base.pool.dataSize, base.pool.freeIdxQueue
      ensures Valid() && SendOk(old(Sending())) && Sending() == Advance(old(Sending()))
      ensures send == old(send)[1..] && idx < |old(base.pool.view.data)|
      ensures base.pool.view == Release(old(base.pool.view), idx)
    {
      hide Holds, SendOk, Unsent, PoolOk;
      Facts();
      AdvanceOwnership(Sending(), multiset(base.pending));
      AdvanceBytes(Sending());
      PopFront(sendQueue[..], sendHead, sendTail, U64);
      hide Live;
      base.pool.Release(idx);
      sendHead := Inc(sendHead, U64);
      sendHeadOffset := 0;
      send := send[1..];
    }

    /** Drops the acknowledged prefix. */
    method ConsumeWritten(n: nat)
      requires Valid() && n <= |Unsent(base.pool.view.data, send, sendHeadOffset)|
      modifies this`sendHead, this`send, this`sendHeadOffset,
               base.pool`tail, base.pool`view, base.pool.dataSize, base.pool.freeIdxQueue
      ensures Valid() && SendOk(old(Sending())) && Sending() == Consume(old(Sending()), n)
    {
      hide *;
      Start(n);
      var bytes: nat := n;
      ghost var goal := Consume(Sending(), n);
      while bytes > 0
        invariant Valid() && SendOk(Sending()) && bytes <= |UnsentOf(Sending())|
        invariant Consume(Sending(), bytes) == goal
        decreases bytes, |send|
      {
        bytes := ConsumeTurn(bytes);
      }
      ConsumeNothing(Sending());
    }

    lemma Start(n: nat)
      requires Valid() && n <= |Unsent(base.pool.view.data, send, sendHeadOffset)|
      ensures SendOk(Sending()) && n <= |UnsentOf(Sending())|
    {
      Facts();
    }

    /** One turn of the loop: part of the head block, or the whole of it. */
    method ConsumeTurn(bytes: nat) returns (left: nat)
      requires Valid() && SendOk(Sending()) && 0 < bytes <= |UnsentOf(Sending())|
      modifies this`sendHead, this`send, this`sendHeadOffset,
               base.pool`tail, base.pool`view, base.pool.dataSize, base.pool.freeIdxQueue
      ensures Valid() && SendOk(Sending()) && left <= |UnsentOf(Sending())|
      ensures left < bytes || (left == bytes && |send| < |old(send)|)
      ensures Consume(Sending(), left) == Consume(old(Sending()), bytes)
    {
      hide Valid, SendOk, Unsent, Consume, Remaining, Advance;
      ConsumeStep(Sending(), bytes);
      var idx, remaining := HeadBlock();
      if bytes < remaining {
        AdvanceOffset(bytes);
        ConsumeNothing(Sending());
        return 0;
      }
      ReleaseHead(idx);
      return bytes - remaining;
    }

    /** The first loop of `reset`: every submitted block goes back, in order. */
    method ReleaseSend()
      requires Valid()
      modifies this`sendHead, this`send, this`sendHeadOffset,
               base.pool`tail, base.pool`view, base.pool.dataSize, base.pool.freeIdxQueue
      ensures Valid() && send == []
      ensures InRange(old(base.pool.view.data), old(send))
      ensures base.pool.view == ReleaseAll(old(base.pool.view), old(send))
    {
      hide *;
      Counts();
      ghost var p0, sent0 := base.pool.view, send;
      SendInRange();
      while sendHead != sendTail
        invariant Valid() && (sendHead == sendTail <==> send == [])
        invariant InRange(p0.data, sent0) && InRange(base.pool.view.data, send)
        invariant ReleaseAll(base.pool.view, send) == ReleaseAll(p0, sent0)
        decreases |send|
      {
        ReleaseAllFirst(base.pool.view, send);
        var idx, _ := HeadBlock();
        ReleaseHead(idx);
        SendInRange();
        Counts();
      }
      ReleaseNone(base.pool.view);
    }

    /** Everything the channel holds goes back to the pool. */
    method Reset()
      requires Valid()
      modifies this`sendHead, this`sendTail, this`send, this`sendHeadOffset,
               base`pendingHead, base`pendingTail, base`pending,
               base.pool`tail, base.pool`view, base.pool.dataSize, base.pool.freeIdxQueue
      ensures Valid() && send == [] && base.pending == [] && sendHeadOffset == 0
      ensures InRange(old(base.pool.view.data), old(send + base.pending))
      ensures base.pool.view == ReleaseAll(old(base.pool.view), old(send + base.pending))
    {
      ghost var p0, sent0, pend0 := base.pool.view, send, base.pending;
      Facts();
      ReleaseSend();
      ReleaseAllTwice(p0, sent0, pend0);
      base.DiscardPending(multiset{});
      sendHead, sendTail, sendHeadOffset := 0, 0, 0;
      EmptyRing(base.capacity, 0, U64);
    }

    lemma SendInRange()
      requires Valid()
      ensures InRange(base.pool.view.data, send) && (sendHead == sendTail <==> send == [])
    {
    }

    lemma Counts()
      requires Valid()
      ensures base.pendingHead < U64 && base.pendingTail < U64
      ensures Sub(base.pendingTail, base.pendingHead, U64) == |base.pending|
      ensures base.pendingHead == base.pendingTail <==> base.pending == []
      ensures sendHead < U64 && sendTail < U64 && Sub(sendTail, sendHead, U64) == |send|
      ensures HeadOk(base.pool.view.data, send, sendHeadOffset) && |send| <= iovecs.Length && base.pool.Valid()
    {
    }
  }

  lemma ReadVecNone(data: seq<seq<byte>>, v: seq<Iovec>)
    ensures Readable(data, v[..0]) && ReadVec(data, v[..0]) == []
  {
  }

  lemma ReadVecStep(data: seq<seq<byte>>, v: seq<Iovec>, i: nat)
    requires Readable(data, v) && i < |v|
    ensures Readable(data, v[..i]) && Readable(data, v[..i + 1])
    ensures |ReadVec(data, v[..i + 1])| == |ReadVec(data, v[..i])| + v[i].len <= |ReadVec(data, v)|
  {
    ReadVecGrows(data, v, i + 1);
    ReadVecLast(data, v[..i + 1]);
    assert v[..i + 1][..i] == v[..i] && v[..i + 1][i] == v[i];
  }

  lemma RawAt(pool: BufPool, v: seq<Iovec>, i: nat)
    requires i < |v|
    ensures Raw(pool, v)[..i + 1] == Raw(pool, v)[..i] + [RawOf(pool, v[i])]
  {
  }

  lemma FirstMoves(a: seq<nat>, b: seq<nat>)
    requires b != []
    ensures (a + [b[0]]) + b[1..] == a + b
  {
  }

  lemma MoveOwnership(p: Pool, pend: seq<nat>, sent: seq<nat>)
    requires Holds(p, multiset(pend) + multiset(sent)) && pend != []
    ensures pend[0] < |p.data|
    ensures Holds(p, multiset(pend[1..])) && Holds(p, multiset(pend[1..]) + multiset(sent + [pend[0]]))
  {
    assert pend == [pend[0]] + pend[1..];
    assert multiset(pend[1..]) + multiset(sent + [pend[0]]) == multiset(pend) + multiset(sent);
    HoldsPart(p, multiset(pend[1..]), multiset(pend) + multiset(sent));
    RoomToRelease(p, multiset(pend) + multiset(sent), pend[0]);
  }
}
