/**
  `UdpChannel` and its write loop as code over the real pools, proved to compute the steps
  of the UDP worker's transition system.
 */
module UdpChannels {
  import opened Bits
  import opened Blocks
  import opened BufferPool
  import opened WriteSpec
  import opened WriteBuffer
  import opened WriteStream
  import opened UdpWorker
  import opened MessageSlots
  import opened WriteDgram
  import opened TcpChannels

  ghost function SlotView(hs: seq<Header>, vecs: seq<seq<Iovec>>): (r: seq<Slot>)
    requires |hs| == |vecs|
    ensures |r| == |hs| && forall i :: 0 <= i < |hs| ==> r[i] == Slot(hs[i].name, vecs[i])
  {
    seq(|hs|, i requires 0 <= i < |hs| => Slot(hs[i].name, vecs[i]))
  }

  ghost function Paired(slots: seq<nat>, what: seq<Datagram>): (r: seq<Flight>)
    requires |slots| == |what|
    ensures |r| == |slots| && forall i :: 0 <= i < |slots| ==> r[i] == Flight(slots[i], what[i])
  {
    seq(|slots|, i requires 0 <= i < |slots| => Flight(slots[i], what[i]))
  }

  class UdpChannel {
    const writeBuf: WriteBufDgram
    const token: NotifyToken
    ghost var what: seq<Datagram>    // what the queued slots were filled for
    ghost var flying: seq<Flight>
    ghost var draft: seq<byte>
    ghost var submitted: seq<Datagram>
    ghost var done: seq<Datagram>

    ghost predicate Linked()
      reads this`what, writeBuf`queue, writeBuf`vecs, writeBuf.hdrs`slots
    {
      |what| == |writeBuf.queue| && |writeBuf.hdrs.slots| == |writeBuf.vecs|
    }

    ghost predicate Valid()
      reads this, writeBuf, writeBuf.slotQueue, writeBuf.base, writeBuf.base.pendingBufs,
            writeBuf.base.pool, writeBuf.base.pool.bufs, writeBuf.base.pool.dataSize, writeBuf.base.pool.freeIdxQueue,
            writeBuf.hdrs, writeBuf.hdrs.names, writeBuf.hdrs.counts, writeBuf.hdrs.iovecs, writeBuf.hdrs.pool
    {
      writeBuf.Valid() && Linked()
    }

    ghost function View(): Udp
      requires Linked()
      reads this, token, writeBuf, writeBuf.base, writeBuf.base.pool, writeBuf.hdrs
    {
      Udp(writeBuf.base.pool.view, writeBuf.base.capacity, writeBuf.hdrs.maxIov,
          writeBuf.hdrs.free, SlotView(writeBuf.hdrs.slots, writeBuf.vecs), writeBuf.base.pending,
          Paired(writeBuf.queue, what), token.parked, token.pending, flying, draft, submitted, done)
    }

    /** A channel on new pools with its loops started: the initial state of the worker. */
    constructor (pool: BufPool, hdrs: MsghdrPool, capacity: nat)
      requires pool.Valid() && hdrs.Valid() && capacity > 0 && And(capacity, capacity - 1) == 0 && capacity < I32_LIMIT
      requires pool.view == FullPool(pool.bufNum, pool.bufSize) && hdrs.free == Numbers(hdrs.capacity)
      requires forall i :: 0 <= i < hdrs.capacity ==> hdrs.slots[i] == Zeroed(hdrs.maxIov)
      requires hdrs.pool != pool.dataSize && hdrs.pool != pool.freeIdxQueue
      requires hdrs.counts != pool.dataSize && hdrs.counts != pool.freeIdxQueue
      ensures Valid() && View() == Start(pool.bufNum, pool.bufSize, capacity, hdrs.capacity, hdrs.maxIov)
    {
      writeBuf := new WriteBufDgram(pool, hdrs, capacity);
      token := new NotifyToken();
      what, flying, draft, submitted, done := [], [], [], [], [];
      new;
      token.parked := true;
      writeBuf.Parts();
      assert SlotView(writeBuf.hdrs.slots, writeBuf.vecs) == seq(hdrs.capacity, i => NoMessage());
    }

    /** One `sendmsg` per queued slot, in order, then the queue is empty. */
    method SendAll()
      requires Valid()
      modifies this`what, this`flying, writeBuf`msghdrHead, writeBuf`queue
      ensures Valid() && View() == SendQueued(old(View()))
    {
      hide writeBuf.Valid, writeBuf.QueueOk, writeBuf.SlotsMatch, writeBuf.hdrs.Valid, writeBuf.base.Valid,
           writeBuf.base.pool.Valid, Holds;
      writeBuf.Parts();
      var count := Sub(writeBuf.msghdrTail, writeBuf.msghdrHead, U64);
      ghost var before, queued := flying, Paired(writeBuf.queue, what);
      for i := 0 to count
        invariant flying == before + queued[..i]
        modifies this`flying
      {
        var found, slot := writeBuf.PeekSlot(i);
        flying := flying + [Flight(slot, what[i])];
        assert queued[..i + 1] == queued[..i] + [queued[i]];
      }
      assert queued[..count] == queued;
      writeBuf.ClearSlotQueue();
      what := [];
    }

    /** The loop from just after the wait until it suspends again. */
    method RunLoop()
      requires Valid() && !token.parked
      modifies this`what, this`flying, writeBuf`msghdrHead, writeBuf`queue, token`pending, token`parked
      ensures Valid() && View() == LoopTop(SendQueued(old(View())))
    {
      hide writeBuf.Valid;
      ghost var target := LoopTop(SendQueued(View()));
      var again := true;
      while again
        invariant Valid() && !token.parked
        invariant again ==> LoopTop(SendQueued(View())) == target
        invariant !again ==> View().(parked := true) == target
        decreases (if token.pending then 1 else 0) + if again then 1 else 0
      {
        SendAll();
        again := token.AwaitReady();
      }
      token.parked := true;
    }

    method Wake()
      requires Valid()
      modifies this`what, this`flying, writeBuf`msghdrHead, writeBuf`queue, token`pending, token`parked
      ensures Valid() && View() == UdpWorker.Notify(old(View()))
    {
      hide writeBuf.Valid;
      ghost var u := View();
      var resume := token.Notify();
      if resume {
        assert View() == u.(parked := false);
        RunLoop();
      }
    }

    method Append(src: seq<byte>) returns (ok: bool)
      requires Valid() && Inv(View()) && |src| < U32
      modifies this`draft, writeBuf.base`pendingTail, writeBuf.base`pending, writeBuf.base.pendingBufs,
               writeBuf.base.pool,
               writeBuf.base.pool.bufs, writeBuf.base.pool.dataSize, writeBuf.base.pool.freeIdxQueue
      ensures Valid() && old(Sound(View())) && View() == AppendStep(old(View()), src)
      ensures ok == AppendSpec(old(View()).pool, old(View()).pending, old(View()).cap, src).ok
    {
      hide writeBuf.Valid, AppendSpec, Inv, Sound, Holds;
      InvSound(View());
      ok := writeBuf.Append(src);
      if ok {
        draft := draft + src;
      }
    }

    method Prepend(src: seq<byte>) returns (ok: bool)
      requires Valid() && Inv(View()) && |src| < U32
      modifies this`draft, writeBuf.base`pendingHead, writeBuf.base`pending, writeBuf.base.pendingBufs,
               writeBuf.base.pool,
               writeBuf.base.pool.bufs, writeBuf.base.pool.dataSize, writeBuf.base.pool.freeIdxQueue
      ensures Valid() && old(Sound(View())) && View() == PrependStep(old(View()), src)
      ensures ok == PrependSpec(old(View()).pool, old(View()).pending, old(View()).cap, src).ok
    {
      hide writeBuf.Valid, PrependSpec, Inv, Sound, Holds;
      InvSound(View());
      ok := writeBuf.Prepend(src);
      if ok {
        draft := src + draft;
      }
    }

    /** `discard_pending` leaves slots, queue and flights alone. */
    method DiscardAll()
      requires Valid()
      modifies this`draft, writeBuf.base`pendingHead, writeBuf.base`pendingTail, writeBuf.base`pending,
               writeBuf.base.pool`tail, writeBuf.base.pool`view, writeBuf.base.pool.dataSize,
               writeBuf.base.pool.freeIdxQueue
      ensures Valid() && InRange(old(View()).pool.data, old(View()).pending)
      ensures View()
              == old(View()).(pool := ReleaseAll(old(View()).pool, old(View()).pending), pending := [], draft := [])
    {
      hide writeBuf.Valid;
      writeBuf.DiscardPending();
      draft := [];
    }

    /** `WriteBufDgram::submit` failed: the slot goes back untouched, then the pending blocks. */
    method Refuse(slot: nat)
      requires Valid() && slot < writeBuf.hdrs.capacity && writeBuf.vecs[slot] == []
      requires Once(multiset(writeBuf.hdrs.free) + multiset{slot}, writeBuf.hdrs.capacity)
      modifies this`draft, writeBuf`vecs, writeBuf.base`pendingHead, writeBuf.base`pendingTail, writeBuf.base`pending,
               writeBuf.base.pool`tail, writeBuf.base.pool`view, writeBuf.base.pool.dataSize,
               writeBuf.base.pool.freeIdxQueue,
               writeBuf.hdrs`tail, writeBuf.hdrs`free, writeBuf.hdrs`slots,
               writeBuf.hdrs.names, writeBuf.hdrs.counts, writeBuf.hdrs.iovecs, writeBuf.hdrs.pool
      ensures Valid() && InRange(old(View()).pool.data, old(View()).pending)
      ensures View() == old(View()).(pool := ReleaseAll(old(View()).pool, old(View()).pending),
                                     pending := [], draft := [],
                                     free := old(View()).free + [slot], slots := old(View()).slots[slot := NoMessage()])
    {
      hide writeBuf.Valid, writeBuf.QueueOk, writeBuf.SlotsMatch, writeBuf.hdrs.Valid, writeBuf.base.Valid,
           writeBuf.base.pool.Valid, Holds, Once;
      writeBuf.Parts();
      ghost var held, u := multiset(writeBuf.base.pending), View();
      assert BlocksOf([]) == [];
      assert multiset(BlocksOf([])) + held == held;
      writeBuf.ReleaseSlot(slot, held);
      ReleaseNone(u.pool);
      assert SlotView(writeBuf.hdrs.slots, writeBuf.vecs) == u.slots[slot := NoMessage()];
      assert View() == u.(free := u.free + [slot], slots := u.slots[slot := NoMessage()]);
      DiscardAll();
    }

    /** Fill a slot that carries its destination from the pending list, or give everything back. */
    method Fill(slot: nat, name: seq<byte>) returns (ok: bool)
      requires Valid() && slot < writeBuf.hdrs.capacity && slot !in writeBuf.hdrs.free && writeBuf.vecs[slot] == []
      requires Once(multiset(writeBuf.hdrs.free) + multiset{slot}, writeBuf.hdrs.capacity)
      requires writeBuf.hdrs.slots[slot].name == name
      modifies this`what, this`draft, this`submitted, writeBuf, writeBuf.slotQueue, writeBuf.base,
               writeBuf.base.pool, writeBuf.base.pool.dataSize, writeBuf.base.pool.freeIdxQueue,
               writeBuf.hdrs, writeBuf.hdrs.names, writeBuf.hdrs.counts, writeBuf.hdrs.iovecs, writeBuf.hdrs.pool
      ensures Valid() && ok == Committable(old(View())) && InRange(old(View()).pool.data, old(View()).pending)
      ensures var u, d := old(View()), Datagram(name, old(draft));
              ok ==> View() == u.(slots := u.slots[slot := Slot(name, Iovecs(u.pool.data, u.pending, 0))],
                                  pending := [], draft := [],
                                  queue := u.queue + [Flight(slot, d)], submitted := u.submitted + [d])
      ensures var u := old(View());
              !ok ==> View() == u.(pool := ReleaseAll(u.pool, u.pending), pending := [], draft := [],
                                   free := u.free + [slot], slots := u.slots[slot := NoMessage()])
    {
      hide writeBuf.Valid, writeBuf.QueueOk, writeBuf.SlotsMatch, writeBuf.hdrs.Valid, writeBuf.base.Valid,
           writeBuf.base.pool.Valid, Holds, Once;
      writeBuf.Parts();
      ghost var u, d := View(), Datagram(name, draft);
      ok := writeBuf.Submit(slot);
      if ok {
        what, submitted, draft := what + [d], submitted + [d], [];
        assert Paired(writeBuf.queue, what) == u.queue + [Flight(slot, d)];
        assert SlotView(writeBuf.hdrs.slots, writeBuf.vecs)
               == u.slots[slot := Slot(name, Iovecs(u.pool.data, u.pending, 0))];
      } else {
        assert SlotView(writeBuf.hdrs.slots, writeBuf.vecs) == u.slots;
        Refuse(slot);
      }
    }

    /** Take a slot, write the destination into it, and fill it from the pending list. */
    method Hand(name: seq<byte>) returns (ok: bool)
      requires Valid() && Inv(View())
      modifies this`what, this`draft, this`submitted, writeBuf, writeBuf.slotQueue, writeBuf.base,
               writeBuf.base.pool, writeBuf.base.pool.dataSize, writeBuf.base.pool.freeIdxQueue,
               writeBuf.hdrs, writeBuf.hdrs.names, writeBuf.hdrs.counts, writeBuf.hdrs.iovecs, writeBuf.hdrs.pool
      ensures Valid() && old(Sound(View()))
      ensures ok <==> old(View()).free != [] && Committable(old(View()))
      ensures View() == if old(View()).free == [] then Discard(old(View()))
                        else if ok then Committed(old(View()), name) else Rejected(old(View()))
    {
      hide writeBuf.Valid, writeBuf.QueueOk, writeBuf.SlotsMatch, writeBuf.hdrs.Valid, writeBuf.base.Valid,
           writeBuf.base.pool.Valid,
           Holds, Once, Inv, Sound, ReleaseAll, Iovecs;
      ghost var u := View();
      InvSound(u);
      var slot;
      ok, slot := writeBuf.AcquireSlot();
      if !ok {
        DiscardAll();
        return false;
      }
      writeBuf.NameSlot(slot, name);
      ghost var mid := View();
      assert mid.slots == u.slots[slot := Slot(name, [])];
      assert mid == u.(free := u.free[1..], slots := mid.slots);
      ok := Fill(slot, name);
      assert View().slots == if ok then u.slots[slot := View().slots[slot]] else u.slots[slot := NoMessage()];
    }

    /**
      `UdpChannel::submit`.  On success the datagram is already with the kernel when the call returns; on failure
      nothing was queued and the pending blocks and the slot are back in their pools.
     */
    method Submit(name: seq<byte>, twice: bool) returns (ok: bool)
      requires Valid() && Inv(View()) && |name| <= NAME_SIZE
      modifies this, token, writeBuf, writeBuf.slotQueue, writeBuf.base,
               writeBuf.base.pool, writeBuf.base.pool.dataSize, writeBuf.base.pool.freeIdxQueue,
               writeBuf.hdrs, writeBuf.hdrs.names, writeBuf.hdrs.counts, writeBuf.hdrs.iovecs, writeBuf.hdrs.pool
      ensures Valid() && old(Sound(View())) && View() == SubmitStep(old(View()), name, twice)
      ensures ok <==> old(View()).free != [] && Committable(old(View()))
    {
      hide Valid, Inv, Sound, Committed, Discard, Rejected, UdpWorker.Notify, Committable;
      ok := Hand(name);
      if ok {
        Wake();
        if twice {
          Wake();
        }
      }
    }

    /** `MsgToken::complete` for the `k`-th outstanding request. */
    method OnComplete(slot: nat, ghost k: nat)
      requires Valid() && Inv(View()) && k < |flying| && slot == flying[k].slot
      modifies this`flying, this`done, writeBuf`vecs,
               writeBuf.base.pool`tail, writeBuf.base.pool`view, writeBuf.base.pool.dataSize,
               writeBuf.base.pool.freeIdxQueue,
               writeBuf.hdrs`tail, writeBuf.hdrs`free, writeBuf.hdrs`slots,
               writeBuf.hdrs.names, writeBuf.hdrs.counts, writeBuf.hdrs.iovecs, writeBuf.hdrs.pool
      ensures Valid() && old(Sound(View())) && View() == CompleteStep(old(View()), k)
    {
      hide writeBuf.Valid, writeBuf.QueueOk, writeBuf.SlotsMatch, writeBuf.hdrs.Valid, writeBuf.base.Valid,
           writeBuf.base.pool.Valid,
           Holds, Once, Sound, ReleaseAll, Inv, Readable, ReadVec;
      writeBuf.Parts();
      ghost var u := View();
      InvSound(u);
      CompleteFields(u, k);
      ghost var held := LandingShare(u, k);
      writeBuf.ReleaseSlot(slot, held);
      done := done + [Datagram(u.slots[slot].name, ReadVec(u.pool.data, u.slots[slot].vec))];
      flying := flying[..k] + flying[k + 1..];
      assert SlotView(writeBuf.hdrs.slots, writeBuf.vecs) == u.slots[slot := NoMessage()];
    }

    /** What the kernel reads from memory through an outstanding header is the datagram that was submitted. */
    lemma KernelReads(f: Flight)
      requires Valid() && Inv(View()) && f in flying
      ensures f.slot < |writeBuf.hdrs.slots|
      ensures var h := writeBuf.hdrs.slots[f.slot];
              && h.name == f.what.name && h.count <= |h.iov|
              && InMemory(writeBuf.base.pool.bufs[..], h.iov[..h.count])
              && ReadRaw(writeBuf.base.pool.bufs[..], h.iov[..h.count]) == f.what.bytes
    {
      writeBuf.Parts();
      assert Carries(View().pool.data, View().slots, f);
      var v := writeBuf.vecs[f.slot];
      assert Matches(writeBuf.base.pool, writeBuf.hdrs.slots[f.slot], v);
      hide writeBuf.Valid, writeBuf.hdrs.Valid, writeBuf.base.Valid, writeBuf.base.pool.Valid, Inv, ReadVec, ReadRaw,
           Readable, InMemory;
      RawReads(writeBuf.base.pool, v);
    }
  }

  /** The blocks of everybody but the completing slot. */
  ghost function Rest(u: Udp, slot: nat): multiset<nat>
    requires slot < |u.slots|
  {
    Total(Holdings(u.pending, u.slots)) - multiset(BlocksOf(u.slots[slot].vec))
  }

  lemma LandingShare(u: Udp, k: nat) returns (held: multiset<nat>)
    requires Inv(u) && k < |u.flying|
    ensures var i := u.flying[k].slot;
            && i < |u.slots| && Holds(u.pool, multiset(BlocksOf(u.slots[i].vec)) + held) && multiset(u.pending) <= held
            && Once(multiset(u.free) + multiset{i}, |u.slots|)
  {
    var i, hs := u.flying[k].slot, Holdings(u.pending, u.slots);
    assert u.flying[k] in u.flying && Carries(u.pool.data, u.slots, u.flying[k]);
    hide Carries, Gather, Total, Holds;
    held := Rest(u, i);
    assert hs[1 + i] == multiset(BlocksOf(u.slots[i].vec));
    OneShare(u.pool, hs, 1 + i);
    LandedCounts(u.flying, k);
    AllOnce(|u.slots|);
    OncePart(multiset(u.free) + multiset{i}, All(|u.slots|), |u.slots|);
  }
}
