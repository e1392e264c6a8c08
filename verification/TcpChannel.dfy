/**
  `NotifyToken` and `TcpChannel`: the write loop as code over the real rings, proved to
  compute the steps of the worker's transition system.  `busy` stands for what
  `has_in_flight()` returns.
 */
module TcpChannels {
  import opened Bits
  import opened Blocks
  import opened BufferPool
  import opened WriteSpec
  import opened WriteBuffer
  import opened WriteStream
  import opened TcpWorker

  class NotifyToken {
    var pending: bool
    var closed: bool
    var parked: bool  // handle_ holds the suspended write loop

    constructor ()
      ensures !pending && !closed && !parked
    {
      pending, closed, parked := false, false, false;
    }

    method AwaitReady() returns (ready: bool)
      modifies this`pending
      ensures ready == old(pending) && !pending
    {
      if pending {
        pending := false;
        return true;
      }
      return false;
    }

    /** One call wakes one waiter or leaves one note, never both and never neither. */
    method Notify() returns (resume: bool)
      modifies this`pending, this`parked
      ensures resume == old(parked) && !parked
      ensures pending == (old(pending) || !resume)
    {
      resume := parked;
      parked := false;
      if !resume {
        pending := true;
      }
    }

    method NotifyClose() returns (resume: bool)
      modifies this`pending, this`parked, this`closed
      ensures closed && resume == old(parked) && !parked
      ensures pending == (old(pending) || !resume)
    {
      closed := true;
      resume := Notify();
    }
  }

  /** How one pass through the loop body ends. */
  datatype Outlook = Suspended | Leave | Again

  /** Where the loop gets to from its top, or from just after the wait. */
  ghost function Target(p: Pool, ch: Channel, skipWait: bool, busy: bool): Part
    requires Sound(p, ch)
  {
    if skipWait then Proceed(p, ch, busy) else LoopTop(p, ch, busy)
  }

  /** The steps that write to the draft, spelled out. */
  lemma DraftSteps(p: Pool, cap: nat, ch: Channel, bytes: seq<byte>)
    requires Sound(p, ch) && Holds(p, multiset(ch.pending) + multiset(ch.send)) && |ch.pending| <= cap && Apart(ch.send)
    ensures Holds(p, multiset(ch.pending))
    ensures var o := AppendSpec(p, ch.pending, cap, bytes);
            Step(p, cap, ch, Event.Append(0, bytes))
            == (o.pool, ch.(pending := o.pending, draft := if o.ok then ch.draft + bytes else ch.draft))
    ensures var o := PrependSpec(p, ch.pending, cap, bytes);
            Step(p, cap, ch, Event.Prepend(0, bytes))
            == (o.pool, ch.(pending := o.pending, draft := if o.ok then bytes + ch.draft else ch.draft))
  {
    hide Holds, Sound, Apart, AppendSpec, PrependSpec;
    HoldsPart(p, multiset(ch.pending), multiset(ch.pending) + multiset(ch.send));
  }

  class TcpChannel {
    const writeBuf: WriteBufStream
    const token: NotifyToken
    ghost var at: Where
    ghost var draft: seq<byte>
    ghost var submitted: seq<byte>
    ghost var carried: seq<byte>
    ghost var acked: seq<byte>

    ghost function Pool(): Pool
      reads this, writeBuf, writeBuf.base, writeBuf.base.pool
    {
      writeBuf.base.pool.view
    }

    ghost function View(): Channel
      reads this, token, writeBuf, writeBuf.base
    {
      Channel(writeBuf.base.pending, writeBuf.send, writeBuf.sendHeadOffset, token.pending, token.closed,
              at, draft, submitted, carried, acked)
    }

    /** While a `writev` is outstanding, the array it was given holds the addresses and lengths of what it covers. */
    ghost predicate Handed()
      reads this`at, writeBuf.iovecs
    {
      at.Writing? ==>
        && |at.vec| <= writeBuf.iovecs.Length
        && writeBuf.iovecs[..|at.vec|] == Raw(writeBuf.base.pool, at.vec)
    }

    ghost predicate Valid()
      reads this, token, writeBuf, writeBuf.sendQueue, writeBuf.iovecs, writeBuf.base, writeBuf.base.pendingBufs,
            writeBuf.base.pool, writeBuf.base.pool.bufs, writeBuf.base.pool.dataSize, writeBuf.base.pool.freeIdxQueue
    {
      writeBuf.Valid() && (token.parked <==> at.Parked?) && Handed()
    }

    constructor (pool: BufPool, capacity: nat)
      requires pool.Valid() && capacity > 0 && And(capacity, capacity - 1) == 0 && capacity < I32_LIMIT
      ensures Valid() && View() == NewChannel() && writeBuf.base.pool == pool && writeBuf.base.capacity == capacity
    {
      writeBuf := new WriteBufStream(pool, capacity);
      token := new NotifyToken();
      at := Ended;
      draft, submitted, carried, acked := [], [], [], [];
    }

    lemma SoundNow()
      requires writeBuf.Valid()
      ensures Sound(Pool(), View()) && InRange(Pool().data, writeBuf.base.pending) && Apart(writeBuf.send)
      ensures Holds(Pool(), multiset(writeBuf.base.pending) + multiset(writeBuf.send))
      ensures |writeBuf.base.pending| <= writeBuf.base.capacity && |writeBuf.send| <= writeBuf.base.capacity
      ensures writeBuf.sendHead == writeBuf.sendTail <==> writeBuf.send == []
    {
      writeBuf.Facts();
      writeBuf.Counts();
      writeBuf.SendInRange();
    }

    /** `if (!has_send_data()) co_await notify_token_` */
    method Wait() returns (ready: bool)
      requires writeBuf.Valid() && !token.parked
      modifies this`at, token`pending, token`parked
      ensures ready ==> !token.parked && View() == old(View()).(flag := old(token.pending) && writeBuf.send != [])
      ensures ready ==> writeBuf.send != [] || old(token.pending)
      ensures !ready ==>
                token.parked && writeBuf.send == [] && !old(token.pending) && View() == old(View()).(at := Parked)
    {
      SoundNow();
      ready := true;
      if writeBuf.sendHead == writeBuf.sendTail {
        ready := token.AwaitReady();
        if !ready {
          token.parked := true;
          at := Parked;
        }
      }
    }

    /** The rest of the loop body. */
    method Decide(busy: bool) returns (next: Outlook)
      requires writeBuf.Valid() && !token.parked && Sound(Pool(), View())
      modifies this`at, writeBuf.iovecs
      ensures next.Leave? <==> token.closed && !busy
      ensures next.Again? <==> !next.Leave? && writeBuf.send == []
      ensures next.Suspended? ==> !at.Parked? && Handed() && (Pool(), View()) == Proceed(Pool(), old(View()), busy)
      ensures !next.Suspended? ==> at == old(at)
    {
      hide writeBuf.Valid, Iovecs, End;
      if token.closed && !busy {
        return Leave;
      }
      var count, bytes := writeBuf.PeekIovec();
      if count == 0 {
        return Again;
      }
      at := Writing(Iovecs(Pool().data, writeBuf.send, writeBuf.sendHeadOffset));
      return Suspended;
    }

    /** One pass through the loop body. */
    method Turn(skipWait: bool, busy: bool) returns (next: Outlook)
      requires writeBuf.Valid() && !token.parked && Sound(Pool(), View())
      modifies this`at, token`pending, token`parked, writeBuf.iovecs
      ensures Sound(Pool(), View()) && Pool() == old(Pool())
      ensures next.Suspended? ==>
                && (token.parked <==> at.Parked?) && Handed()
                && (Pool(), View()) == Target(old(Pool()), old(View()), skipWait, busy)
      ensures next.Leave? ==> !token.parked && End(Pool(), View()) == Target(old(Pool()), old(View()), skipWait, busy)
      ensures next.Again? ==>
                && !token.parked && LoopTop(Pool(), View(), busy) == Target(old(Pool()), old(View()), skipWait, busy)
                && (skipWait ==> token.pending == old(token.pending))
                && (!skipWait ==> old(token.pending) && !token.pending)
    {
      hide writeBuf.Valid, Iovecs, HeadOk, InRange, ReleaseAll;
      if !skipWait {
        var ready := Wait();
        if !ready {
          return Suspended;
        }
      }
      next := Decide(busy);
    }

    /** The loop from its top, or from just after the wait, to its next suspension or its end. */
    method RunLoop(resumed: bool, busy: bool)
      requires writeBuf.Valid() && !token.parked && Sound(Pool(), View())
      modifies this, token, writeBuf, writeBuf.iovecs, writeBuf.base,
               writeBuf.base.pool, writeBuf.base.pool.dataSize, writeBuf.base.pool.freeIdxQueue
      ensures Valid()
      ensures (Pool(), View()) == Target(old(Pool()), old(View()), resumed, busy)
    {
      hide writeBuf.Valid, Sound, Proceed, LoopTop, End;
      ghost var goal := Target(Pool(), View(), resumed, busy);
      var skipWait, again := resumed, true;
      while again
        invariant writeBuf.Valid() && !token.parked && Sound(Pool(), View())
        invariant goal == if again then Target(Pool(), View(), skipWait, busy) else End(Pool(), View())
        decreases again, token.pending, skipWait
      {
        var next := Turn(skipWait, busy);
        if next.Suspended? {
          return;
        }
        skipWait, again := false, next.Again?;
      }
      Finish();
    }

    /** After the loop: `write_buf_.reset()`. */
    method Finish()
      requires writeBuf.Valid() && !token.parked && Sound(Pool(), View())
      modifies this, writeBuf, writeBuf.base,
               writeBuf.base.pool, writeBuf.base.pool.dataSize, writeBuf.base.pool.freeIdxQueue
      ensures Valid() && (Pool(), View()) == End(old(Pool()), old(View()))
    {
      hide writeBuf.Valid, HeadOk, InRange, ReleaseAll;
      writeBuf.Reset();
      at := Ended;
      draft, submitted, carried, acked := [], [], [], [];
    }

    /** What the specification of a step needs to know about the present state. */
    ghost predicate Steppable()
      reads this, token, writeBuf, writeBuf.base, writeBuf.base.pool
    {
      && Sound(Pool(), View()) && Apart(writeBuf.send)
      && Holds(Pool(), multiset(writeBuf.base.pending) + multiset(writeBuf.send))
      && |writeBuf.base.pending| <= writeBuf.base.capacity
    }

    lemma CanStep()
      requires Valid()
      ensures writeBuf.Valid() && Steppable() && Holds(Pool(), multiset(writeBuf.base.pending))
    {
      SoundNow();
      HoldsPart(Pool(), multiset(writeBuf.base.pending), multiset(writeBuf.base.pending) + multiset(writeBuf.send));
    }

    /** `write_buf_.append` */
    method PutLast(src: seq<byte>) returns (ok: bool)
      requires Valid() && |src| < U32
      modifies writeBuf.base`pendingTail, writeBuf.base`pending, writeBuf.base.pendingBufs,
               writeBuf.base.pool, writeBuf.base.pool.bufs, writeBuf.base.pool.dataSize, writeBuf.base.pool.freeIdxQueue
      ensures Valid() && old(Steppable()) && Holds(old(Pool()), multiset(old(writeBuf.base.pending)))
      ensures var o := AppendSpec(old(Pool()), old(writeBuf.base.pending), writeBuf.base.capacity, src);
              ok == o.ok && Pool() == o.pool && View() == old(View()).(pending := o.pending)
    {
      hide writeBuf.Valid, AppendSpec, Holds, Sound, Apart;
      CanStep();
      ok := writeBuf.Append(src);
    }

    method Append(src: seq<byte>) returns (ok: bool)
      requires Valid() && |src| < U32
      modifies this`draft, writeBuf.base`pendingTail, writeBuf.base`pending, writeBuf.base.pendingBufs,
               writeBuf.base.pool, writeBuf.base.pool.bufs, writeBuf.base.pool.dataSize, writeBuf.base.pool.freeIdxQueue
      ensures Valid() && old(Steppable()) && Holds(old(Pool()), multiset(old(writeBuf.base.pending)))
      ensures ok == AppendSpec(old(Pool()), old(writeBuf.base.pending), writeBuf.base.capacity, src).ok
      ensures (Pool(), View()) == Step(old(Pool()), writeBuf.base.capacity, old(View()), Event.Append(0, src))
    {
      hide writeBuf.Valid, AppendSpec, Step, Holds, Sound, Apart;
      ghost var p, ch := Pool(), View();
      ok := PutLast(src);
      DraftSteps(p, writeBuf.base.capacity, ch, src);
      draft := if ok then draft + src else draft;
    }

    /** `write_buf_.prepend` */
    method PutFirst(src: seq<byte>) returns (ok: bool)
      requires Valid() && |src| < U32
      modifies writeBuf.base`pendingHead, writeBuf.base`pending, writeBuf.base.pendingBufs,
               writeBuf.base.pool, writeBuf.base.pool.bufs, writeBuf.base.pool.dataSize, writeBuf.base.pool.freeIdxQueue
      ensures Valid() && old(Steppable()) && Holds(old(Pool()), multiset(old(writeBuf.base.pending)))
      ensures var o := PrependSpec(old(Pool()), old(writeBuf.base.pending), writeBuf.base.capacity, src);
              ok == o.ok && Pool() == o.pool && View() == old(View()).(pending := o.pending)
    {
      hide writeBuf.Valid, PrependSpec, Holds, Sound, Apart;
      CanStep();
      ok := writeBuf.Prepend(src);
    }

    method Prepend(src: seq<byte>) returns (ok: bool)
      requires Valid() && |src| < U32
      modifies this`draft, writeBuf.base`pendingHead, writeBuf.base`pending, writeBuf.base.pendingBufs,
               writeBuf.base.pool, writeBuf.base.pool.bufs, writeBuf.base.pool.dataSize, writeBuf.base.pool.freeIdxQueue
      ensures Valid() && old(Steppable()) && Holds(old(Pool()), multiset(old(writeBuf.base.pending)))
      ensures ok == PrependSpec(old(Pool()), old(writeBuf.base.pending), writeBuf.base.capacity, src).ok
      ensures (Pool(), View()) == Step(old(Pool()), writeBuf.base.capacity, old(View()), Event.Prepend(0, src))
    {
      hide writeBuf.Valid, PrependSpec, Step, Holds, Sound, Apart;
      ghost var p, ch := Pool(), View();
      ok := PutFirst(src);
      DraftSteps(p, writeBuf.base.capacity, ch, src);
      draft := if ok then src + draft else draft;
    }

    /** The resumption half of `notify`. */
    method Wake(resume: bool, busy: bool)
      requires writeBuf.Valid() && !token.parked && Sound(Pool(), View())
      requires !resume ==> token.pending && !at.Parked? && Handed()
      modifies this, token, writeBuf, writeBuf.iovecs, writeBuf.base,
               writeBuf.base.pool, writeBuf.base.pool.dataSize, writeBuf.base.pool.freeIdxQueue
      ensures Valid()
      ensures (Pool(), View()) == if resume then Proceed(old(Pool()), old(View()), busy) else (old(Pool()), old(View()))
      ensures !resume ==> writeBuf.iovecs[..] == old(writeBuf.iovecs[..])
    {
      hide writeBuf.Valid, Sound, Proceed;
      if resume {
        RunLoop(true, busy);
      }
    }

    /** `write_buf_.submit()`, with the record of what was submitted. */
    method Hand() returns (ok: bool)
      requires Valid()
      modifies this`submitted, this`draft, writeBuf, writeBuf.sendQueue, writeBuf.base
      ensures Valid() && Pool() == old(Pool())
      ensures ok <==> SubmitFits(old(View()), writeBuf.base.capacity)
      ensures View() == if ok then Submitted(old(View())) else old(View())
    {
      hide writeBuf.Valid, Unsent, Gather, InRange;
      ok := writeBuf.Submit();
      if ok {
        submitted, draft := submitted + draft, [];
      }
    }

    /** Hands the draft to the send ring and wakes the write loop, or leaves everything for a later try. */
    method Submit(busy: bool) returns (ok: bool)
      requires Valid()
      modifies this, token, writeBuf, writeBuf.sendQueue, writeBuf.iovecs, writeBuf.base,
               writeBuf.base.pool, writeBuf.base.pool.dataSize, writeBuf.base.pool.freeIdxQueue
      ensures Valid() && old(Steppable())
      ensures ok <==> SubmitFits(old(View()), writeBuf.base.capacity)
      ensures (Pool(), View()) == SubmitStep(old(Pool()), writeBuf.base.capacity, old(View()), busy)
      ensures old(at).Writing? ==> writeBuf.iovecs[..] == old(writeBuf.iovecs[..])
    {
      hide writeBuf.Valid, Sound, Proceed, Holds, Apart;
      CanStep();
      ok := Hand();
      if ok {
        var resume := token.Notify();
        SoundNow();
        Wake(resume, busy);
      }
    }

    method Close(busy: bool)
      requires Valid()
      modifies this, token, writeBuf, writeBuf.iovecs, writeBuf.base,
               writeBuf.base.pool, writeBuf.base.pool.dataSize, writeBuf.base.pool.freeIdxQueue
      ensures Valid() && old(Steppable())
      ensures (Pool(), View()) == Step(old(Pool()), writeBuf.base.capacity, old(View()), Event.Close(0, busy))
      ensures old(at).Writing? ==> writeBuf.iovecs[..] == old(writeBuf.iovecs[..])
    {
      hide writeBuf.Valid, Sound, Proceed, Holds, Apart;
      CanStep();
      var resume := token.NotifyClose();
      SoundNow();
      Wake(resume, busy);
    }

    method OnDrained(busy: bool)
      requires Valid()
      modifies this, token, writeBuf, writeBuf.iovecs, writeBuf.base,
               writeBuf.base.pool, writeBuf.base.pool.dataSize, writeBuf.base.pool.freeIdxQueue
      ensures Valid() && old(Steppable())
      ensures (Pool(), View()) == Step(old(Pool()), writeBuf.base.capacity, old(View()), Event.Drained(0, busy))
      ensures old(at).Writing? ==> writeBuf.iovecs[..] == old(writeBuf.iovecs[..])
    {
      hide writeBuf.Valid, Sound, Proceed, Holds, Apart;
      CanStep();
      if token.closed {
        var resume := token.Notify();
        SoundNow();
        Wake(resume, busy);
      }
    }

    /** The loop after `on_write` returned. */
    method Continue(busy: bool)
      requires Valid() && at.InCallback?
      modifies this, token, writeBuf, writeBuf.iovecs, writeBuf.base,
               writeBuf.base.pool, writeBuf.base.pool.dataSize, writeBuf.base.pool.freeIdxQueue
      ensures Valid() && old(Steppable())
      ensures (Pool(), View()) == Step(old(Pool()), writeBuf.base.capacity, old(View()), Event.Continue(0, busy))
    {
      hide writeBuf.Valid, Sound, LoopTop, Holds, Apart;
      CanStep();
      RunLoop(false, busy);
    }

    /** `assign`: a fresh token and a fresh loop over whatever the write buffer holds. */
    method Assign(busy: bool)
      requires Valid() && at.Ended?
      modifies this, token, writeBuf, writeBuf.iovecs, writeBuf.base,
               writeBuf.base.pool, writeBuf.base.pool.dataSize, writeBuf.base.pool.freeIdxQueue
      ensures Valid() && old(Steppable())
      ensures (Pool(), View()) == Step(old(Pool()), writeBuf.base.capacity, old(View()), Event.Assign(0, busy))
    {
      hide writeBuf.Valid, Sound, LoopTop, Holds, Apart;
      CanStep();
      Renew();
      SoundNow();
      RunLoop(false, busy);
    }

    /** `notify_token_ = NotifyToken{}`; whatever the ring still holds now counts as carried over. */
    method Renew()
      modifies token`pending, token`closed, this`carried, this`submitted
      ensures View()
              == old(View()).(flag := false, closed := false, carried := old(carried) + old(submitted), submitted := [])
    {
      token.pending, token.closed := false, false;
      carried, submitted := carried + submitted, [];
    }

    /** The loop when its `writev` completes: the error exit, or the acknowledged prefix dropped. */
    method OnWritten(res: int)
      requires Valid() && at.Writing? && Sound(Pool(), View()) && LoopOk(Pool(), View())
      requires Readable(Pool().data, at.vec) && res <= |ReadVec(Pool().data, at.vec)|
      modifies this, token`pending, token`closed, token`parked, writeBuf, writeBuf.base,
               writeBuf.base.pool, writeBuf.base.pool.dataSize, writeBuf.base.pool.freeIdxQueue
      ensures Valid() && old(Steppable())
      ensures (Pool(), View()) == CompleteStep(old(Pool()), old(View()), res)
    {
      hide writeBuf.Valid, Sound, Holds, Apart, LoopOk, Readable;
      CanStep();
      if res <= 0 {
        if !token.closed {
          var resume := token.NotifyClose();
        }
        SoundNow();
        Finish();
      } else {
        Acknowledge(res);
      }
    }

    method Acknowledge(res: nat)
      requires Valid() && at.Writing? && Sound(Pool(), View()) && Apart(writeBuf.send) && LoopOk(Pool(), View())
      requires Readable(Pool().data, at.vec) && 0 < res <= |ReadVec(Pool().data, at.vec)|
      modifies this`at, this`acked, writeBuf,
               writeBuf.base.pool, writeBuf.base.pool.dataSize, writeBuf.base.pool.freeIdxQueue
      ensures Valid() && (Pool(), View()) == CompleteStep(old(Pool()), old(View()), res)
    {
      hide writeBuf.Valid, Apart, LoopOk, Readable, Consume, Unsent, ReadVec;
      ghost var got := ReadVec(Pool().data, at.vec)[..res];
      NoMoreThanUnsent(Pool(), View());
      writeBuf.ConsumeWritten(res);
      acked := acked + got;
      at := InCallback;
    }

    /** The fields and arrays this channel has to itself are as they were. */
    twostate predicate Untouched()
      reads this, token, writeBuf, writeBuf.sendQueue, writeBuf.iovecs, writeBuf.base, writeBuf.base.pendingBufs
    {
      unchanged(this, token, writeBuf, writeBuf.sendQueue, writeBuf.iovecs, writeBuf.base, writeBuf.base.pendingBufs)
    }

    /**
      A method of another channel on the same pool: this channel stays valid, and its blocks, its bytes and its
      outstanding `writev` stay as they were.
     */
    twostate lemma Undisturbed(actor: TcpChannel, e: Event)
      requires actor.writeBuf.base.pool == writeBuf.base.pool && old(Valid()) && old(actor.Steppable())
      requires old(ChanOk(Pool(), writeBuf.base.capacity, View()))
      requires old(ChanOk(Pool(), actor.writeBuf.base.capacity, actor.View()))
      requires old(Holds(Pool(), Mine(actor.View()) + Mine(View())))
      requires old(Pool()).blockSize < U32 && Sane(e, old(Pool()).blockSize)
      requires actor.Valid() && Untouched()
      requires (Pool(), actor.View()) == Step(old(Pool()), actor.writeBuf.base.capacity, old(actor.View()), e)
      ensures Valid() && View() == old(View()) && ChanOk(Pool(), writeBuf.base.capacity, View())
      ensures Holds(Pool(), Mine(actor.View()) + Mine(View()))
    {
      hide *;
      SameView();
      OthersKept(old(Pool()), actor.writeBuf.base.capacity, old(actor.View()), e, writeBuf.base.capacity, View());
      StillValid(actor);
    }

    twostate lemma SameView()
      requires Untouched()
      ensures View() == old(View())
    {
    }

    twostate lemma StillValid(actor: TcpChannel)
      requires actor.writeBuf.base.pool == writeBuf.base.pool && old(Valid()) && Untouched() && actor.Valid()
      requires Sound(Pool(), View()) && Holds(Pool(), Mine(View()))
      ensures Valid()
    {
      hide Holds, HeadOk;
      assert writeBuf.base.Shape() && writeBuf.Shape() && actor.writeBuf.base.pool.Valid();
      HoldsPart(Pool(), multiset(writeBuf.base.pending), Mine(View()));
    }

    /**
      What the kernel reads from memory through the outstanding array is what was submitted after the acknowledged
      bytes.
     */
    lemma KernelReads()
      requires Valid() && ChanOk(Pool(), writeBuf.base.capacity, View()) && at.Writing?
      ensures |at.vec| <= writeBuf.iovecs.Length && InMemory(writeBuf.base.pool.bufs[..], writeBuf.iovecs[..|at.vec|])
      ensures |acked| + VecLen(at.vec) <= |carried + submitted|
      ensures ReadRaw(writeBuf.base.pool.bufs[..], writeBuf.iovecs[..|at.vec|])
              == (carried + submitted)[|acked|..|acked| + VecLen(at.vec)]
    {
      writeBuf.Counts();
      InFlightBytes(Pool(), writeBuf.base.capacity, View());
      hide writeBuf.Valid, writeBuf.base.pool.Valid, ChanOk, ReadVec, ReadRaw, InMemory, VecLen;
      RawReads(writeBuf.base.pool, at.vec);
    }
  }

  lemma NoMoreThanUnsent(p: Pool, ch: Channel)
    requires Sound(p, ch) && LoopOk(p, ch) && ch.at.Writing? && Readable(p.data, ch.at.vec)
    ensures |ReadVec(p.data, ch.at.vec)| <= |Unsent(p.data, ch.send, ch.offset)|
  {
    PeekIsUnsent(p.data, ch.send, ch.offset);
    ReadVecPrefix(p.data, Iovecs(p.data, ch.send, ch.offset), |ch.at.vec|);
  }

  lemma ItsSound(p: Pool, cap: nat, ch: Channel)
    requires ChanOk(p, cap, ch)
    ensures Sound(p, ch)
  {
  }

  /** A step of one channel, seen from another channel on the same pool. */
  lemma OthersKept(p: Pool, cap: nat, ch: Channel, e: Event, cap': nat, other: Channel)
    requires Holds(p, Mine(ch) + Mine(other)) && ChanOk(p, cap, ch) && ChanOk(p, cap', other)
    requires p.blockSize < U32 && Sane(e, p.blockSize)
    ensures Holds(p, Mine(ch)) && Apart(ch.send)
    ensures var r := Step(p, cap, ch, e);
            && Holds(r.0, Mine(r.1) + Mine(other)) && Holds(r.0, Mine(other))
            && ChanOk(r.0, cap', other) && Sound(r.0, other)
  {
    StepKept(p, cap, ch, e, Mine(other));
    hide Step, Holds, ChanOk, Mine;
    var r := Step(p, cap, ch, e);
    HoldsPart(r.0, Mine(other), Mine(r.1) + Mine(other));
    forall i | i in Mine(other) ensures i < |p.data| && r.0.data[i] == p.data[i] {
      NotElsewhere(p, Mine(ch), Mine(other), i);
    }
    BystanderKept(p, r.0, cap', other);
    ItsSound(r.0, cap', other);
  }
}
