/**
  When the send ring of a TCP channel drains.  The one call that puts an empty block into a
  channel is an append of nothing to an empty pending list.  As long as nobody makes it, every
  `writev` covers at least one byte and acknowledging every submitted byte returns every
  submitted block; runs that make it, and lose their connection, close the file.
 */
module TcpDrain {
  import opened Bits
  import opened Blocks
  import opened WriteSpec
  import opened TcpWorker

  // ---------- Filling uses every block it asks for ----------

  ghost predicate Used(data: seq<seq<byte>>, idxs: seq<nat>)
    requires InRange(data, idxs)
  {
    forall k :: 0 <= k < |idxs| ==> data[idxs[k]] != []
  }

  /** If the bytes do not fit without the last block, no block stays empty. */
  lemma {:induction false} FillUsesAll(data: seq<seq<byte>>, targets: seq<nat>, bytes: seq<byte>, size: nat)
    requires InRange(data, targets) && Bounded(data, size) && Apart(targets) && targets != [] && size > 0
    requires |bytes| > Room(data, targets[..|targets| - 1], size)
    ensures Used(Fill(data, targets, bytes, size), targets)
    decreases |targets|
  {
    var t, rest := targets[0], targets[1..];
    var k := Min(size - |data[t]|, |bytes|);
    var data1 := data[t := data[t] + bytes[..k]];
    var out := Fill(data1, rest, bytes[k..], size);
    assert out == Fill(data, targets, bytes, size);
    HeadApart(targets);
    FillFrame(data1, rest, bytes[k..], size);
    assert out[t] == data1[t];
    if rest == [] {
      assert out[targets[0]] != [];
    } else {
      var init := targets[..|targets| - 1];
      assert init[0] == t && init[1..] == rest[..|rest| - 1];
      assert Room(data, init, size) == size - |data[t]| + Room(data, init[1..], size);
      assert t !in rest[..|rest| - 1];
      RoomFrame(data, t, data1[t], rest[..|rest| - 1], size);
      FillUsesAll(data1, rest, bytes[k..], size);
      forall i | 0 <= i < |targets| ensures out[targets[i]] != [] {
        if i > 0 {
          assert targets[i] == rest[i - 1];
        }
      }
    }
  }

  lemma {:induction false} FillOnlyAdds(data: seq<seq<byte>>, targets: seq<nat>, bytes: seq<byte>, size: nat, i: nat)
    requires InRange(data, targets) && Bounded(data, size) && i < |data|
    ensures data[i] <= Fill(data, targets, bytes, size)[i]
    decreases |targets|
  {
    if targets != [] {
      var t := targets[0];
      var k := Min(size - |data[t]|, |bytes|);
      FillOnlyAdds(data[t := data[t] + bytes[..k]], targets[1..], bytes[k..], size, i);
    }
  }

  /** The blocks an append or a prepend asks for are all needed. */
  lemma LastIsNeeded(p: Pool, e: nat, room: nat, n: nat)
    requires PoolOk(p) && InRange(p.data, p.free) && e <= |p.free| && e > 0
    requires e == Need(room, n, p.blockSize)
    ensures room + Room(p.data, p.free[..e - 1], p.blockSize) < n
  {
    FreshRoom(p, e - 1);
    NeedIsLeast(room, n, p.blockSize, e - 1);
  }

  lemma NewBlocksUsed(p: Pool, e: nat, bytes: seq<byte>)
    requires PoolOk(p) && InRange(p.data, p.free) && Apart(p.free) && e <= |p.free| && e > 0
    requires |bytes| > Room(p.data, p.free[..e - 1], p.blockSize)
    ensures Used(Fill(p.data, p.free[..e], bytes, p.blockSize), p.free[..e])
  {
    hide Fill, Room, PoolOk, Used;
    assert p.free[..e][..e - 1] == p.free[..e - 1];
    BlocksBounded(p);
    FillUsesAll(p.data, p.free[..e], bytes, p.blockSize);
  }

  lemma BlocksBounded(p: Pool)
    requires PoolOk(p)
    ensures Bounded(p.data, p.blockSize) && p.blockSize > 0
  {
  }

  lemma TopUpUsed(p: Pool, last: nat, e: nat, bytes: seq<byte>)
    requires PoolOk(p) && InRange(p.data, p.free) && e <= |p.free| && last < |p.data| && p.data[last] != []
    requires Apart([last] + p.free[..e]) && e == Need(p.blockSize - |p.data[last]|, |bytes|, p.blockSize)
    ensures Used(Fill(p.data, [last] + p.free[..e], bytes, p.blockSize), [last] + p.free[..e])
  {
    var targets := [last] + p.free[..e];
    if e == 0 {
      FillOnlyAdds(p.data, targets, bytes, p.blockSize, last);
    } else {
      LastIsNeeded(p, e, p.blockSize - |p.data[last]|, |bytes|);
      assert targets[..e] == [last] + p.free[..e - 1];
      assert targets[..e][1..] == p.free[..e - 1];
      FillUsesAll(p.data, targets, bytes, p.blockSize);
    }
  }

  /** The only append that leaves an empty block is one of nothing to an empty list. */
  lemma AppendUsed(p: Pool, pending: seq<nat>, cap: nat, bytes: seq<byte>)
    requires Holds(p, multiset(pending)) && |pending| <= cap
    requires InRange(p.data, pending) && Used(p.data, pending)
    ensures var o := AppendSpec(p, pending, cap, bytes);
            && InRange(o.pool.data, o.pending)
            && (Used(o.pool.data, o.pending) <==> bytes != [] || pending != [] || !o.ok)
  {
    HoldsIndices(p, pending);
    AppendContents(p, pending, cap, bytes);
    if pending == [] && bytes == [] {
      if AppendFits(p, [], cap, 0) {
        EmptyAppendQueuesBlock(p, cap);
        assert p.free[0] in p.free;
      }
    } else if AppendFits(p, pending, cap, |bytes|) {
      hide Holds, Fill, Gather, Apart, Need;
      if pending == [] {
        AppendToNoneUsed(p, bytes);
      } else {
        AppendToSomeUsed(p, pending, BlocksForAppend(p, pending, |bytes|), bytes);
      }
    }
  }

  /** An empty append to an empty list queues an empty block. */
  lemma EmptyAppendQueuesBlock(p: Pool, cap: nat)
    requires PoolOk(p) && p.free != [] && cap > 0
    ensures Holds(p, multiset([]))
    ensures AppendSpec(p, [], cap, []) == Outcome(true, p.(free := p.free[1..]), [p.free[0]])
  {
    assert multiset(p.free) + multiset([]) == multiset(p.free);
    HoldsIndices(p, []);
    var all := [] + p.free[..1];
    assert all == [p.free[0]] && all[0..] == all;
    FillNothing(p.data, all, p.blockSize);
  }

  lemma AppendToNoneUsed(p: Pool, bytes: seq<byte>)
    requires PoolOk(p) && InRange(p.data, p.free) && Apart(p.free) && bytes != []
    ensures var e := 1 + Need(p.blockSize, |bytes|, p.blockSize);
            e <= |p.free| ==>
              var o := Appended(p, [], e, bytes);
              InRange(o.pool.data, o.pending) && Used(o.pool.data, o.pending)
  {
    hide Room, Fill, Apart, PoolOk, Need, Used;
    BlocksBounded(p);
    var m := Need(p.blockSize, |bytes|, p.blockSize);
    if m + 1 <= |p.free| {
      var all := [] + p.free[..m + 1];
      assert all == p.free[..m + 1] && all[0..] == all;
      FirstBlocksFull(p, m, |bytes|);
      NewBlocksUsed(p, m + 1, bytes);
    }
  }

  lemma FirstBlocksFull(p: Pool, m: nat, n: nat)
    requires PoolOk(p) && InRange(p.data, p.free) && m <= |p.free| && n > 0 && m == Need(p.blockSize, n, p.blockSize)
    ensures Room(p.data, p.free[..m], p.blockSize) < n
  {
    FreshRoom(p, m);
    if m > 0 {
      NeedIsLeast(p.blockSize, n, p.blockSize, m - 1);
      assert m * p.blockSize == p.blockSize + (m - 1) * p.blockSize;
    }
  }

  lemma AppendToSomeUsed(p: Pool, pending: seq<nat>, e: nat, bytes: seq<byte>)
    requires Holds(p, multiset(pending)) && InRange(p.data, pending) && pending != [] && Used(p.data, pending)
    requires e == BlocksForAppend(p, pending, |bytes|) && e <= |p.free|
    ensures InRange(p.data, p.free)
    ensures var o := Appended(p, pending, e, bytes);
            InRange(o.pool.data, o.pending) && Used(o.pool.data, o.pending)
  {
    HoldsIndices(p, pending);
    BlocksBounded(p);
    hide Fill, Holds, Need, PoolOk, Room;
    TopUpTargets(p, pending, e);
    var last, all := |pending| - 1, pending + p.free[..e];
    var targets := all[last..];
    TopUpUsed(p, pending[last], e, bytes);
    FillFrame(p.data, targets, bytes, p.blockSize);
    var out := Fill(p.data, targets, bytes, p.blockSize);
    forall k | 0 <= k < |all| ensures out[all[k]] != [] {
      if k < last {
        assert pending[..last][k] == pending[k];
      } else {
        assert all[k] == targets[k - last];
      }
    }
  }

  lemma PrependUsed(p: Pool, pending: seq<nat>, cap: nat, bytes: seq<byte>)
    requires Holds(p, multiset(pending)) && |pending| <= cap && p.blockSize < U32 && |bytes| + p.blockSize <= U32
    requires InRange(p.data, pending) && Used(p.data, pending)
    ensures var o := PrependSpec(p, pending, cap, bytes);
            InRange(o.pool.data, o.pending) && Used(o.pool.data, o.pending)
  {
    HoldsIndices(p, pending);
    PrependContents(p, pending, cap, bytes);
    var o := PrependSpec(p, pending, cap, bytes);
    var e := BlocksForPrepend(|bytes|, p.blockSize);
    BlocksForPrependExact(|bytes|, p.blockSize);
    if o.ok {
      var added := p.free[..e];
      FillFrame(p.data, added, bytes, p.blockSize);
      if e > 0 {
        LastIsNeeded(p, e, 0, |bytes|);
        NewBlocksUsed(p, e, bytes);
      }
      forall k | 0 <= k < |o.pending| ensures o.pool.data[o.pending[k]] != [] {
        if k < e {
          assert o.pending[k] == added[k];
        } else {
          assert o.pending[k] == pending[k - e] && pending[k - e] !in added;
        }
      }
    }
  }

  // ---------- Runs ----------

  /** The call that queues an empty block: nothing, appended to an empty list, with a block to take. */
  ghost predicate QueuesNothing(p: Pool, cap: nat, ch: Channel, e: Event) {
    e.Append? && e.bytes == [] && ch.pending == [] && p.free != [] && cap > 0
  }

  ghost predicate NoEmptyBlock(p: Pool, ch: Channel) {
    InRange(p.data, ch.pending) && InRange(p.data, ch.send) && Used(p.data, ch.pending) && Used(p.data, ch.send)
  }

  lemma UsedFrame(data: seq<seq<byte>>, data': seq<seq<byte>>, idxs: seq<nat>)
    requires InRange(data, idxs) && |data'| == |data| && Used(data, idxs)
    requires forall i :: i in idxs ==> data'[i] == data[i]
    ensures Used(data', idxs)
  {
    forall k | 0 <= k < |idxs| ensures data'[idxs[k]] != [] {
      assert idxs[k] in idxs;
    }
  }

  lemma PendingStepUsed(p: Pool, cap: nat, ch: Channel, e: Event, others: multiset<nat>)
    requires Holds(p, Mine(ch) + others) && ChanOk(p, cap, ch) && p.blockSize < U32 && Sane(e, p.blockSize)
    requires NoEmptyBlock(p, ch) && (e.Append? || e.Prepend?)
    ensures Holds(p, Mine(ch)) && Apart(ch.send)
    ensures NoEmptyBlock(Step(p, cap, ch, e).0, Step(p, cap, ch, e).1) <==> !QueuesNothing(p, cap, ch, e)
  {
    Indices(p, ch, others);
    hide AppendSpec, PrependSpec, Holds, Apart, ChanOk;
    var r := Step(p, cap, ch, e);
    NoHeld(multiset(ch.pending));
    if e.Append? {
      AppendOwnership(p, ch.pending, cap, e.bytes, multiset{});
      AppendUsed(p, ch.pending, cap, e.bytes);
      AppendFitsIff(p, ch.pending, cap, e.bytes);
    } else {
      PrependOwnership(p, ch.pending, cap, e.bytes, multiset{});
      PrependUsed(p, ch.pending, cap, e.bytes);
    }
    UsedFrame(p.data, r.0.data, ch.send);
  }

  lemma NoHeld(m: multiset<nat>)
    ensures m + multiset{} == m
  {
  }

  lemma EndUsed(p: Pool, ch: Channel)
    requires Sound(p, ch)
    ensures NoEmptyBlock(End(p, ch).0, End(p, ch).1)
  {
  }

  lemma LoopUsed(p: Pool, ch: Channel, busy: bool)
    requires Sound(p, ch) && NoEmptyBlock(p, ch)
    ensures NoEmptyBlock(LoopTop(p, ch, busy).0, LoopTop(p, ch, busy).1)
    ensures NoEmptyBlock(Notify(p, ch, busy).0, Notify(p, ch, busy).1)
  {
    EndUsed(p, ch);
    EndUsed(p, ch.(flag := false));
  }

  lemma SubmitUsed(p: Pool, cap: nat, ch: Channel, busy: bool)
    requires Sound(p, ch) && NoEmptyBlock(p, ch)
    ensures NoEmptyBlock(SubmitStep(p, cap, ch, busy).0, SubmitStep(p, cap, ch, busy).1)
  {
    if SubmitFits(ch, cap) {
      SubmitSound(p, ch);
      LoopUsed(p, Submitted(ch), busy);
    }
  }

  lemma CompleteUsed(p: Pool, ch: Channel, res: int)
    requires Sound(p, ch) && Apart(ch.send) && NoEmptyBlock(p, ch)
    requires forall i :: i in ch.send ==> i !in ch.pending
    ensures NoEmptyBlock(CompleteStep(p, ch, res).0, CompleteStep(p, ch, res).1)
  {
    var s := Sending(p, ch.send, ch.offset);
    if ch.at.Writing? && Readable(p.data, ch.at.vec) && res > 0
       && res <= |ReadVec(p.data, ch.at.vec)| && res <= |UnsentOf(s)| {
      var k := ConsumeReleases(s, res);
      hide Consume, ReadVec, Unsent, Readable, Apart;
      ReleasedUsed(p, ch.pending, ch.send, k);
    }
  }

  lemma ReleasedUsed(p: Pool, pending: seq<nat>, send: seq<nat>, k: nat)
    requires InRange(p.data, pending) && InRange(p.data, send) && Used(p.data, pending) && Used(p.data, send)
    requires k <= |send| && Apart(send) && (forall i :: i in send ==> i !in pending)
    ensures InRange(p.data, send[..k])
    ensures var r := ReleaseAll(p, send[..k]);
            && InRange(r.data, pending) && InRange(r.data, send[k..])
            && Used(r.data, pending) && Used(r.data, send[k..])
  {
    var gone, left := send[..k], send[k..];
    ReleaseAllEffect(p, gone);
    var r := ReleaseAll(p, gone);
    forall i | i in left ensures i !in gone {
      var b :| 0 <= b < |left| && left[b] == i;
      assert forall a :: 0 <= a < k ==> gone[a] == send[a] && send[a] != send[k + b];
    }
    hide ReleaseAll, Apart;
    UsedFrame(p.data, r.data, left);
    UsedFrame(p.data, r.data, pending);
  }

  lemma StepUsed(p: Pool, cap: nat, ch: Channel, e: Event, others: multiset<nat>)
    requires Holds(p, Mine(ch) + others) && ChanOk(p, cap, ch) && p.blockSize < U32 && Sane(e, p.blockSize)
    requires NoEmptyBlock(p, ch)
    ensures Holds(p, Mine(ch)) && Apart(ch.send)
    ensures NoEmptyBlock(Step(p, cap, ch, e).0, Step(p, cap, ch, e).1) <==> !QueuesNothing(p, cap, ch, e)
  {
    Indices(p, ch, others);
    hide NoEmptyBlock, Holds, Sound, Apart;
    assert ChanOk(p, cap, ch);
    if e.Append? || e.Prepend? {
      PendingStepUsed(p, cap, ch, e, others);
    } else {
      match e
      case Submit(_, busy) => SubmitUsed(p, cap, ch, busy);
      case Complete(_, res) => CompleteUsed(p, ch, res);
      case Continue(_, busy) => LoopUsed(p, ch, busy);
      case Close(_, busy) =>
        CloseUsed(p, ch, ch.(closed := true));
        LoopUsed(p, ch.(closed := true), busy);
      case Drained(_, busy) => LoopUsed(p, ch, busy);
      case Assign(_, busy) =>
        var next := ch.(flag := false, closed := false, carried := ch.carried + ch.submitted, submitted := []);
        CloseUsed(p, ch, next);
        LoopUsed(p, next, busy);
    }
  }

  lemma CloseUsed(p: Pool, ch: Channel, ch': Channel)
    requires NoEmptyBlock(p, ch) && Sound(p, ch) && ch'.pending == ch.pending && ch'.send == ch.send
    requires ch'.offset == ch.offset
    ensures NoEmptyBlock(p, ch') && Sound(p, ch')
  {
  }

  ghost predicate NoEmptyBlocks(w: Worker) {
    forall c :: 0 <= c < |w.chans| ==> NoEmptyBlock(w.pool, w.chans[c])
  }

  ghost predicate NextQueuesNothing(w: Worker, e: Event) {
    e.c < |w.chans| && QueuesNothing(w.pool, w.cap, w.chans[e.c], e)
  }

  /** A step keeps the channels free of empty blocks if and only if it is not an append of nothing to an empty list. */
  lemma NextUsed(w: Worker, e: Event)
    requires Inv(w) && Sane(e, w.pool.blockSize) && NoEmptyBlocks(w)
    ensures NoEmptyBlocks(Next(w, e)) <==> !NextQueuesNothing(w, e)
  {
    hide Inv, Step, ChanOk, QueuesNothing, Holds, NoEmptyBlock, Apart, Sane;
    if e.c < |w.chans| {
      var c, ch, others := e.c, w.chans[e.c], Others(w, e.c);
      Share(w, c);
      InvChan(w, c);
      SmallBlocks(w);
      StepUsed(w.pool, w.cap, ch, e, others);
      StepKept(w.pool, w.cap, ch, e, others);
      var r := Step(w.pool, w.cap, ch, e);
      forall d | 0 <= d < |w.chans| && d != c ensures NoEmptyBlock(r.0, Next(w, e).chans[d]) {
        assert NoEmptyBlock(w.pool, w.chans[d]);
        BystanderUsed(w.pool, r.0, w.chans[d], Mine(ch), others);
      }
      OneChannel(Next(w, e), c);
    }
  }

  lemma SmallBlocks(w: Worker)
    requires Inv(w)
    ensures w.pool.blockSize < U32
  {
  }

  lemma OneChannel(w: Worker, c: nat)
    requires c < |w.chans| && forall d :: 0 <= d < |w.chans| && d != c ==> NoEmptyBlock(w.pool, w.chans[d])
    ensures NoEmptyBlocks(w) <==> NoEmptyBlock(w.pool, w.chans[c])
  {
    hide NoEmptyBlock;
  }

  /** Nobody appends nothing to an empty list. */
  ghost predicate NeverQueuesNothing(w: Worker, es: seq<Event>)
    requires Inv(w) && AllSane(es, w.pool.blockSize)
    decreases |es|
  {
    es == [] ||
    (NextInv(w, es[0]);
     !NextQueuesNothing(w, es[0]) && NeverQueuesNothing(Next(w, es[0]), es[1..]))
  }

  lemma BystanderUsed(p: Pool, p': Pool, ch: Channel, acting: multiset<nat>, others: multiset<nat>)
    requires NoEmptyBlock(p, ch) && |p'.data| == |p.data| && Holds(p, acting + others) && Mine(ch) <= others
    requires forall i :: 0 <= i < |p.data| && i !in p.free && i !in acting ==> p'.data[i] == p.data[i]
    ensures NoEmptyBlock(p', ch)
  {
    forall i | i in ch.send || i in ch.pending ensures i < |p.data| && p'.data[i] == p.data[i] {
      assert i in multiset(ch.send) || i in multiset(ch.pending);
      assert i in Mine(ch);
      NotElsewhere(p, acting, others, i);
    }
    UsedFrame(p.data, p'.data, ch.send);
    UsedFrame(p.data, p'.data, ch.pending);
  }

  lemma {:induction false} RunUsed(w: Worker, es: seq<Event>)
    requires Inv(w) && AllSane(es, w.pool.blockSize) && NoEmptyBlocks(w) && NeverQueuesNothing(w, es)
    ensures NoEmptyBlocks(Exec(w, es))
    decreases |es|
  {
    hide Inv, Next, NoEmptyBlocks, Sane, NextQueuesNothing;
    if es != [] {
      NextUsed(w, es[0]);
      NextInv(w, es[0]);
      RunUsed(Next(w, es[0]), es[1..]);
    }
  }

  /**
    In every run in which nobody appends nothing to an empty list, once the kernel has acknowledged every byte submitted
    on a channel its send ring is empty: all its submitted blocks are back in the pool.
   */
  lemma AcknowledgedMeansDrained(n: nat, size: nat, cap: nat, k: nat, es: seq<Event>, c: nat)
    requires 0 < size < U32 && AllSane(es, size)
    ensures Inv(Start(n, size, cap, k))
    ensures var w := Exec(Start(n, size, cap, k), es);
            NeverQueuesNothing(Start(n, size, cap, k), es) && c < |w.chans| ==>
              (w.chans[c].acked == w.chans[c].carried + w.chans[c].submitted ==> w.chans[c].send == [])
  {
    StartInv(n, size, cap, k);
    var w0 := Start(n, size, cap, k);
    assert NoEmptyBlocks(w0);
    if NeverQueuesNothing(w0, es) {
      RunUsed(w0, es);
      Drained(Exec(w0, es), c);
    }
  }

  lemma Drained(w: Worker, c: nat)
    requires Inv(w) && NoEmptyBlocks(w)
    ensures c < |w.chans| && w.chans[c].acked == w.chans[c].carried + w.chans[c].submitted ==> w.chans[c].send == []
  {
    if c < |w.chans| && w.chans[c].acked == w.chans[c].carried + w.chans[c].submitted {
      InvChan(w, c);
      var ch := w.chans[c];
      assert NoEmptyBlock(w.pool, ch);
      assert |ch.acked + Unsent(w.pool.data, ch.send, ch.offset)| == |ch.acked|;
    }
  }

  // ---------- A `writev` of nothing ----------

  /** The loop hands the kernel exactly the unsent bytes, so a `writev` covers nothing iff there is nothing unsent. */
  lemma WriteCoversNothingIff(w: Worker, e: Event, c: nat)
    requires Inv(w) && Sane(e, w.pool.blockSize) && c < |w.chans| && !w.chans[c].at.Writing?
    ensures |Next(w, e).chans| == |w.chans|
    ensures var w' := Next(w, e);
            var ch := w'.chans[c];
            ch.at.Writing? ==>
              Sound(w'.pool, ch) && (VecLen(ch.at.vec) == 0 <==> Unsent(w'.pool.data, ch.send, ch.offset) == [])
  {
    if e.c == c {
      hide Step, Inv, ChanOk, Holds, Sound, Apart, Unsent, VecLen, Iovecs;
      InvChan(w, c);
      Share(w, c);
      StartedWhole(w.pool, w.cap, w.chans[c], e);
      var r := Step(w.pool, w.cap, w.chans[c], e);
      if r.1.at.Writing? {
        WholeCovers(r.0, r.1);
      }
    }
  }

  lemma WholeCovers(p: Pool, ch: Channel)
    requires Sound(p, ch) && ch.at == Writing(Iovecs(p.data, ch.send, ch.offset))
    ensures VecLen(ch.at.vec) == 0 <==> Unsent(p.data, ch.send, ch.offset) == []
  {
    PeekIsUnsent(p.data, ch.send, ch.offset);
    ReadVecLen(p.data, ch.at.vec);
  }

  ghost predicate Whole(r: Part) {
    r.1.at.Writing? ==> Sound(r.0, r.1) && r.1.at.vec == Iovecs(r.0.data, r.1.send, r.1.offset)
  }

  lemma LoopWhole(p: Pool, ch: Channel, busy: bool)
    requires Sound(p, ch)
    ensures Whole(Proceed(p, ch, busy)) && Whole(LoopTop(p, ch, busy))
    ensures !ch.at.Writing? ==> Whole(Notify(p, ch, busy))
  {
    hide ReleaseAll, Iovecs;
  }

  lemma SubmitWhole(p: Pool, cap: nat, ch: Channel, busy: bool)
    requires Sound(p, ch) && !ch.at.Writing?
    ensures Whole(SubmitStep(p, cap, ch, busy))
  {
    hide Whole, Notify;
    if SubmitFits(ch, cap) {
      SubmitSound(p, ch);
      LoopWhole(p, Submitted(ch), busy);
    } else {
      NotWriting((p, ch));
    }
  }

  lemma NotWriting(r: Part)
    requires !r.1.at.Writing?
    ensures Whole(r)
  {
  }

  lemma StartedWhole(p: Pool, cap: nat, ch: Channel, e: Event)
    requires Sound(p, ch) && Holds(p, multiset(ch.pending) + multiset(ch.send)) && |ch.pending| <= cap && Apart(ch.send)
    requires !ch.at.Writing?
    ensures Whole(Step(p, cap, ch, e))
  {
    hide Whole, AppendSpec, PrependSpec, Holds, Apart, LoopTop, Notify, SubmitStep;
    HoldsPart(p, multiset(ch.pending), multiset(ch.pending) + multiset(ch.send));
    match e
    case Submit(_, busy) => SubmitWhole(p, cap, ch, busy);
    case Continue(_, busy) =>
      LoopWhole(p, ch, busy);
      NotWriting((p, ch));
    case Close(_, busy) => LoopWhole(p, ch.(closed := true), busy);
    case Drained(_, busy) =>
      LoopWhole(p, ch, busy);
      NotWriting((p, ch));
    case Assign(_, busy) =>
      var next := ch.(flag := false, closed := false, carried := ch.carried + ch.submitted, submitted := []);
      LoopWhole(p, next, busy);
      NotWriting((p, ch));
    case _ => NotWriting(Step(p, cap, ch, e));
  }

  /** In a run without such an append every outstanding `writev` covers at least one byte. */
  lemma WritesCoverBytes(n: nat, size: nat, cap: nat, k: nat, es: seq<Event>, c: nat)
    requires 0 < size < U32 && AllSane(es, size)
    ensures Inv(Start(n, size, cap, k))
    ensures var w := Exec(Start(n, size, cap, k), es);
            NeverQueuesNothing(Start(n, size, cap, k), es) && c < |w.chans| && w.chans[c].at.Writing? ==>
              VecLen(w.chans[c].at.vec) > 0
  {
    StartInv(n, size, cap, k);
    var w0 := Start(n, size, cap, k);
    assert NoEmptyBlocks(w0);
    var w := Exec(w0, es);
    if NeverQueuesNothing(w0, es) && c < |w.chans| && w.chans[c].at.Writing? {
      RunUsed(w0, es);
      InvChan(w, c);
      assert NoEmptyBlock(w.pool, w.chans[c]);
      CoversSome(w.pool, w.cap, w.chans[c]);
    }
  }

  lemma CoversSome(p: Pool, cap: nat, ch: Channel)
    requires ChanOk(p, cap, ch) && NoEmptyBlock(p, ch) && ch.at.Writing?
    ensures VecLen(ch.at.vec) > 0
  {
    var v := Iovecs(p.data, ch.send, ch.offset);
    assert ch.at.vec[0] == v[0] && v[0].len > 0;
  }

  /** A `writev` over empty blocks only can do nothing but end the connection. */
  lemma EmptyWriteEndsConnection(w: Worker, c: nat, res: int)
    requires Inv(w) && c < |w.chans| && w.chans[c].at.Writing?
    requires VecLen(w.chans[c].at.vec) == 0
    ensures var ch := Next(w, Complete(c, res)).chans[c];
            if res <= 0 then ch.at.Ended? else ch == w.chans[c]
  {
    InvChan(w, c);
    InFlightBytes(w.pool, w.cap, w.chans[c]);
    Share(w, c);
  }
}
