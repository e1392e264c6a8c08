/**
  The receiving side of a worker: any number of TCP read queues over one ring of blocks lent
  to the kernel.  `received` and `consumed` record each connection's bytes.
 */
module Receiver {
  import opened Blocks
  import opened WriteSpec
  import opened ReadSpec

  datatype Reader = Reader(queue: seq<nat>, offset: nat, received: seq<byte>, consumed: seq<byte>)

  datatype Receiver = Receiver(ring: Pool, readers: seq<Reader>)

  datatype Event =
    | Deliver(c: nat, k: nat, bytes: seq<byte>)  // the kernel filled the k-th block it was lent for channel c
    | Drop(c: nat, n: nat)                       // consume(n)
    | Reset(c: nat)                              // the read loop ended

  ghost function Unread(ring: Pool, r: Reader): Sending {
    Sending(ring, r.queue, r.offset)
  }

  ghost predicate ReaderOk(ring: Pool, r: Reader) {
    && SendOk(Unread(ring, r)) && Filled(ring.data, r.queue)
    && r.consumed + UnsentOf(Unread(ring, r)) == r.received
  }

  ghost function Queues(readers: seq<Reader>): (hs: seq<multiset<nat>>)
    ensures |hs| == |readers| && forall c :: 0 <= c < |readers| ==> hs[c] == multiset(readers[c].queue)
  {
    seq(|readers|, c requires 0 <= c < |readers| => multiset(readers[c].queue))
  }

  /** Each block is lent to the kernel or in exactly one read queue. */
  ghost predicate Inv(s: Receiver) {
    && PoolOk(s.ring)
    && multiset(s.ring.free) + Total(Queues(s.readers)) == All(|s.ring.data|)
    && forall c :: 0 <= c < |s.readers| ==> ReaderOk(s.ring, s.readers[c])
  }

  ghost function Others(s: Receiver, c: nat): multiset<nat>
    requires c < |s.readers|
  {
    Total(Queues(s.readers)) - multiset(s.readers[c].queue)
  }

  type Part = (Pool, Reader)

  ghost function DeliverStep(ring: Pool, r: Reader, k: nat, bytes: seq<byte>): Part
    requires forall i :: i in ring.free ==> i < |ring.data|
  {
    if k >= |ring.free| || bytes == [] || |bytes| > ring.blockSize then (ring, r)
    else
      var idx := ring.free[k];
      assert idx in ring.free;
      var ring' := ring.(free := Without(ring.free, k), data := ring.data[idx := bytes]);
      if |r.queue| >= |ring.data| then (ring', r)  // push_buf refuses and the block is lost
      else (ring', r.(queue := r.queue + [idx], received := r.received + bytes))
  }

  ghost function DropStep(ring: Pool, r: Reader, n: nat): Part
    requires SendOk(Unread(ring, r))
  {
    var u := UnsentOf(Unread(ring, r));
    if n > |u| then (ring, r)
    else
      var s := Consume(Unread(ring, r), n);
      (s.pool, r.(queue := s.send, offset := s.offset, consumed := r.consumed + u[..n]))
  }

  ghost function ResetStep(ring: Pool, r: Reader): Part
    requires InRange(ring.data, r.queue)
  {
    (ReleaseAll(ring, r.queue), Reader([], 0, [], []))
  }

  ghost function Step(ring: Pool, r: Reader, e: Event): Part
    requires PoolOk(ring) && SendOk(Unread(ring, r))
  {
    match e
    case Deliver(_, k, bytes) => DeliverStep(ring, r, k, bytes)
    case Drop(_, n) => DropStep(ring, r, n)
    case Reset(_) => ResetStep(ring, r)
  }

  ghost function Next(s: Receiver, e: Event): Receiver
    requires Inv(s)
  {
    if e.c >= |s.readers| then s
    else
      assert ReaderOk(s.ring, s.readers[e.c]);
      var r := Step(s.ring, s.readers[e.c], e);
      s.(ring := r.0, readers := s.readers[e.c := r.1])
  }

  /** What every step on a read queue guarantees to that queue and to everybody else. */
  ghost predicate Kept(ring: Pool, r: Reader, part: Part) {
    && |part.0.data| == |ring.data| && part.0.blockSize == ring.blockSize && PoolOk(part.0)
    && multiset(part.0.free) + multiset(part.1.queue) == multiset(ring.free) + multiset(r.queue)
    && (forall i :: 0 <= i < |ring.data| && i !in ring.free && i !in r.queue ==> part.0.data[i] == ring.data[i])
    && ReaderOk(part.0, part.1)
  }

  lemma DeliverKept(ring: Pool, r: Reader, k: nat, bytes: seq<byte>)
    requires Holds(ring, multiset(r.queue)) && ReaderOk(ring, r)
    ensures Kept(ring, r, DeliverStep(ring, r, k, bytes))
    ensures |r.queue| <= |ring.data| && (k < |ring.free| ==> |r.queue| < |ring.data|)
  {
    QueueBound(ring, r.queue, k);
    if k < |ring.free| && bytes != [] && |bytes| <= ring.blockSize {
      var idx := ring.free[k];
      LentBlock(ring, r.queue, k, bytes);
      DeliverBytes(ring, r.queue, r.offset, idx, bytes);
      hide Holds, PoolOk, Unsent, Once;
      Assoc(r.consumed, UnsentOf(Unread(ring, r)), bytes);
      OneMoreFilled(ring.data, r.queue, idx, bytes);
    }
  }

  lemma LentBlock(ring: Pool, queue: seq<nat>, k: nat, bytes: seq<byte>)
    requires Holds(ring, multiset(queue)) && k < |ring.free| && |bytes| <= ring.blockSize
    ensures var idx, rest := ring.free[k], Without(ring.free, k);
            && idx in ring.free && idx < |ring.data| && idx !in queue && idx !in rest
            && multiset(rest) + multiset(queue + [idx]) == multiset(ring.free) + multiset(queue)
            && PoolOk(ring.(free := rest, data := ring.data[idx := bytes]))
  {
    var idx, rest := ring.free[k], Without(ring.free, k);
    assert idx in ring.free;
    HoldsIndices(ring, queue);
    hide Without, Apart;
    WithoutCount(ring.free, k);
    assert multiset(rest) + multiset(queue + [idx]) == multiset(ring.free) + multiset(queue);
    OncePart(multiset(rest), multiset(ring.free), |ring.data|);
  }

  lemma OneMoreFilled(data: seq<seq<byte>>, queue: seq<nat>, idx: nat, bytes: seq<byte>)
    requires InRange(data, queue) && Apart(queue) && Filled(data, queue) && idx < |data| && idx !in queue && bytes != []
    ensures var data', q := data[idx := bytes], queue + [idx];
            InRange(data', q) && Apart(q) && Filled(data', q)
  {
    var data', q := data[idx := bytes], queue + [idx];
    forall i | 0 <= i < |q| ensures q[i] < |data| && data'[q[i]] != [] {
      assert i < |queue| ==> q[i] == queue[i] && q[i] in queue;
    }
    assert Apart(q) by {
      assert forall i :: 0 <= i < |queue| ==> q[i] == queue[i] && q[i] in queue;
    }
  }

  /** A queue that does not hold a lent block has a place for it. */
  lemma QueueBound(ring: Pool, queue: seq<nat>, k: nat)
    requires Holds(ring, multiset(queue))
    ensures |queue| <= |ring.data| && (k < |ring.free| ==> |queue| < |ring.data|)
  {
    OnceAtMost(multiset(ring.free) + multiset(queue), |ring.data|);
    assert |multiset(ring.free) + multiset(queue)| == |ring.free| + |queue|;
  }

  lemma DropKept(ring: Pool, r: Reader, n: nat)
    requires Holds(ring, multiset(r.queue)) && ReaderOk(ring, r)
    ensures Kept(ring, r, DropStep(ring, r, n))
  {
    if n <= |UnsentOf(Unread(ring, r))| {
      DropBytes(ring, r, n);
      DropBlocks(ring, r, n);
    }
  }

  lemma DropBytes(ring: Pool, r: Reader, n: nat)
    requires ReaderOk(ring, r) && n <= |UnsentOf(Unread(ring, r))|
    ensures var part := DropStep(ring, r, n);
            ReaderOk(part.0, part.1)
  {
    var s := Unread(ring, r);
    var u := UnsentOf(s);
    ConsumeBytes(s, n);
    ConsumeFilled(s, n);
    hide Consume, Unsent, Filled;
    assert u[..n] + u[n..] == u;
    Assoc(r.consumed, u[..n], u[n..]);
  }

  lemma DropBlocks(ring: Pool, r: Reader, n: nat)
    requires Holds(ring, multiset(r.queue)) && SendOk(Unread(ring, r)) && n <= |UnsentOf(Unread(ring, r))|
    ensures var part := DropStep(ring, r, n);
            && |part.0.data| == |ring.data| && part.0.blockSize == ring.blockSize && PoolOk(part.0)
            && multiset(part.0.free) + multiset(part.1.queue) == multiset(ring.free) + multiset(r.queue)
            && (forall i :: 0 <= i < |ring.data| && i !in r.queue ==> part.0.data[i] == ring.data[i])
  {
    var k := ConsumeReleases(Unread(ring, r), n);
    var gone, left := r.queue[..k], r.queue[k..];
    assert r.queue == gone + left;
    hide Consume, Unsent, Holds, PoolOk, Once;
    ReleasedPart(ring, gone, left);
  }

  lemma ReleasedPart(ring: Pool, gone: seq<nat>, left: seq<nat>)
    requires Holds(ring, multiset(gone + left)) && InRange(ring.data, gone)
    ensures var r := ReleaseAll(ring, gone);
            && PoolOk(r) && multiset(r.free) + multiset(left) == multiset(ring.free) + multiset(gone + left)
            && (forall i :: 0 <= i < |ring.data| && i !in gone ==> r.data[i] == ring.data[i])
  {
    assert multiset(gone + left) == multiset(gone) + multiset(left);
    ReleaseAllHolds(ring, gone, multiset(left));
    ReleaseAllEffect(ring, gone);
    assert multiset(ring.free + gone) + multiset(left) == multiset(ring.free) + (multiset(gone) + multiset(left));
  }

  lemma ResetKept(ring: Pool, r: Reader)
    requires Holds(ring, multiset(r.queue)) && ReaderOk(ring, r)
    ensures Kept(ring, r, ResetStep(ring, r))
  {
    assert r.queue + [] == r.queue;
    ReleasedPart(ring, r.queue, []);
  }

  /** Every event keeps the receiver's invariant. */
  lemma NextInv(s: Receiver, e: Event)
    requires Inv(s)
    ensures Inv(Next(s, e)) && |Next(s, e).readers| == |s.readers|
  {
    if e.c < |s.readers| {
      var c, r := e.c, s.readers[e.c];
      assert ReaderOk(s.ring, r);
      OneShare(s.ring, Queues(s.readers), c);
      match e {
        case Deliver(_, k, bytes) => DeliverKept(s.ring, r, k, bytes);
        case Drop(_, n) => DropKept(s.ring, r, n);
        case Reset(_) => ResetKept(s.ring, r);
      }
      var part := Step(s.ring, r, e);
      WorldKept(s, c, part);
    }
  }

  lemma WorldKept(s: Receiver, c: nat, part: Part)
    requires Inv(s) && c < |s.readers| && Kept(s.ring, s.readers[c], part)
    ensures Inv(s.(ring := part.0, readers := s.readers[c := part.1]))
  {
    var s' := s.(ring := part.0, readers := s.readers[c := part.1]);
    var r := s.readers[c];
    OneShare(s.ring, Queues(s.readers), c);
    TotalUpdate(Queues(s.readers), c, multiset(part.1.queue));
    assert Queues(s'.readers) == Queues(s.readers)[c := multiset(part.1.queue)];
    Exchange(multiset(part.0.free), multiset(part.1.queue), multiset(s.ring.free), multiset(r.queue),
             Total(Queues(s'.readers)), Total(Queues(s.readers)));
    hide Total;
    forall d | 0 <= d < |s.readers| ensures ReaderOk(part.0, s'.readers[d]) {
      if d != c {
        assert ReaderOk(s.ring, s.readers[d]);
        forall i | i in s.readers[d].queue ensures i < |s.ring.data| && part.0.data[i] == s.ring.data[i] {
          assert i in multiset(s.readers[d].queue);
          NotElsewhere(s.ring, multiset(r.queue), Others(s, c), i);
        }
        BystanderKept(s.ring, part.0, s.readers[d]);
      }
    }
  }

  lemma BystanderKept(ring: Pool, ring': Pool, r: Reader)
    requires ReaderOk(ring, r) && |ring'.data| == |ring.data|
    requires forall i :: i in r.queue ==> i < |ring.data| && ring'.data[i] == ring.data[i]
    ensures ReaderOk(ring', r)
  {
    GatherFrame(ring.data, ring'.data, r.queue);
    UnsentIsSuffix(ring.data, r.queue, r.offset);
    UnsentIsSuffix(ring'.data, r.queue, r.offset);
    forall k | 0 <= k < |r.queue| ensures ring'.data[r.queue[k]] != [] {
      assert r.queue[k] in r.queue;
    }
  }

  ghost function Exec(s: Receiver, es: seq<Event>): (r: Receiver)
    requires Inv(s)
    ensures Inv(r)
    decreases |es|
  {
    if es == [] then s
    else
      NextInv(s, es[0]);
      Exec(Next(s, es[0]), es[1..])
  }

  ghost function Start(n: nat, size: nat, k: nat): Receiver {
    Receiver(FullPool(n, size), seq(k, i => Reader([], 0, [], [])))
  }

  /**
    In every run of the receiving side: each block is lent to the kernel or in exactly one read queue; on every channel
    the bytes consumed followed by the unread bytes are the bytes received, in order; and whenever the kernel still has
    a block to fill, every queue has room for it, so no delivery is ever refused.
   */
  lemma EveryRun(n: nat, size: nat, k: nat, es: seq<Event>)
    requires size > 0
    ensures Inv(Start(n, size, k))
    ensures var s := Exec(Start(n, size, k), es);
            && (forall i: nat ::
                  (multiset(s.ring.free) + Total(Queues(s.readers)))[i] == if i < |s.ring.data| then 1 else 0)
            && (forall c :: 0 <= c < |s.readers| ==>
                  && SendOk(Unread(s.ring, s.readers[c]))
                  && s.readers[c].consumed + UnsentOf(Unread(s.ring, s.readers[c])) == s.readers[c].received
                  && (s.ring.free != [] ==> |s.readers[c].queue| < |s.ring.data|))
  {
    var s0 := Start(n, size, k);
    AllOnce(n);
    assert forall c :: 0 <= c < |s0.readers| ==> Queues(s0.readers)[c] == multiset{};
    TotalNone(Queues(s0.readers));
    assert multiset(s0.ring.free) + multiset{} == All(n);
    assert forall c :: 0 <= c < k ==> ReaderOk(s0.ring, s0.readers[c]);
    var s := Exec(s0, es);
    hide Exec;
    AllCounts(|s.ring.data|);
    forall i: nat ensures (multiset(s.ring.free) + Total(Queues(s.readers)))[i] == if i < |s.ring.data| then 1 else 0 {
      assert All(|s.ring.data|)[i] == if i < |s.ring.data| then 1 else 0;
    }
    forall c | 0 <= c < |s.readers|
      ensures ReaderOk(s.ring, s.readers[c]) && (s.ring.free != [] ==> |s.readers[c].queue| < |s.ring.data|)
    {
      OneShare(s.ring, Queues(s.readers), c);
      QueueBound(s.ring, s.readers[c].queue, 0);
    }
  }

  // ---------- What arrived and what was consumed, by the events alone ----------

  /** Bytes received since the last reset, and how many of them were consumed. */
  datatype Tally = Tally(received: seq<byte>, consumed: nat)

  ghost function TallyOf(r: Reader): Tally {
    Tally(r.received, |r.consumed|)
  }

  /** The kernel has the block it fills, and its result is a positive number of bytes that fit the block. */
  ghost predicate Arrives(s: Receiver, e: Event) {
    e.Deliver? && e.k < |s.ring.free| && 0 < |e.bytes| <= s.ring.blockSize
  }

  ghost function Tallied(s: Receiver, e: Event, t: Tally): Tally {
    match e
    case Deliver(_, _, bytes) => if Arrives(s, e) then t.(received := t.received + bytes) else t
    case Drop(_, n) => if n <= |t.received| - t.consumed then t.(consumed := t.consumed + n) else t
    case Reset(_) => Tally([], 0)
  }

  lemma DeliverTallies(s: Receiver, e: Event)
    requires Inv(s) && e.c < |s.readers| && e.Deliver?
    ensures TallyOf(Next(s, e).readers[e.c]) == Tallied(s, e, TallyOf(s.readers[e.c]))
  {
    OneShare(s.ring, Queues(s.readers), e.c);
    QueueBound(s.ring, s.readers[e.c].queue, e.k);
    hide Total, Holds, Without;
  }

  lemma DropTallies(s: Receiver, e: Event)
    requires Inv(s) && e.c < |s.readers| && e.Drop?
    ensures TallyOf(Next(s, e).readers[e.c]) == Tallied(s, e, TallyOf(s.readers[e.c]))
  {
    assert ReaderOk(s.ring, s.readers[e.c]);
    hide Inv, Consume, Unsent;
  }

  /** A delivery adds its bytes, a consume counts them, a reset forgets both; no event touches another channel's. */
  lemma StepTallies(s: Receiver, e: Event, c: nat)
    requires Inv(s) && c < |s.readers|
    ensures |Next(s, e).readers| == |s.readers|
    ensures var t := TallyOf(s.readers[c]);
            TallyOf(Next(s, e).readers[c]) == if e.c == c then Tallied(s, e, t) else t
  {
    NextInv(s, e);
    if e.c == c {
      match e {
        case Deliver(_, _, _) => DeliverTallies(s, e);
        case Drop(_, _) => DropTallies(s, e);
        case Reset(_) =>
      }
    } else {
      hide Inv, Step;
    }
  }

  ghost function TalliedAll(s: Receiver, es: seq<Event>, c: nat, t: Tally): Tally
    requires Inv(s) && c < |s.readers|
    decreases |es|
  {
    if es == [] then t
    else
      NextInv(s, es[0]);
      TalliedAll(Next(s, es[0]), es[1..], c, if es[0].c == c then Tallied(s, es[0], t) else t)
  }

  lemma {:induction false} RunTallies(s: Receiver, es: seq<Event>, c: nat)
    requires Inv(s) && c < |s.readers|
    ensures c < |Exec(s, es).readers|
    ensures TallyOf(Exec(s, es).readers[c]) == TalliedAll(s, es, c, TallyOf(s.readers[c]))
    decreases |es|
  {
    hide Inv, Next, TallyOf, Tallied;
    if es != [] {
      NextInv(s, es[0]);
      StepTallies(s, es[0], c);
      RunTallies(Next(s, es[0]), es[1..], c);
    }
  }

  /**
    In every run, on every channel: the bytes received are those of the deliveries since the last reset, in order, and
    the bytes consumed are as many of the first of them as the calls of `consume` asked for.
   */
  lemma ReaderTallies(s: Receiver, es: seq<Event>, c: nat)
    requires Inv(s) && c < |s.readers|
    ensures c < |Exec(s, es).readers|
    ensures var r, t := Exec(s, es).readers[c], TalliedAll(s, es, c, TallyOf(s.readers[c]));
            r.received == t.received && t.consumed <= |t.received| && r.consumed == t.received[..t.consumed]
  {
    RunTallies(s, es, c);
    var s' := Exec(s, es);
    assert ReaderOk(s'.ring, s'.readers[c]);
  }
}
