/**
  One UDP worker: a channel that builds datagrams from pool blocks, message slots that carry
  them to the kernel, and a write loop, under every interleaving of application calls and
  `sendmsg` completions.  `draft`, `submitted`, `done` and the datagram attached to each
  flight record what the application asked for; the slots and blocks are compared with them.
 */
module UdpWorker {
  import opened Bits
  import opened Blocks
  import opened WriteSpec

  datatype Datagram = Datagram(name: seq<byte>, bytes: seq<byte>)

  /** A message header: the destination and the visible part of its iovec array. */
  datatype Slot = Slot(name: seq<byte>, vec: seq<Iovec>)

  /** A slot handed over, with the datagram it was filled for. */
  datatype Flight = Flight(slot: nat, what: Datagram)

  datatype Udp = Udp(
    pool: Pool, cap: nat, maxIov: nat,
    free: seq<nat>, slots: seq<Slot>,   // MsghdrPool
    pending: seq<nat>,
    queue: seq<Flight>,                 // the slot queue between channel and write loop
    parked: bool, flag: bool,           // NotifyToken: handle_ set, pending_
    flying: seq<Flight>,                // sendmsg requests not yet completed
    draft: seq<byte>, submitted: seq<Datagram>, done: seq<Datagram>)

  datatype Event =
    | Append(bytes: seq<byte>)
    | Prepend(bytes: seq<byte>)
    | Submit(name: seq<byte>, twice: bool)  // twice: through the overload that notifies again
    | Complete(k: nat)                      // the k-th outstanding sendmsg completed, in any order

  const NAME_SIZE: nat := 128

  /** A slot as the pool keeps it: zeroed, with the name's length reset. */
  function NoMessage(): Slot {
    Slot(seq(NAME_SIZE, i => 0 as byte), [])
  }

  ghost function BlocksOf(v: seq<Iovec>): (r: seq<nat>)
    ensures |r| == |v| && forall i :: 0 <= i < |v| ==> r[i] == v[i].block
  {
    seq(|v|, i requires 0 <= i < |v| => v[i].block)
  }

  ghost function SlotsOf(fs: seq<Flight>): (r: seq<nat>)
    ensures |r| == |fs| && forall i :: 0 <= i < |fs| ==> r[i] == fs[i].slot
  {
    seq(|fs|, i requires 0 <= i < |fs| => fs[i].slot)
  }

  ghost function WhatOf(fs: seq<Flight>): (r: seq<Datagram>)
    ensures |r| == |fs| && forall i :: 0 <= i < |fs| ==> r[i] == fs[i].what
  {
    seq(|fs|, i requires 0 <= i < |fs| => fs[i].what)
  }

  // ---------- The write loop ----------

  /** One pass: a `sendmsg` for every queued slot, then `clear_slot_queue`. */
  function SendQueued(u: Udp): Udp {
    u.(flying := u.flying + u.queue, queue := [])
  }

  /** Around the loop until it suspends. */
  function LoopTop(u: Udp): Udp {
    if u.flag then SendQueued(u.(flag := false)).(parked := true) else u.(parked := true)
  }

  function Notify(u: Udp): Udp {
    if u.parked then LoopTop(SendQueued(u.(parked := false))) else u.(flag := true)
  }

  // ---------- Events ----------

  ghost predicate Sound(u: Udp) {
    && Holds(u.pool, multiset(u.pending)) && |u.pending| <= u.cap
    && (forall i :: i in u.free ==> i < |u.slots|)
    && (forall f :: f in u.flying ==> f.slot < |u.slots| && Readable(u.pool.data, u.slots[f.slot].vec))
  }

  ghost function AppendStep(u: Udp, bytes: seq<byte>): Udp
    requires Sound(u)
  {
    var o := AppendSpec(u.pool, u.pending, u.cap, bytes);
    u.(pool := o.pool, pending := o.pending, draft := if o.ok then u.draft + bytes else u.draft)
  }

  ghost function PrependStep(u: Udp, bytes: seq<byte>): Udp
    requires Sound(u)
  {
    var o := PrependSpec(u.pool, u.pending, u.cap, bytes);
    u.(pool := o.pool, pending := o.pending, draft := if o.ok then bytes + u.draft else u.draft)
  }

  /** `discard_pending` */
  ghost function Discard(u: Udp): Udp
    requires Sound(u)
  {
    HoldsIndices(u.pool, u.pending);
    u.(pool := ReleaseAll(u.pool, u.pending), pending := [], draft := [])
  }

  /** What `WriteBufDgram::submit` checks. */
  ghost predicate Committable(u: Udp) {
    0 < |u.pending| <= u.maxIov && |u.queue| < u.cap
  }

  ghost function Rejected(u: Udp): Udp
    requires Sound(u) && u.free != []
  {
    var i := u.free[0];
    assert i in u.free;
    Discard(u).(free := u.free[1..] + [i], slots := u.slots[i := NoMessage()])
  }

  /** The pending blocks become the iovecs of the first free slot. */
  ghost function Committed(u: Udp, name: seq<byte>): Udp
    requires Sound(u) && u.free != []
  {
    var i := u.free[0];
    assert i in u.free;
    HoldsIndices(u.pool, u.pending);
    var d := Datagram(name, u.draft);
    u.(free := u.free[1..], slots := u.slots[i := Slot(name, Iovecs(u.pool.data, u.pending, 0))],
       pending := [], draft := [], queue := u.queue + [Flight(i, d)], submitted := u.submitted + [d])
  }

  ghost function SubmitStep(u: Udp, name: seq<byte>, twice: bool): Udp
    requires Sound(u)
  {
    if u.free == [] then Discard(u)
    else if !Committable(u) then Rejected(u)
    else if twice then Notify(Notify(Committed(u, name)))
    else Notify(Committed(u, name))
  }

  /** `MsgToken::complete`: blocks recovered from the iovecs go back, then the zeroed slot. */
  ghost function CompleteStep(u: Udp, k: nat): Udp
    requires Sound(u)
  {
    if k >= |u.flying| then u
    else
      var i := u.flying[k].slot;
      assert u.flying[k] in u.flying;
      var v := u.slots[i].vec;
      u.(pool := ReleaseAll(u.pool, BlocksOf(v)), free := u.free + [i], slots := u.slots[i := NoMessage()],
         flying := u.flying[..k] + u.flying[k + 1..],
         done := u.done + [Datagram(u.slots[i].name, ReadVec(u.pool.data, v))])
  }

  ghost function Step(u: Udp, e: Event): Udp
    requires Sound(u)
  {
    match e
    case Append(bytes) => AppendStep(u, bytes)
    case Prepend(bytes) => PrependStep(u, bytes)
    case Submit(name, twice) => SubmitStep(u, name, twice)
    case Complete(k) => CompleteStep(u, k)
  }

  // ---------- The invariant ----------

  /** The kernel, reading through the slot, gets the datagram the slot was filled for. */
  ghost predicate Carries(data: seq<seq<byte>>, slots: seq<Slot>, f: Flight) {
    && f.slot < |slots| && slots[f.slot].vec != [] && Readable(data, slots[f.slot].vec)
    && slots[f.slot].name == f.what.name && ReadVec(data, slots[f.slot].vec) == f.what.bytes
  }

  /** Blocks held: first by the pending list, then slot by slot. */
  ghost function Holdings(pending: seq<nat>, slots: seq<Slot>): (hs: seq<multiset<nat>>)
    ensures |hs| == 1 + |slots| && hs[0] == multiset(pending)
    ensures forall i :: 0 <= i < |slots| ==> hs[1 + i] == multiset(BlocksOf(slots[i].vec))
  {
    [multiset(pending)] + seq(|slots|, i requires 0 <= i < |slots| => multiset(BlocksOf(slots[i].vec)))
  }

  ghost predicate BlocksOwned(u: Udp) {
    PoolOk(u.pool) && multiset(u.pool.free) + Total(Holdings(u.pending, u.slots)) == All(|u.pool.data|)
  }

  /** Every slot is free and zeroed or carries one outstanding datagram. */
  ghost predicate SlotsOwned(u: Udp) {
    && multiset(u.free) + multiset(SlotsOf(u.flying)) == All(|u.slots|)
    && (forall i :: i in u.free ==> i < |u.slots| && u.slots[i] == NoMessage())
    && (forall f :: f in u.flying ==> Carries(u.pool.data, u.slots, f))
  }

  ghost predicate Inv(u: Udp) {
    && u.pool.blockSize < U32 && 0 < u.cap && |u.pending| <= u.cap
    && BlocksOwned(u) && SlotsOwned(u)
    && InRange(u.pool.data, u.pending) && Gather(u.pool.data, u.pending) == u.draft
    && u.queue == [] && u.parked && !u.flag
    && multiset(u.submitted) == multiset(u.done) + multiset(WhatOf(u.flying))
  }

  ghost predicate Sane(e: Event, size: nat) {
    && (e.Append? ==> |e.bytes| < U32) && (e.Prepend? ==> |e.bytes| + size <= U32)
    && (e.Submit? ==> |e.name| <= NAME_SIZE)
  }

  lemma InvSound(u: Udp)
    requires Inv(u)
    ensures Sound(u)
  {
    OneShare(u.pool, Holdings(u.pending, u.slots), 0);
  }

  // ---------- One holder's exchange with the pool ----------

  /** Holder `c` exchanged blocks with the free queue and wrote only to blocks that were its own or free. */
  ghost predicate Exchanged(p: Pool, mine: multiset<nat>, p': Pool, mine': multiset<nat>) {
    && |p'.data| == |p.data| && p'.blockSize == p.blockSize && PoolOk(p')
    && multiset(p'.free) + mine' == multiset(p.free) + mine
    && (forall i :: 0 <= i < |p.data| && i !in p.free && i !in mine ==> p'.data[i] == p.data[i])
  }

  /** Every block of an iovec array holds what it held. */
  ghost predicate SameBytes(data: seq<seq<byte>>, data': seq<seq<byte>>, v: seq<Iovec>) {
    |data'| == |data| && forall i :: i in BlocksOf(v) ==> i < |data| && data'[i] == data[i]
  }

  lemma StillOwned(u: Udp, c: nat, p': Pool, mine': multiset<nat>)
    requires BlocksOwned(u) && c <= |u.slots|
    requires Exchanged(u.pool, Holdings(u.pending, u.slots)[c], p', mine')
    ensures multiset(p'.free) + Total(Holdings(u.pending, u.slots)[c := mine']) == All(|p'.data|)
  {
    var hs := Holdings(u.pending, u.slots);
    hide PoolOk, Total, Holdings;
    TotalUpdate(hs, c, mine');
    Exchange(multiset(p'.free), mine', multiset(u.pool.free), hs[c], Total(hs[c := mine']), Total(hs));
  }

  lemma OtherFlight(u: Udp, c: nat, p': Pool, mine': multiset<nat>, f: Flight)
    requires BlocksOwned(u) && c <= |u.slots|
    requires Exchanged(u.pool, Holdings(u.pending, u.slots)[c], p', mine')
    requires Carries(u.pool.data, u.slots, f) && f.slot + 1 != c
    ensures Carries(p'.data, u.slots, f) && SameBytes(u.pool.data, p'.data, u.slots[f.slot].vec)
  {
    hide PoolOk, Total, Once, Exchanged, Readable, Holds, Holdings, ReadVec;
    var hs, v := Holdings(u.pending, u.slots), u.slots[f.slot].vec;
    assert hs[1 + f.slot] == multiset(BlocksOf(v));
    assert Holds(u.pool, hs[c] + (Total(hs) - hs[c])) && multiset(BlocksOf(v)) <= Total(hs) - hs[c] by {
      OneShare(u.pool, hs, c);
    }
    UntouchedBlocks(u.pool, hs[c], Total(hs) - hs[c], BlocksOf(v), p', mine');
    ReadFrame(u.pool.data, p'.data, v);
  }

  lemma OtherPending(u: Udp, c: nat, p': Pool, mine': multiset<nat>)
    requires BlocksOwned(u) && 0 < c <= |u.slots| && InRange(u.pool.data, u.pending)
    requires Exchanged(u.pool, Holdings(u.pending, u.slots)[c], p', mine')
    ensures InRange(p'.data, u.pending) && Gather(p'.data, u.pending) == Gather(u.pool.data, u.pending)
  {
    hide PoolOk, Total, Once, Exchanged, Holds, Holdings;
    var hs := Holdings(u.pending, u.slots);
    assert Holds(u.pool, hs[c] + (Total(hs) - hs[c])) && hs[0] <= Total(hs) - hs[c] by {
      OneShare(u.pool, hs, c);
    }
    UntouchedBlocks(u.pool, hs[c], Total(hs) - hs[c], u.pending, p', mine');
    GatherFrame(u.pool.data, p'.data, u.pending);
  }

  lemma UntouchedBlocks(p: Pool, mine: multiset<nat>, others: multiset<nat>, s: seq<nat>, p': Pool,
                        mine': multiset<nat>)
    requires Holds(p, mine + others) && multiset(s) <= others && Exchanged(p, mine, p', mine')
    ensures |p'.data| == |p.data| && forall i :: i in s ==> i < |p.data| && p'.data[i] == p.data[i]
  {
    forall i | i in s ensures i < |p.data| && p'.data[i] == p.data[i] {
      assert i in multiset(s);
      NotElsewhere(p, mine, others, i);
    }
  }

  lemma {:induction false} ReadFrame(data: seq<seq<byte>>, data': seq<seq<byte>>, v: seq<Iovec>)
    requires Readable(data, v) && SameBytes(data, data', v)
    ensures Readable(data', v) && ReadVec(data', v) == ReadVec(data, v)
    decreases |v|
  {
    forall i | 0 <= i < |v| ensures data'[v[i].block] == data[v[i].block] {
      assert BlocksOf(v)[i] in BlocksOf(v);
    }
    if v != [] {
      forall i | i in BlocksOf(v[1..]) ensures i < |data| && data'[i] == data[i] {
        var k :| 0 <= k < |v| - 1 && BlocksOf(v[1..])[k] == i;
        assert BlocksOf(v)[k + 1] == i;
      }
      ReadFrame(data, data', v[1..]);
    }
  }

  // ---------- Every event keeps the invariant ----------

  /** What a step must leave alone: a flight stays, its slot and its blocks' bytes are as they were. */
  ghost predicate Undisturbed(u: Udp, u': Udp, f: Flight) {
    && f in u'.flying && f.slot < |u.slots| && |u'.slots| == |u.slots| && u'.slots[f.slot] == u.slots[f.slot]
    && SameBytes(u.pool.data, u'.pool.data, u.slots[f.slot].vec)
  }

  /** Blocks accounted for, flights carried and the other facts together. */
  lemma Together(u: Udp)
    requires u.pool.blockSize < U32 && 0 < u.cap && |u.pending| <= u.cap
    requires BlocksOwned(u) && SlotsOwned(u)
    requires InRange(u.pool.data, u.pending) && Gather(u.pool.data, u.pending) == u.draft
    requires u.queue == [] && u.parked && !u.flag
    requires multiset(u.submitted) == multiset(u.done) + multiset(WhatOf(u.flying))
    ensures Inv(u)
  {
  }

  /** Work on the pending list alone. */
  lemma PendingKept(u: Udp, p': Pool, pending': seq<nat>, draft': seq<byte>)
    requires Inv(u) && Exchanged(u.pool, multiset(u.pending), p', multiset(pending')) && |pending'| <= u.cap
    requires InRange(p'.data, pending') && Gather(p'.data, pending') == draft'
    ensures var u' := u.(pool := p', pending := pending', draft := draft');
            Inv(u') && forall f :: f in u.flying ==> Undisturbed(u, u', f)
  {
    var u' := u.(pool := p', pending := pending', draft := draft');
    PendingBlocks(u, p', pending', u');
    PendingFlights(u, p', pending', u');
    hide BlocksOwned, SlotsOwned, Gather, PoolOk, Undisturbed;
    Together(u');
  }

  lemma PendingBlocks(u: Udp, p': Pool, pending': seq<nat>, u': Udp)
    requires BlocksOwned(u) && Exchanged(u.pool, multiset(u.pending), p', multiset(pending'))
    requires u'.pool == p' && u'.pending == pending' && u'.slots == u.slots
    ensures BlocksOwned(u')
  {
    StillOwned(u, 0, p', multiset(pending'));
    assert Holdings(pending', u.slots) == Holdings(u.pending, u.slots)[0 := multiset(pending')];
  }

  lemma PendingFlights(u: Udp, p': Pool, pending': seq<nat>, u': Udp)
    requires BlocksOwned(u) && SlotsOwned(u) && Exchanged(u.pool, multiset(u.pending), p', multiset(pending'))
    requires u'.pool == p' && u'.slots == u.slots && u'.flying == u.flying && u'.free == u.free
    ensures SlotsOwned(u') && forall f :: f in u.flying ==> Undisturbed(u, u', f)
  {
    hide Exchanged, BlocksOwned;
    forall f | f in u.flying ensures Carries(p'.data, u.slots, f) && Undisturbed(u, u', f) {
      OtherFlight(u, 0, p', multiset(pending'), f);
    }
  }

  lemma AppendKept(u: Udp, bytes: seq<byte>)
    requires Inv(u)
    ensures Sound(u) && Inv(AppendStep(u, bytes))
    ensures forall f :: f in u.flying ==> Undisturbed(u, AppendStep(u, bytes), f)
  {
    InvSound(u);
    var o := AppendSpec(u.pool, u.pending, u.cap, bytes);
    var others := Total(Holdings(u.pending, u.slots)) - multiset(u.pending);
    OneShare(u.pool, Holdings(u.pending, u.slots), 0);
    AppendOwnership(u.pool, u.pending, u.cap, bytes, others);
    AppendContents(u.pool, u.pending, u.cap, bytes);
    hide AppendSpec, Total, Inv, Gather, Once;
    NothingAfter(u.draft);
    PendingKept(u, o.pool, o.pending, AppendStep(u, bytes).draft);
  }

  lemma PrependKept(u: Udp, bytes: seq<byte>)
    requires Inv(u) && |bytes| + u.pool.blockSize <= U32
    ensures Sound(u) && Inv(PrependStep(u, bytes))
    ensures forall f :: f in u.flying ==> Undisturbed(u, PrependStep(u, bytes), f)
  {
    InvSound(u);
    var o := PrependSpec(u.pool, u.pending, u.cap, bytes);
    var others := Total(Holdings(u.pending, u.slots)) - multiset(u.pending);
    OneShare(u.pool, Holdings(u.pending, u.slots), 0);
    PrependOwnership(u.pool, u.pending, u.cap, bytes, others);
    PrependContents(u.pool, u.pending, u.cap, bytes);
    hide PrependSpec, Total, Inv, Gather, Once;
    NothingBefore(u.draft);
    PendingKept(u, o.pool, o.pending, PrependStep(u, bytes).draft);
  }

  lemma ReleasedTo(p: Pool, s: seq<nat>, others: multiset<nat>)
    requires Holds(p, multiset(s) + others)
    ensures InRange(p.data, s) && Exchanged(p, multiset(s), ReleaseAll(p, s), multiset{})
  {
    ReleaseAllHolds(p, s, others);
    ReleaseAllEffect(p, s);
    assert multiset(p.free + s) + multiset{} == multiset(p.free) + multiset(s);
    assert forall i :: i in s ==> i in multiset(s);
  }

  lemma DiscardKept(u: Udp)
    requires Inv(u)
    ensures Sound(u) && Inv(Discard(u)) && forall f :: f in u.flying ==> Undisturbed(u, Discard(u), f)
  {
    InvSound(u);
    OneShare(u.pool, Holdings(u.pending, u.slots), 0);
    ReleasedTo(u.pool, u.pending, Total(Holdings(u.pending, u.slots)) - multiset(u.pending));
    PendingKept(u, ReleaseAll(u.pool, u.pending), [], []);
  }

  lemma RejectedKept(u: Udp)
    requires Inv(u) && u.free != []
    ensures Sound(u) && Rejected(u) == Discard(u).(free := u.free[1..] + [u.free[0]])
    ensures Inv(Rejected(u)) && forall f :: f in u.flying ==> Undisturbed(u, Rejected(u), f)
  {
    DiscardKept(u);
    var i, d := u.free[0], Discard(u);
    assert i in u.free;
    assert u.slots[i := NoMessage()] == u.slots;
    assert d.free == u.free && d.slots == u.slots && d.flying == u.flying;
    hide Discard, BlocksOwned, Gather, Undisturbed, Sound;
    Rotated(d);
  }

  /** A slot taken and put back goes to the end of the free queue. */
  lemma Rotated(u: Udp)
    requires Inv(u) && u.free != []
    ensures var u' := u.(free := u.free[1..] + [u.free[0]]);
            Inv(u') && forall v, f :: Undisturbed(v, u, f) ==> Undisturbed(v, u', f)
  {
    var i, rest := u.free[0], u.free[1..];
    var u' := u.(free := rest + [i]);
    Rotation(u.free);
    assert forall j :: j in rest + [i] ==> j in u.free;
    assert SlotsOwned(u') by { hide Carries; }
    hide SlotsOwned, Gather;
    assert BlocksOwned(u');
    hide BlocksOwned;
    Together(u');
  }

  lemma NotifySends(u: Udp)
    requires u.parked && !u.flag
    ensures Notify(u) == u.(flying := u.flying + u.queue, queue := [])
    ensures Notify(Notify(u)) == Notify(u)
  {
    var n := Notify(u);
    assert n.flying + [] == n.flying;
  }

  /** A slot in the free queue carries nothing; outstanding slots are distinct. */
  lemma SlotFacts(u: Udp)
    requires SlotsOwned(u)
    ensures Apart(SlotsOf(u.flying)) && (u.free != [] ==> u.free[0] in u.free && u.free[0] !in SlotsOf(u.flying))
    ensures forall f :: f in u.flying ==> f.slot in SlotsOf(u.flying) && f.slot < |u.slots|
  {
    AllOnce(|u.slots|);
    OnceDisjoint(u.free, SlotsOf(u.flying), |u.slots|);
    OncePart(multiset(SlotsOf(u.flying)), All(|u.slots|), |u.slots|);
    OnceIndices(SlotsOf(u.flying), |u.slots|);
    forall f | f in u.flying ensures f.slot in SlotsOf(u.flying) {
      var k :| 0 <= k < |u.flying| && u.flying[k] == f;
      assert SlotsOf(u.flying)[k] == f.slot;
    }
  }

  lemma HandOverHoldings(pending: seq<nat>, slots: seq<Slot>, i: nat, s: Slot)
    requires i < |slots| && BlocksOf(s.vec) == pending
    ensures Holdings([], slots[i := s]) == Holdings(pending, slots)[0 := multiset{}][1 + i := multiset(pending)]
  {
    var a, b := Holdings([], slots[i := s]), Holdings(pending, slots)[0 := multiset{}][1 + i := multiset(pending)];
    forall j | 0 <= j < |a| ensures a[j] == b[j] {
      if j > 0 {
        assert a[1 + (j - 1)] == multiset(BlocksOf(slots[i := s][j - 1].vec));
        assert Holdings(pending, slots)[1 + (j - 1)] == multiset(BlocksOf(slots[j - 1].vec));
      }
    }
  }

  /** The pending blocks change hands without touching the pool. */
  lemma HandOver(pending: seq<nat>, slots: seq<Slot>, i: nat, s: Slot)
    requires i < |slots| && slots[i].vec == [] && BlocksOf(s.vec) == pending
    ensures Total(Holdings([], slots[i := s])) == Total(Holdings(pending, slots))
  {
    var hs, m := Holdings(pending, slots), multiset(pending);
    var mid := hs[0 := multiset{}];
    assert BlocksOf([]) == [];
    assert mid[1 + i] == multiset{};
    var end := Holdings([], slots[i := s]);
    hide Total, Holdings;
    HandOverHoldings(pending, slots, i, s);
    TotalUpdate(hs, 0, multiset{});
    TotalUpdate(mid, 1 + i, m);
    assert Total(end) == Total(end) + mid[1 + i];
    assert Total(mid) + m == Total(hs);
  }

  lemma WholeDatagram(data: seq<seq<byte>>, pending: seq<nat>)
    requires InRange(data, pending)
    ensures var v := Iovecs(data, pending, 0);
            BlocksOf(v) == pending && Readable(data, v) && ReadVec(data, v) == Gather(data, pending)
  {
    PeekIsUnsent(data, pending, 0);
    UnsentIsSuffix(data, pending, 0);
    assert Gather(data, pending)[0..] == Gather(data, pending);
  }

  /** The datagram on its way: one more flight, carrying the whole draft. */
  ghost function Sent(u: Udp, name: seq<byte>): Udp
    requires Sound(u) && u.free != []
  {
    var c := Committed(u, name);
    c.(flying := c.flying + c.queue, queue := [])
  }

  lemma SentKept(u: Udp, name: seq<byte>)
    requires Inv(u) && u.free != [] && u.pending != []
    ensures Sound(u) && Inv(Sent(u, name)) && forall f :: f in u.flying ==> Undisturbed(u, Sent(u, name), f)
  {
    InvSound(u);
    var u' := Sent(u, name);
    WholeDatagram(u.pool.data, u.pending);
    SentBlocks(u, name);
    SentFlights(u, name);
    SentRecord(u, name);
    hide BlocksOwned, SlotsOwned, Undisturbed, Sound;
    Together(u');
  }

  lemma SentBlocks(u: Udp, name: seq<byte>)
    requires Inv(u) && Sound(u) && u.free != []
    ensures BlocksOwned(Sent(u, name))
  {
    var i, u' := u.free[0], Sent(u, name);
    assert i in u.free;
    WholeDatagram(u.pool.data, u.pending);
    HandOver(u.pending, u.slots, i, u'.slots[i]);
    assert u'.slots == u.slots[i := u'.slots[i]];
  }

  lemma SentRecord(u: Udp, name: seq<byte>)
    requires Sound(u) && u.free != [] && u.queue == []
    requires multiset(u.submitted) == multiset(u.done) + multiset(WhatOf(u.flying))
    ensures var u' := Sent(u, name);
            multiset(u'.submitted) == multiset(u'.done) + multiset(WhatOf(u'.flying))
  {
    var u', f' := Sent(u, name), Flight(u.free[0], Datagram(name, u.draft));
    hide Sound;
    assert u'.flying == u.flying + [f'];
    assert WhatOf(u.flying + [f']) == WhatOf(u.flying) + [f'.what];
    assert multiset(u.submitted + [f'.what]) == (multiset(u.done) + multiset(WhatOf(u.flying))) + multiset{f'.what};
  }

  lemma SentFlights(u: Udp, name: seq<byte>)
    requires Inv(u) && Sound(u) && u.free != [] && u.pending != []
    ensures SlotsOwned(Sent(u, name)) && forall f :: f in u.flying ==> Undisturbed(u, Sent(u, name), f)
  {
    SlotFacts(u);
    WholeDatagram(u.pool.data, u.pending);
    var i := u.free[0];
    var u', f' := Sent(u, name), Flight(i, Datagram(name, u.draft));
    hide BlocksOwned, ReadVec, Readable, Gather;
    assert u'.flying == u.flying + [f'];
    SentSlots(u.free, u.flying, f');
    forall j | j in u'.free ensures j < |u'.slots| && u'.slots[j] == NoMessage() {
      assert j in u.free;
      SentFree(u, j);
    }
    forall f | f in u.flying ensures Carries(u'.pool.data, u'.slots, f) && Undisturbed(u, u', f) {
      assert Carries(u.pool.data, u.slots, f) && f.slot != i;
      SameData(u.pool.data, u.slots[f.slot].vec);
    }
    assert Carries(u'.pool.data, u'.slots, f');
  }

  lemma SameData(data: seq<seq<byte>>, v: seq<Iovec>)
    requires Readable(data, v)
    ensures SameBytes(data, data, v)
  {
  }

  lemma SentFree(u: Udp, j: nat)
    requires SlotsOwned(u) && u.free != [] && j in u.free[1..]
    ensures j != u.free[0]
  {
    AllOnce(|u.slots|);
    OncePart(multiset(u.free), All(|u.slots|), |u.slots|);
    OnceIndices(u.free, |u.slots|);
  }

  lemma SentSlots(free: seq<nat>, flying: seq<Flight>, f: Flight)
    requires free != [] && f.slot == free[0]
    ensures multiset(free[1..]) + multiset(SlotsOf(flying + [f])) == multiset(free) + multiset(SlotsOf(flying))
  {
    assert SlotsOf(flying + [f]) == SlotsOf(flying) + [f.slot];
    assert free == [free[0]] + free[1..];
  }

  /** Whatever `submit` does, it keeps the invariant and disturbs no datagram already handed over. */
  lemma SubmitKept(u: Udp, name: seq<byte>, twice: bool)
    requires Inv(u)
    ensures Sound(u) && Inv(SubmitStep(u, name, twice))
    ensures SubmitStep(u, name, twice) ==
            if u.free == [] then Discard(u) else if !Committable(u) then Rejected(u) else Sent(u, name)
    ensures forall f :: f in u.flying ==> Undisturbed(u, SubmitStep(u, name, twice), f)
  {
    InvSound(u);
    if u.free == [] {
      DiscardKept(u);
    } else if !Committable(u) {
      RejectedKept(u);
    } else {
      NotifySends(Committed(u, name));
      SentKept(u, name);
    }
  }

  lemma LandedCounts(fs: seq<Flight>, k: nat)
    requires k < |fs|
    ensures var rest := fs[..k] + fs[k + 1..];
            && multiset(SlotsOf(fs)) == multiset{fs[k].slot} + multiset(SlotsOf(rest))
            && multiset(WhatOf(fs)) == multiset{fs[k].what} + multiset(WhatOf(rest))
  {
    var rest := fs[..k] + fs[k + 1..];
    MiddleOut(SlotsOf(fs), k);
    assert SlotsOf(rest) == SlotsOf(fs)[..k] + SlotsOf(fs)[k + 1..];
    MiddleOut(WhatOf(fs), k);
    assert WhatOf(rest) == WhatOf(fs)[..k] + WhatOf(fs)[k + 1..];
  }

  lemma MiddleOut<T>(s: seq<T>, k: nat)
    requires k < |s|
    ensures multiset(s) == multiset{s[k]} + multiset(s[..k] + s[k + 1..])
  {
    assert s == s[..k] + ([s[k]] + s[k + 1..]);
  }

  lemma OthersStay(fs: seq<Flight>, k: nat, f: Flight)
    requires k < |fs|
    ensures f in fs[..k] + fs[k + 1..] ==> f in fs
    ensures f in fs && f != fs[k] ==> f in fs[..k] + fs[k + 1..]
  {
    forall j | 0 <= j < |fs| && j != k ensures fs[j] in fs[..k] + fs[k + 1..] {
      assert fs[j] == if j < k then fs[..k][j] else fs[k + 1..][j - k - 1];
    }
  }

  lemma StillFlying(fs: seq<Flight>, k: nat, f: Flight)
    requires k < |fs| && Apart(SlotsOf(fs)) && f in fs[..k] + fs[k + 1..]
    ensures f.slot != fs[k].slot
  {
    var rest := fs[..k] + fs[k + 1..];
    var j :| 0 <= j < |rest| && rest[j] == f;
    var o := if j < k then j else j + 1;
    assert fs[o] == f;
    assert SlotsOf(fs)[o] == f.slot;
    assert SlotsOf(fs)[k] == fs[k].slot;
  }

  lemma CompleteKept(u: Udp, k: nat)
    requires Inv(u)
    ensures Sound(u) && Inv(CompleteStep(u, k))
    ensures k < |u.flying| ==> CompleteStep(u, k).done == u.done + [u.flying[k].what]
    ensures forall f :: f in u.flying && !(k < |u.flying| && f.slot == u.flying[k].slot) ==>
              Undisturbed(u, CompleteStep(u, k), f)
  {
    InvSound(u);
    if k < |u.flying| {
      LandedBlocks(u, k);
      LandedFlights(u, k);
      LandedSlots(u, k);
      var u' := CompleteStep(u, k);
      assert u.flying[k] in u.flying && Carries(u.pool.data, u.slots, u.flying[k]);
      hide BlocksOwned, SlotsOwned, Undisturbed, Sound, ReadVec, Readable, ReleaseAll, Gather;
      Together(u');
    } else {
      forall f | f in u.flying ensures Undisturbed(u, u, f) {
        NothingHappened(u, f);
      }
    }
  }

  lemma CompleteFields(u: Udp, k: nat)
    requires Sound(u) && k < |u.flying|
    ensures var i, u' := u.flying[k].slot, CompleteStep(u, k);
            && u.flying[k] in u.flying && i < |u.slots| && Readable(u.pool.data, u.slots[i].vec)
            && InRange(u.pool.data, BlocksOf(u.slots[i].vec))
            && u'.pool == ReleaseAll(u.pool, BlocksOf(u.slots[i].vec))
            && u'.free == u.free + [i] && u'.slots == u.slots[i := NoMessage()]
            && u'.flying == u.flying[..k] + u.flying[k + 1..] && u'.pending == u.pending
  {
  }

  /** The completing slot is holder `1 + i`, and it gives everything back. */
  lemma LandedExchange(u: Udp, k: nat)
    requires BlocksOwned(u) && Sound(u) && k < |u.flying|
    ensures var i := u.flying[k].slot;
            i < |u.slots| && Exchanged(u.pool, Holdings(u.pending, u.slots)[1 + i], CompleteStep(u, k).pool, multiset{})
  {
    hide CompleteStep, Total, ReleaseAll, Exchanged, Sound, Readable, PoolOk, InRange;
    CompleteFields(u, k);
    var i, hs := u.flying[k].slot, Holdings(u.pending, u.slots);
    var mine := BlocksOf(u.slots[i].vec);
    assert hs[1 + i] == multiset(mine);
    assert Holds(u.pool, multiset(mine) + (Total(hs) - multiset(mine))) by {
      OneShare(u.pool, hs, 1 + i);
    }
    ReleasedTo(u.pool, mine, Total(hs) - multiset(mine));
  }

  lemma LandedBlocks(u: Udp, k: nat)
    requires Inv(u) && Sound(u) && k < |u.flying|
    ensures var u' := CompleteStep(u, k);
            && BlocksOwned(u') && u'.pool.blockSize == u.pool.blockSize
            && InRange(u'.pool.data, u.pending) && Gather(u'.pool.data, u.pending) == Gather(u.pool.data, u.pending)
  {
    LandedExchange(u, k);
    var i, u' := u.flying[k].slot, CompleteStep(u, k);
    StillOwned(u, 1 + i, u'.pool, multiset{});
    OtherPending(u, 1 + i, u'.pool, multiset{});
    LandedHoldings(u.pending, u.slots, i);
  }

  lemma LandedFlights(u: Udp, k: nat)
    requires Inv(u) && Sound(u) && k < |u.flying|
    ensures SlotsOwned(CompleteStep(u, k))
    ensures forall f :: f in u.flying && f.slot != u.flying[k].slot ==> Undisturbed(u, CompleteStep(u, k), f)
  {
    hide CompleteStep, Carries, Undisturbed, BlocksOwned, ReleaseAll, Readable, Gather, Sound;
    CompleteFields(u, k);
    SlotFacts(u);
    LandedSlots(u, k);
    var i, u' := u.flying[k].slot, CompleteStep(u, k);
    forall f | f in u.flying && f.slot != i
      ensures Carries(u'.pool.data, u'.slots, f) && Undisturbed(u, u', f)
    {
      StillCarried(u, k, f);
    }
    assert forall j :: j in u'.free ==> j < |u'.slots| && u'.slots[j] == NoMessage() by {
      assert forall j :: j in u'.free ==> j == i || j in u.free;
    }
    forall f | f in u'.flying ensures Carries(u'.pool.data, u'.slots, f) {
      StillFlying(u.flying, k, f);
      OthersStay(u.flying, k, f);
    }
  }

  lemma StillCarried(u: Udp, k: nat, f: Flight)
    requires BlocksOwned(u) && Sound(u) && k < |u.flying| && f in u.flying && f.slot != u.flying[k].slot
    requires Carries(u.pool.data, u.slots, f)
    ensures var u' := CompleteStep(u, k);
            Carries(u'.pool.data, u'.slots, f) && Undisturbed(u, u', f)
  {
    hide CompleteStep, BlocksOwned, Exchanged, ReleaseAll, ReadVec, Readable, Gather, Sound, SameBytes;
    CompleteFields(u, k);
    LandedExchange(u, k);
    OtherFlight(u, 1 + u.flying[k].slot, CompleteStep(u, k).pool, multiset{}, f);
    OthersStay(u.flying, k, f);
  }

  lemma LandedHoldings(pending: seq<nat>, slots: seq<Slot>, i: nat)
    requires i < |slots|
    ensures Holdings(pending, slots[i := NoMessage()]) == Holdings(pending, slots)[1 + i := multiset{}]
  {
    assert BlocksOf([]) == [];
  }

  lemma LandedSlots(u: Udp, k: nat)
    requires k < |u.flying| && SlotsOwned(u) && multiset(u.submitted) == multiset(u.done) + multiset(WhatOf(u.flying))
    ensures var i, rest := u.flying[k].slot, u.flying[..k] + u.flying[k + 1..];
            && multiset(u.free + [i]) + multiset(SlotsOf(rest)) == All(|u.slots|)
            && multiset(u.submitted) == multiset(u.done + [u.flying[k].what]) + multiset(WhatOf(rest))
  {
    LandedCounts(u.flying, k);
    var i, w, rest := u.flying[k].slot, u.flying[k].what, u.flying[..k] + u.flying[k + 1..];
    assert multiset(u.free + [i]) + multiset(SlotsOf(rest))
           == multiset(u.free) + (multiset{i} + multiset(SlotsOf(rest)));
    assert multiset(u.done + [w]) + multiset(WhatOf(rest)) == multiset(u.done) + (multiset{w} + multiset(WhatOf(rest)));
  }

  /** Every event keeps the invariant, and disturbs no datagram in flight except the one it completes. */
  lemma StepInv(u: Udp, e: Event)
    requires Inv(u) && Sane(e, u.pool.blockSize)
    ensures Sound(u) && Inv(Step(u, e)) && Step(u, e).pool.blockSize == u.pool.blockSize
    ensures forall f :: f in u.flying && !Completes(u, e, f.slot) ==> Undisturbed(u, Step(u, e), f)
  {
    hide Inv, AppendStep, PrependStep, SubmitStep, CompleteStep, Undisturbed;
    match e {
      case Append(bytes) => AppendKept(u, bytes);
      case Prepend(bytes) => PrependKept(u, bytes);
      case Submit(name, twice) => SubmitKept(u, name, twice);
      case Complete(k) => CompleteKept(u, k);
    }
    SizeKept(u, e);
  }

  lemma SizeKept(u: Udp, e: Event)
    requires Sound(u)
    ensures Step(u, e).pool.blockSize == u.pool.blockSize
  {
    match e {
      case Append(bytes) =>
        assert multiset(u.pending) + multiset{} == multiset(u.pending);
        AppendOwnership(u.pool, u.pending, u.cap, bytes, multiset{});
      case Prepend(bytes) =>
        assert multiset(u.pending) + multiset{} == multiset(u.pending);
        PrependOwnership(u.pool, u.pending, u.cap, bytes, multiset{});
      case _ =>
    }
  }

  ghost predicate Completes(u: Udp, e: Event, slot: nat) {
    e.Complete? && e.k < |u.flying| && u.flying[e.k].slot == slot
  }

  // ---------- Runs ----------

  ghost predicate AllSane(es: seq<Event>, size: nat) {
    forall i :: 0 <= i < |es| ==> Sane(es[i], size)
  }

  ghost function Exec(u: Udp, es: seq<Event>): (r: Udp)
    requires Inv(u) && AllSane(es, u.pool.blockSize)
    ensures Inv(r)
    decreases |es|
  {
    if es == [] then u
    else
      StepInv(u, es[0]);
      Exec(Step(u, es[0]), es[1..])
  }

  /** A worker as its thread sets it up. */
  ghost function Start(n: nat, size: nat, cap: nat, m: nat, maxIov: nat): Udp {
    Udp(FullPool(n, size), cap, maxIov, Numbers(m), seq(m, i => NoMessage()), [], [], true, false, [], [], [], [])
  }

  lemma StartInv(n: nat, size: nat, cap: nat, m: nat, maxIov: nat)
    requires 0 < size < U32 && 0 < cap
    ensures Inv(Start(n, size, cap, m, maxIov))
  {
    var u := Start(n, size, cap, m, maxIov);
    StartBlocks(n, size, u.slots);
    assert SlotsOf(u.flying) == [] && WhatOf(u.flying) == [];
    assert multiset(u.free) + multiset{} == All(m);
    assert SlotsOwned(u);
    hide BlocksOwned, SlotsOwned;
    Together(u);
  }

  lemma StartBlocks(n: nat, size: nat, slots: seq<Slot>)
    requires size > 0 && forall i :: 0 <= i < |slots| ==> slots[i] == NoMessage()
    ensures PoolOk(FullPool(n, size))
    ensures multiset(FullPool(n, size).free) + Total(Holdings([], slots)) == All(n)
  {
    NoHoldings(slots);
    AllOnce(n);
    hide Total, Holdings;
    assert multiset(Numbers(n)) + multiset{} == All(n);
  }

  lemma NoHoldings(slots: seq<Slot>)
    requires forall i :: 0 <= i < |slots| ==> slots[i] == NoMessage()
    ensures Total(Holdings([], slots)) == multiset{}
  {
    var hs := Holdings([], slots);
    hide Holdings, Total;
    assert BlocksOf([]) == [];
    forall c | 0 <= c < |hs| ensures hs[c] == multiset{} {
      if c > 0 {
        assert hs[1 + (c - 1)] == multiset(BlocksOf(slots[c - 1].vec));
        assert slots[c - 1] == NoMessage();
      }
    }
    TotalNone(hs);
  }

  /**
    In every run of a UDP worker, after any number of events and with completions in any order:
    each block is free, pending, or in exactly one message slot, and each slot is free and zeroed or carries exactly one
    outstanding datagram; the kernel, reading through the slot, gets the destination and the whole contents that were
    pending at the submit; the datagrams submitted are those completed, each as it was read by the kernel, plus those
    outstanding; the loop is parked, nothing is left in the slot queue and no note is pending.
   */
  lemma EveryRun(n: nat, size: nat, cap: nat, m: nat, maxIov: nat, es: seq<Event>)
    requires 0 < size < U32 && 0 < cap && AllSane(es, size)
    ensures Inv(Start(n, size, cap, m, maxIov))
    ensures var u := Exec(Start(n, size, cap, m, maxIov), es);
            && (forall i: nat ::
                  (multiset(u.pool.free) + Total(Holdings(u.pending, u.slots)))[i]
                  == if i < |u.pool.data| then 1 else 0)
            && (forall i: nat :: (multiset(u.free) + multiset(SlotsOf(u.flying)))[i] == if i < |u.slots| then 1 else 0)
            && (forall i :: i in u.free ==> i < |u.slots| && u.slots[i] == NoMessage())
            && (forall f :: f in u.flying ==> Carries(u.pool.data, u.slots, f))
            && multiset(u.submitted) == multiset(u.done) + multiset(WhatOf(u.flying))
            && InRange(u.pool.data, u.pending) && Gather(u.pool.data, u.pending) == u.draft
            && u.parked && !u.flag && u.queue == []
            && (u.pending == [] && u.flying == [] ==>
                  multiset(u.pool.free) == All(|u.pool.data|) && multiset(u.free) == All(|u.slots|))
  {
    StartInv(n, size, cap, m, maxIov);
    var u := Exec(Start(n, size, cap, m, maxIov), es);
    hide Exec;
    AllCounts(|u.pool.data|);
    AllCounts(|u.slots|);
    forall i: nat
      ensures (multiset(u.pool.free) + Total(Holdings(u.pending, u.slots)))[i] == if i < |u.pool.data| then 1 else 0
    {
      assert All(|u.pool.data|)[i] == if i < |u.pool.data| then 1 else 0;
    }
    forall i: nat ensures (multiset(u.free) + multiset(SlotsOf(u.flying)))[i] == if i < |u.slots| then 1 else 0 {
      assert All(|u.slots|)[i] == if i < |u.slots| then 1 else 0;
    }
    if u.pending == [] && u.flying == [] {
      NothingHeld(u);
    }
  }

  /** With nothing pending and nothing in flight, both pools are full again. */
  lemma NothingHeld(u: Udp)
    requires Inv(u) && u.pending == [] && u.flying == []
    ensures multiset(u.pool.free) == All(|u.pool.data|) && multiset(u.free) == All(|u.slots|)
  {
    assert SlotsOf(u.flying) == [];
    assert multiset(u.free) + multiset{} == multiset(u.free);
    AllCounts(|u.slots|);
    forall i | 0 <= i < |u.slots| ensures u.slots[i] == NoMessage() {
      assert All(|u.slots|)[i] == 1;
      assert i in u.free;
    }
    hide Total, Holdings;
    NoHoldings(u.slots);
    assert multiset(u.pool.free) + multiset{} == multiset(u.pool.free);
  }

  /**
    A submit succeeds exactly when something is pending, the pending blocks fit the slot's iovecs and a slot is free.
    It then adds one flight carrying the destination and all pending bytes.  Otherwise nothing is handed over, the
    pending list is empty, its blocks are free again and the slot pool has the slots it had.
   */
  lemma SubmitIsTransactional(u: Udp, name: seq<byte>, twice: bool)
    requires Inv(u)
    ensures Sound(u)
    ensures var u' := SubmitStep(u, name, twice);
            var ok := 0 < |u.pending| <= u.maxIov && u.free != [];
            && u'.pending == [] && u'.draft == []
            && (ok ==> && u'.submitted == u.submitted + [Datagram(name, Gather(u.pool.data, u.pending))]
                       && u'.flying == u.flying + [Flight(u.free[0], Datagram(name, Gather(u.pool.data, u.pending)))]
                       && u'.pool == u.pool)
            && (!ok ==> && u'.submitted == u.submitted && u'.flying == u.flying && u'.slots == u.slots
                        && multiset(u'.free) == multiset(u.free)
                        && u'.pool.free == u.pool.free + u.pending)
  {
    hide Discard, Rejected, SubmitStep, BlocksOwned, SlotsOwned, Gather, Undisturbed, Sound;
    SubmitKept(u, name, twice);
    DiscardFrees(u);
    if u.free != [] {
      RejectedKept(u);
      Rotation(u.free);
    }
  }

  lemma Rotation(s: seq<nat>)
    requires s != []
    ensures multiset(s[1..] + [s[0]]) == multiset(s)
  {
    assert s == [s[0]] + s[1..];
  }

  lemma DiscardFrees(u: Udp)
    requires Inv(u) && Sound(u)
    ensures Discard(u) == u.(pool := Discard(u).pool, pending := [], draft := [])
    ensures Discard(u).pool.free == u.pool.free + u.pending
  {
    HoldsIndices(u.pool, u.pending);
    ReleaseAllEffect(u.pool, u.pending);
  }

  /** The flight of `slot` is not completed by the run. */
  ghost predicate StaysOut(u: Udp, es: seq<Event>, slot: nat)
    requires Inv(u) && AllSane(es, u.pool.blockSize)
    decreases |es|
  {
    es == [] ||
    (StepInv(u, es[0]);
     !Completes(u, es[0], slot) && StaysOut(Step(u, es[0]), es[1..], slot))
  }

  /**
    From the `sendmsg` to its completion, whatever else happens: the flight stays outstanding, its slot's destination
    and iovecs stay as they are, and so do the bytes of every block they refer to.
   */
  lemma {:induction false} FlightIsStable(u: Udp, es: seq<Event>, f: Flight)
    requires Inv(u) && AllSane(es, u.pool.blockSize) && f in u.flying && StaysOut(u, es, f.slot)
    ensures Undisturbed(u, Exec(u, es), f)
    decreases |es|
  {
    hide Inv, Sane, Step, Completes, Undisturbed;
    if es == [] {
      NothingHappened(u, f);
    } else {
      StepInv(u, es[0]);
      var u' := Step(u, es[0]);
      assert Undisturbed(u, u', f);
      StillOut(u, u', f);
      FlightIsStable(u', es[1..], f);
      UndisturbedTwice(u, u', Exec(u', es[1..]), f);
    }
  }

  lemma NothingHappened(u: Udp, f: Flight)
    requires Inv(u) && f in u.flying
    ensures Undisturbed(u, u, f)
  {
    assert Carries(u.pool.data, u.slots, f);
    SameData(u.pool.data, u.slots[f.slot].vec);
  }

  lemma StillOut(u: Udp, u': Udp, f: Flight)
    requires Undisturbed(u, u', f)
    ensures f in u'.flying
  {
  }

  lemma UndisturbedTwice(a: Udp, b: Udp, c: Udp, f: Flight)
    requires Undisturbed(a, b, f) && Undisturbed(b, c, f)
    ensures Undisturbed(a, c, f)
  {
  }
}
