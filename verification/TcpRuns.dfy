/**
  Runs of a TCP worker written out step by step.  They show that the conditions under which a
  promise fails are met by real runs, from any state with an idle channel, the initial one
  among them.
 */
module TcpRuns {
  import opened Bits
  import opened Blocks
  import opened WriteSpec
  import opened TcpWorker
  import opened TcpDrain

  /** A channel between two connections that holds nothing. */
  ghost predicate Vacant(w: Worker, c: nat) {
    Inv(w) && c < |w.chans| && w.chans[c].at.Ended? && w.chans[c].send == [] && w.chans[c].pending == []
  }

  lemma StartsVacant(n: nat, size: nat, cap: nat, k: nat, c: nat)
    requires 0 < size < U32 && c < k
    ensures Vacant(Start(n, size, cap, k), c)
  {
    StartInv(n, size, cap, k);
  }

  // ---------- Single steps ----------

  lemma Unroll(w: Worker, es: seq<Event>)
    requires Inv(w) && AllSane(es, w.pool.blockSize) && es != []
    ensures Inv(Next(w, es[0])) && AllSane(es[1..], Next(w, es[0]).pool.blockSize)
    ensures Exec(w, es) == if |es| == 1 then Next(w, es[0]) else Exec(Next(w, es[0]), es[1..])
  {
    hide Inv, Next;
    NextInv(w, es[0]);
  }

  /** The channel of an event, and the pool, after the event. */
  lemma OneStep(w: Worker, e: Event)
    requires Inv(w) && e.c < |w.chans|
    ensures var p, ch := w.pool, w.chans[e.c];
            && Sound(p, ch) && Holds(p, multiset(ch.pending) + multiset(ch.send)) && |ch.pending| <= w.cap
            && Apart(ch.send)
            && var r := Step(p, w.cap, ch, e);
               Next(w, e) == w.(pool := r.0, chans := w.chans[e.c := r.1])
  {
    hide Step;
    Share(w, e.c);
    InvChan(w, e.c);
  }

  /** Opened on a channel that holds nothing, a loop parks. */
  lemma Opens(w: Worker, c: nat)
    requires Vacant(w, c)
    ensures var w' := Next(w, Assign(c, false));
            && Inv(w') && w'.pool == w.pool && w'.cap == w.cap && |w'.chans| == |w.chans|
            && w'.chans[c] == Channel([], [], 0, false, false, Parked, [], [], [], [])
  {
    hide Inv, ChanOk, Holds, Apart;
    var e, ch := Assign(c, false), w.chans[c];
    NextInv(w, e);
    InvChan(w, c);
    OneStep(w, e);
    NothingLeft(w.pool, w.cap, ch);
    assert ch.carried + ch.submitted == [];
    assert Step(w.pool, w.cap, ch, e) == (w.pool, Channel([], [], 0, false, false, Parked, [], [], [], []));
  }

  lemma NothingLeft(p: Pool, cap: nat, ch: Channel)
    requires ChanOk(p, cap, ch) && ch.at.Ended? && ch.send == [] && ch.pending == []
    ensures ch.draft == [] && ch.carried == [] && ch.submitted == [] && ch.acked == [] && ch.offset == 0
  {
    assert |ch.carried + ch.submitted| == 0;
  }

  /** Up to one block of bytes, appended to an empty list, takes the first free block. */
  lemma OneBlock(p: Pool, cap: nat, x: seq<byte>)
    requires PoolOk(p) && p.free != [] && cap > 0 && |x| <= p.blockSize
    ensures Holds(p, multiset([])) && p.free[0] < |p.data|
    ensures AppendSpec(p, [], cap, x)
            == Outcome(true, p.(free := p.free[1..], data := p.data[p.free[0] := x]), [p.free[0]])
  {
    assert multiset(p.free) + multiset([]) == multiset(p.free);
    HoldsIndices(p, []);
    var all := [] + p.free[..1];
    assert all == [p.free[0]] && all[0..] == all && all[1..] == [];
    assert p.free[0] in p.free;
    assert [] + x == x && x[..|x|] == x;
    Unfold(p.data, all, x, p.blockSize);
    Unfold(p.data[p.free[0] := x], [], [], p.blockSize);
  }

  lemma Appends(w: Worker, c: nat, x: seq<byte>)
    requires Inv(w) && c < |w.chans| && w.chans[c].pending == [] && w.pool.free != [] && w.cap > 0
    requires |x| <= w.pool.blockSize
    ensures w.pool.free[0] < |w.pool.data| && w.pool.free[0] !in w.chans[c].send
    ensures var f, w' := w.pool.free[0], Next(w, Append(c, x));
            && Inv(w') && w'.pool == w.pool.(free := w.pool.free[1..], data := w.pool.data[f := x]) && w'.cap == w.cap
            && |w'.chans| == |w.chans|
            && w'.chans[c] == w.chans[c].(pending := [f], draft := w.chans[c].draft + x)
  {
    var e := Append(c, x);
    NextInv(w, e);
    OneStep(w, e);
    OneBlock(w.pool, w.cap, x);
    Share(w, c);
    Indices(w.pool, w.chans[c], Others(w, c));
    hide AppendSpec, Holds, Inv;
    assert w.pool.free[0] in w.pool.free;
  }

  /** A submit that fits, on a parked loop, starts a `writev` over everything; on a busy one it leaves a note. */
  lemma Submits(w: Worker, c: nat)
    requires Inv(w) && c < |w.chans| && SubmitFits(w.chans[c], w.cap) && !w.chans[c].closed
    ensures Sound(w.pool, w.chans[c]) && HeadOk(w.pool.data, w.chans[c].send + w.chans[c].pending, w.chans[c].offset)
    ensures var w', s := Next(w, Submit(c, false)), Submitted(w.chans[c]);
            && Inv(w') && w'.pool == w.pool && w'.cap == w.cap && |w'.chans| == |w.chans|
            && w'.chans[c] == if s.at.Parked? then s.(at := Writing(Iovecs(w.pool.data, s.send, s.offset)))
                              else s.(flag := true)
  {
    var e := Submit(c, false);
    NextInv(w, e);
    InvChan(w, c);
    OneStep(w, e);
    SubmitSound(w.pool, w.chans[c]);
    hide Holds, Inv, ChanOk, Iovecs;
  }

  // ---------- Nothing appended to an empty list ----------

  ghost function EmptyAppend(c: nat): seq<Event> {
    [Assign(c, false), Append(c, []), Submit(c, false)]
  }

  /** An empty append on a new connection leads to a `writev` of nothing, whose completion ends the connection. */
  lemma EmptyAppendEndsConnection(w: Worker, c: nat)
    requires Vacant(w, c) && w.pool.free != [] && w.cap > 0
    ensures AllSane(EmptyAppend(c), w.pool.blockSize) && !NeverQueuesNothing(w, EmptyAppend(c))
    ensures var r := Exec(w, EmptyAppend(c));
            && c < |r.chans| && r.chans[c].at.Writing? && VecLen(r.chans[c].at.vec) == 0
            && Next(r, Complete(c, 0)).chans[c].at.Ended?
  {
    hide Inv, Next, Step, VecLen, Iovecs, QueuesNothing, Exec;
    var es := EmptyAppend(c);
    var w1 := Next(w, es[0]);
    Opens(w, c);
    Unroll(w, es);
    NoneQueued(w1, c);
    var w2 := Next(w1, es[1]);
    Appends(w1, c, []);
    Unroll(w1, es[1..]);
    var w3 := Next(w2, es[2]);
    Submits(w2, c);
    Unroll(w2, es[2..]);
    assert [] + [w.pool.free[0]] == [w.pool.free[0]];
    CoversNone(w3.pool.data, w.pool.free[0]);
    EmptyWriteEndsConnection(w3, c, 0);
  }

  lemma NoneQueued(w: Worker, c: nat)
    requires Inv(w) && c < |w.chans| && w.chans[c].pending == [] && w.pool.free != [] && w.cap > 0
    ensures NextQueuesNothing(w, Append(c, []))
  {
  }

  lemma OneEntry(data: seq<seq<byte>>, f: nat)
    requires f < |data|
    ensures HeadOk(data, [f], 0) && Iovecs(data, [f], 0) == [Iovec(f, 0, |data[f]|)]
  {
  }

  lemma CoversNone(data: seq<seq<byte>>, f: nat)
    requires f < |data| && data[f] == []
    ensures HeadOk(data, [f], 0) && VecLen(Iovecs(data, [f], 0)) == 0
  {
    OneEntry(data, f);
  }

  ghost function Send(c: nat, x: seq<byte>): seq<Event> {
    [Assign(c, false), Append(c, x), Submit(c, false)]
  }

  /** One block of bytes is with the kernel. */
  ghost predicate Underway(w: Worker, c: nat, f: nat, x: seq<byte>) {
    && Inv(w) && c < |w.chans| && f < |w.pool.data| && w.pool.data[f] == x
    && w.chans[c] == Channel([], [f], 0, false, false, Writing([Iovec(f, 0, |x|)]), [], x, [], [])
  }

  lemma SendStarts(w: Worker, c: nat, x: seq<byte>)
    requires Vacant(w, c) && w.pool.free != [] && w.cap > 0 && 0 < |x| <= w.pool.blockSize
    ensures AllSane(Send(c, x), w.pool.blockSize)
    ensures var r := Exec(w, Send(c, x));
            && Underway(r, c, w.pool.free[0], x)
            && r.cap == w.cap && r.pool.blockSize == w.pool.blockSize && r.pool.free == w.pool.free[1..]
  {
    SmallBlocks(w);
    hide Inv, Next, Step, Exec, Drafted, Underway;
    var es, f := Send(c, x), w.pool.free[0];
    var w1 := Next(w, es[0]);
    Opens(w, c);
    Unroll(w, es);
    var w2 := Next(w1, es[1]);
    FirstAppend(w1, c, x);
    Unroll(w1, es[1..]);
    FirstSubmit(w2, c, f, x);
    Unroll(w2, es[2..]);
  }

  /** One block of bytes is pending on a parked channel. */
  ghost predicate Drafted(w: Worker, c: nat, f: nat, x: seq<byte>) {
    && Inv(w) && c < |w.chans| && f < |w.pool.data| && w.pool.data[f] == x
    && w.chans[c] == Channel([f], [], 0, false, false, Parked, x, [], [], [])
  }

  lemma FirstAppend(w: Worker, c: nat, x: seq<byte>)
    requires Inv(w) && c < |w.chans| && w.pool.free != [] && w.cap > 0 && |x| <= w.pool.blockSize
    requires w.chans[c] == Channel([], [], 0, false, false, Parked, [], [], [], [])
    ensures var w' := Next(w, Append(c, x));
            && Drafted(w', c, w.pool.free[0], x) && w'.cap == w.cap
            && w'.pool.blockSize == w.pool.blockSize && w'.pool.free == w.pool.free[1..]
  {
    hide Inv, Next;
    Appends(w, c, x);
    assert [] + x == x;
  }

  lemma FirstSubmit(w: Worker, c: nat, f: nat, x: seq<byte>)
    requires Drafted(w, c, f, x) && w.cap > 0
    ensures var w' := Next(w, Submit(c, false));
            Underway(w', c, f, x) && w'.pool == w.pool && w'.cap == w.cap
  {
    hide Inv, Next;
    Submits(w, c);
    assert [] + [f] == [f] && [] + x == x;
    OneEntry(w.pool.data, f);
  }

  ghost function SendNothing(c: nat): seq<Event> {
    [Append(c, []), Submit(c, false)]
  }

  /** Bytes on their way and an empty block behind them. */
  ghost predicate NothingBehind(w: Worker, c: nat, f: nat, g: nat, x: seq<byte>) {
    && Inv(w) && c < |w.chans| && f != g && f < |w.pool.data| && g < |w.pool.data|
    && w.pool.data[f] == x && w.pool.data[g] == []
    && w.chans[c] == Channel([], [f, g], 0, true, false, Writing([Iovec(f, 0, |x|)]), [], x, [], [])
  }

  lemma SecondSubmit(w: Worker, c: nat, f: nat, x: seq<byte>)
    requires Underway(w, c, f, x) && w.cap > 1 && w.pool.free != []
    ensures var w1 := Next(w, Append(c, []));
            && Inv(w1) && w1.pool.blockSize == w.pool.blockSize
            && NothingBehind(Next(w1, Submit(c, false)), c, f, w.pool.free[0], x)
            && Next(w1, Submit(c, false)).pool == w1.pool
  {
    hide Inv, Next;
    var g := w.pool.free[0];
    Appends(w, c, []);
    assert f in [f];
    Submits(Next(w, Append(c, [])), c);
    assert [f] + [g] == [f, g] && x + [] == x;
  }

  lemma NothingQueuedBehind(w: Worker, c: nat, x: seq<byte>)
    requires Vacant(w, c) && |w.pool.free| > 1 && w.cap > 1 && 0 < |x| <= w.pool.blockSize
    ensures AllSane(Send(c, x) + SendNothing(c), w.pool.blockSize)
    ensures var r := Exec(w, Send(c, x) + SendNothing(c));
            NothingBehind(r, c, w.pool.free[0], w.pool.free[1], x) && r.pool.blockSize == w.pool.blockSize
  {
    hide Inv, Next, Step, Exec, NothingBehind;
    SendStarts(w, c, x);
    var es, w3 := SendNothing(c), Exec(w, Send(c, x));
    ExecConcat(w, Send(c, x), es);
    SecondSubmit(w3, c, w.pool.free[0], x);
    Unroll(w3, es);
    Unroll(Next(w3, es[0]), es[1..]);
  }

  lemma {:induction false} ExecConcat(w: Worker, a: seq<Event>, b: seq<Event>)
    requires Inv(w) && AllSane(a, w.pool.blockSize) && AllSane(b, w.pool.blockSize)
    ensures AllSane(a + b, w.pool.blockSize) && Exec(w, a).pool.blockSize == w.pool.blockSize
    ensures Exec(w, a + b) == Exec(Exec(w, a), b)
    decreases |a|
  {
    hide Inv, Next;
    if a == [] {
      assert a + b == b;
    } else {
      assert (a + b)[0] == a[0] && (a + b)[1..] == a[1..] + b;
      NextInv(w, a[0]);
      ExecConcat(Next(w, a[0]), a[1..], b);
    }
  }

  ghost function AckedThenOn(c: nat, n: nat): seq<Event> {
    [Complete(c, n), Continue(c, false)]
  }

  /** The empty block need not be alone: once the bytes before it are acknowledged, it is all that is left. */
  lemma EmptyTailEndsConnection(w: Worker, c: nat, x: seq<byte>)
    requires Vacant(w, c) && |w.pool.free| > 1 && w.cap > 1 && 0 < |x| <= w.pool.blockSize
    ensures AllSane((Send(c, x) + SendNothing(c)) + AckedThenOn(c, |x|), w.pool.blockSize)
    ensures var r := Exec(w, (Send(c, x) + SendNothing(c)) + AckedThenOn(c, |x|));
            && c < |r.chans| && r.chans[c].acked == x == r.chans[c].submitted
            && r.chans[c].at.Writing? && VecLen(r.chans[c].at.vec) == 0
            && Next(r, Complete(c, 0)).chans[c].at.Ended?
  {
    hide Inv, Next, Step, VecLen, Iovecs, Exec;
    var es, g := AckedThenOn(c, |x|), w.pool.free[1];
    NothingQueuedBehind(w, c, x);
    ExecConcat(w, Send(c, x) + SendNothing(c), es);
    var w5 := Exec(w, Send(c, x) + SendNothing(c));
    var w6 := Next(w5, es[0]);
    Acknowledges(w5, c, w.pool.free[0], g, x);
    Unroll(w5, es);
    Goes(w6, c, g);
    Unroll(w6, es[1..]);
    EmptyWriteEndsConnection(Next(w6, es[1]), c, 0);
  }

  /** All of the first block acknowledged, an empty second one left. */
  lemma Acknowledges(w: Worker, c: nat, f: nat, g: nat, x: seq<byte>)
    requires NothingBehind(w, c, f, g, x) && x != []
    ensures var w' := Next(w, Complete(c, |x|));
            && Inv(w') && |w'.chans| == |w.chans| && |w'.pool.data| == |w.pool.data| && w'.pool.data[g] == []
            && w'.pool.blockSize == w.pool.blockSize
            && w'.chans[c] == Channel([], [g], 0, true, false, InCallback, [], x, [], x)
  {
    var e := Complete(c, |x|);
    NextInv(w, e);
    OneStep(w, e);
    hide Inv, Holds, CompleteStep, Sound, Apart;
    FirstAcknowledged(w.pool, w.chans[c], f, g, x);
  }

  lemma FirstAcknowledged(p: Pool, ch: Channel, f: nat, g: nat, x: seq<byte>)
    requires Sound(p, ch) && Apart(ch.send) && f != g && f < |p.data| && g < |p.data|
    requires p.data[f] == x != [] && p.data[g] == []
    requires ch.send == [f, g] && ch.offset == 0 && ch.at == Writing([Iovec(f, 0, |x|)]) && ch.acked == []
    ensures CompleteStep(p, ch, |x|) == (Release(p, f), ch.(send := [g], at := InCallback, acked := x))
  {
    var v, s := [Iovec(f, 0, |x|)], Sending(p, [f, g], 0);
    ReadsOne(p.data, f);
    assert UnsentOf(s) == x by {
      UnsentIsSuffix(p.data, [f, g], 0);
      GatherTwo(p.data, f, g);
    }
    hide ReadVec, Unsent, Gather, Sound;
    assert Advance(s) == Sending(Release(p, f), [g], 0) by { assert [f, g][1..] == [g]; }
    hide Advance, Apart;
    ConsumeStep(s, |x|);
    ConsumeNothing(Advance(s));
    hide Consume;
    assert x[..|x|] == x && [] + x == x;
  }

  lemma ReadsOne(data: seq<seq<byte>>, f: nat)
    requires f < |data|
    ensures var v := [Iovec(f, 0, |data[f]|)];
            Readable(data, v) && ReadVec(data, v) == data[f]
  {
    var v, x := [Iovec(f, 0, |data[f]|)], data[f];
    assert v[1..] == [] && x[0..|x|] == x && x + [] == x;
  }

  lemma GatherTwo(data: seq<seq<byte>>, f: nat, g: nat)
    requires f < |data| && g < |data| && data[g] == []
    ensures InRange(data, [f, g]) && Gather(data, [f, g])[0..] == data[f]
  {
    assert [f, g][1..] == [g] && [g][1..] == [];
    assert Gather(data, [g]) == [];
  }

  /** The loop goes on with an empty block. */
  lemma Goes(w: Worker, c: nat, g: nat)
    requires Inv(w) && c < |w.chans| && g < |w.pool.data| && w.pool.data[g] == []
    requires w.chans[c].at.InCallback? && w.chans[c].send == [g] && !w.chans[c].closed && w.chans[c].offset == 0
    ensures var w' := Next(w, Continue(c, false));
            && Inv(w') && |w'.chans| == |w.chans|
            && w'.chans[c].at.Writing? && VecLen(w'.chans[c].at.vec) == 0
            && w'.chans[c] == w.chans[c].(at := w'.chans[c].at)
  {
    var e := Continue(c, false);
    NextInv(w, e);
    OneStep(w, e);
    CoversNone(w.pool.data, g);
    hide Inv, Holds, VecLen, Iovecs;
  }

  /** A failed write: the channel is closed, its blocks are free again, and its loop has ended. */
  lemma Fails(w: Worker, c: nat, f: nat, x: seq<byte>)
    requires Underway(w, c, f, x)
    ensures var w' := Next(w, Complete(c, -1));
            && Inv(w') && w'.pool == Release(w.pool, f) && w'.cap == w.cap && |w'.chans| == |w.chans|
            && w'.chans[c] == Channel([], [], 0, true, true, Ended, [], [], [], [])
  {
    var e := Complete(c, -1);
    NextInv(w, e);
    OneStep(w, e);
    ReadsOne(w.pool.data, f);
    hide Inv, Holds, ReadVec;
    assert [f] + [] == [f] && [f][1..] == [];
    assert ReleaseAll(w.pool, [f]) == Release(w.pool, f);
  }
}
