/**
  The echo server as its client sees it: which of the bytes that arrive are passed on at each
  call of the handler, and which come back, counted by the kernel's results.
 */
module EchoView {
  import opened Bits
  import opened Blocks
  import opened WriteSpec
  import opened ReadSpec
  import opened Echo
  import T = TcpWorker
  import R = Receiver
  import V = TcpView

  // ---------- One call of the handler ----------

  /** The write side after an append of every fragment, refused or not. */
  ghost function AfterAppends(w: T.Worker, c: nat, data: seq<seq<byte>>, v: seq<Iovec>): (r: T.Worker)
    requires T.Inv(w) && c < |w.chans| && Readable(data, v) && Small(v)
    ensures T.Inv(r) && |r.chans| == |w.chans|
    decreases |v|
  {
    if v == [] then w
    else
      var bytes := ReadOne(data, v[0]);
      T.NextInv(w, T.Append(c, bytes));
      V.SameCount(w, T.Append(c, bytes));
      AfterAppends(T.Next(w, T.Append(c, bytes)), c, data, v[1..])
  }

  /** No fragment is refused. */
  ghost predicate NoneRefused(w: T.Worker, c: nat, data: seq<seq<byte>>, v: seq<Iovec>)
    requires T.Inv(w) && c < |w.chans| && Readable(data, v) && Small(v)
    decreases |v|
  {
    v == [] ||
    (var bytes := ReadOne(data, v[0]);
     T.NextInv(w, T.Append(c, bytes));
     V.SameCount(w, T.Append(c, bytes));
     Accepts(w, c, bytes) && NoneRefused(T.Next(w, T.Append(c, bytes)), c, data, v[1..]))
  }

  /**
    The handler appends fragment after fragment up to the first that is refused, if any: what it accepts is exactly what
    those before it hold.
   */
  lemma {:induction false} AcceptsUpToRefusal(w: T.Worker, c: nat, data: seq<seq<byte>>, v: seq<Iovec>) returns (k: nat)
    requires T.Inv(w) && c < |w.chans| && Readable(data, v) && Small(v)
    ensures k <= |v| && Readable(data, v[..k]) && Small(v[..k]) && NoneRefused(w, c, data, v[..k])
    ensures AppendAll(w, c, data, v).1 == ReadVec(data, v[..k])
    ensures k < |v| ==> !Accepts(AfterAppends(w, c, data, v[..k]), c, ReadOne(data, v[k]))
    ensures k == |v| <==> NoneRefused(w, c, data, v)
    ensures k == |v| ==> AppendAll(w, c, data, v).0 == AfterAppends(w, c, data, v)
    decreases |v|
  {
    hide T.Inv, T.Next, Accepts;
    k := 0;
    if v != [] {
      var bytes := ReadOne(data, v[0]);
      T.NextInv(w, T.Append(c, bytes));
      V.SameCount(w, T.Append(c, bytes));
      if Accepts(w, c, bytes) {
        var w' := T.Next(w, T.Append(c, bytes));
        var k' := AcceptsUpToRefusal(w', c, data, v[1..]);
        k := k' + 1;
        assert v[..k][1..] == v[1..][..k'];
        ReadVecFirst(data, v[..k]);
      }
    }
    if k == |v| {
      assert v[..k] == v;
    }
  }

  /** What the handler takes over from the reader in one call. */
  ghost function Accepted(e: Echo, c: nat): seq<byte>
    requires Inv(e) && c < |e.heads|
  {
    AppendAll(e.w, c, e.s.ring.data, Peeked(e, c)).1
  }

  /** No fragment the handler sees is refused, and it sees them all. */
  ghost predicate Unhindered(e: Echo, c: nat)
    requires Inv(e) && c < |e.heads|
  {
    !BlindAt(e, c) && NoneRefused(e.w, c, e.s.ring.data, Peeked(e, c))
  }

  /** Unhindered, the handler takes over everything unread. */
  lemma AcceptsEverything(e: Echo, c: nat)
    requires Inv(e) && c < |e.heads| && Unhindered(e, c)
    ensures R.ReaderOk(e.s.ring, e.s.readers[c])
    ensures Accepted(e, c) == UnsentOf(R.Unread(e.s.ring, e.s.readers[c]))
  {
    var rd := e.s.readers[c];
    var v := Peeked(e, c);
    var u := UnsentOf(R.Unread(e.s.ring, rd));
    PeekIsPrefix(e.s.ring.data, rd.queue, rd.offset, |u|);
    assert v == PeekVec(e.s.ring.data, rd.queue, rd.offset, |u|);
    hide PeekVec, T.Inv, R.Inv, NoneRefused, AppendAll, Unsent, Peeked;
    var k := AcceptsUpToRefusal(e.w, c, e.s.ring.data, v);
    assert v[..k] == v && u[..|u|] == u;
  }

  /**
    A call of `on_read` consumes exactly what it took over; unhindered, nothing is left unread; and nothing is received
    by it.
   */
  lemma HandlerConsumes(e: Echo, c: nat, busy: bool)
    requires Inv(e) && c < |e.heads|
    ensures var rd, s' := e.s.readers[c], Next(e, OnRead(c, busy)).s;
            && c < |s'.readers| && s'.readers[c].received == rd.received
            && s'.readers[c].consumed == rd.consumed + Accepted(e, c)
            && (Unhindered(e, c) ==> s'.readers[c].consumed == rd.received)
  {
    hide T.Inv, R.Inv, PeekVec, T.Next, R.Next, AppendAll, R.ReaderOk, Unhindered, Peeked;
    var v := Peeked(e, c);
    AppendAllEffect(e.w, c, e.s.ring.data, v);
    var r := AppendAll(e.w, c, e.s.ring.data, v);
    NothingAfter(e.s.readers[c].consumed);
    if r.1 != [] {
      DropHistory(e.s, c, r.1);
      R.StepTallies(e.s, R.Drop(c, |r.1|), c);
    }
    StagesAre(e, c);
    if Unhindered(e, c) {
      AcceptsEverything(e, c);
    }
  }

  /** The call then submits its whole draft, what it took over at the end, unless that does not fit the send ring. */
  lemma HandlerSubmits(e: Echo, c: nat, busy: bool)
    requires Inv(e) && c < |e.heads| && KeepsOpen(e, OnRead(c, busy), c)
    ensures var mid := AppendAll(e.w, c, e.s.ring.data, Peeked(e, c)).0;
            var w', t, x := Next(e, OnRead(c, busy)).w, V.TalkOf(e.w.chans[c]), Accepted(e, c);
            && T.Inv(mid) && c < |mid.chans| && c < |w'.chans|
            && V.TalkOf(w'.chans[c]) ==
                 if x != [] && V.Counts(mid, T.Submit(c, busy)) then V.Talk([], t.said + (t.draft + x), t.heard)
                 else V.Talk(t.draft + x, t.said, t.heard)
  {
    NextInv(e, OnRead(c, busy));
    hide T.Inv, R.Inv, PeekVec, T.Next, R.Next, AppendAll, R.ReaderOk, Peeked, V.Counts;
    var v := Peeked(e, c);
    AppendAllEffect(e.w, c, e.s.ring.data, v);
    var r := AppendAll(e.w, c, e.s.ring.data, v);
    if r.1 != [] {
      V.StepTalks(r.0, T.Submit(c, busy), c);
    }
  }

  // ---------- From the client's bytes to the kernel's results ----------

  /** The bytes this event brings channel `c`. */
  ghost function Brings(e: Echo, ev: Event, c: nat): seq<byte> {
    if ev.Deliver? && ev.c == c && R.Arrives(e.s, R.Deliver(ev.c, ev.k, ev.bytes)) then ev.bytes else []
  }

  /** The bytes of channel `c` this event reports written. */
  ghost function Confirms(e: Echo, ev: Event, c: nat): nat {
    if ev.Written? && ev.c == c < |e.w.chans| && e.w.chans[c].at.Writing? && 0 < ev.res <= T.VecLen(e.w.chans[c].at.vec)
    then ev.res else 0
  }

  ghost function Brought(e: Echo, evs: seq<Event>, c: nat): seq<byte>
    requires Inv(e)
    decreases |evs|
  {
    if evs == [] then []
    else
      NextInv(e, evs[0]);
      Brings(e, evs[0], c) + Brought(Next(e, evs[0]), evs[1..], c)
  }

  ghost function Confirmed(e: Echo, evs: seq<Event>, c: nat): nat
    requires Inv(e)
    decreases |evs|
  {
    if evs == [] then 0
    else
      NextInv(e, evs[0]);
      Confirms(e, evs[0], c) + Confirmed(Next(e, evs[0]), evs[1..], c)
  }

  lemma OtherRead(e: Echo, d: nat, busy: bool, c: nat)
    requires Inv(e) && c < |e.heads| && d < |e.heads| && d != c
    ensures var e' := Next(e, OnRead(d, busy));
            c < |e'.s.readers| && e'.s.readers[c] == e.s.readers[c]
  {
    hide T.Inv, R.Inv, R.Next, T.Next, AppendAll, PeekVec, R.ReaderOk, Peeked;
    var v := Peeked(e, d);
    AppendAllEffect(e.w, d, e.s.ring.data, v);
    var r := AppendAll(e.w, d, e.s.ring.data, v);
    if r.1 != [] {
      DropHistory(e.s, d, r.1);
    }
  }

  lemma StepBrings(e: Echo, ev: Event, c: nat)
    requires Inv(e) && c < |e.heads| && ev != ReadEnds(c)
    ensures c < |Next(e, ev).s.readers|
    ensures Next(e, ev).s.readers[c].received == e.s.readers[c].received + Brings(e, ev, c)
  {
    NothingAfter(e.s.readers[c].received);
    hide T.Inv, R.Inv, R.Next, T.Next, ReadStep;
    if ev.c < |e.heads| {
      match ev {
        case Deliver(d, k, bytes) => R.StepTallies(e.s, R.Deliver(d, k, bytes), c);
        case OnRead(d, busy) =>
          if d == c {
            HandlerConsumes(e, c, busy);
          } else {
            OtherRead(e, d, busy, c);
          }
        case ReadEnds(d) => R.StepTallies(e.s, R.Reset(d), c);
        case _ =>
      }
    }
  }

  lemma OtherHeard(e: Echo, d: nat, busy: bool, c: nat)
    requires Inv(e) && c < |e.heads| && d < |e.heads| && d != c
    ensures var w' := Next(e, OnRead(d, busy)).w;
            c < |w'.chans| && w'.chans[c] == e.w.chans[c]
  {
    hide T.Inv, R.Inv, R.Next, T.Next, AppendAll, PeekVec, R.ReaderOk, Peeked, Accounted;
    var v := Peeked(e, d);
    AppendAllEffect(e.w, d, e.s.ring.data, v);
    var r := AppendAll(e.w, d, e.s.ring.data, v);
    if r.1 != [] {
      WriteSideFrame(r.0, T.Submit(d, busy));
    }
  }

  lemma WriteSideHeard(e: Echo, ev: Event, c: nat)
    requires Inv(e) && c < |e.heads| && ev.c < |e.heads| && KeepsOpen(e, ev, c)
    requires !ev.Deliver? && !ev.OnRead? && !ev.ReadEnds?
    ensures var w' := Next(e, ev).w;
            c < |w'.chans| && |w'.chans[c].acked| == |e.w.chans[c].acked| + Confirms(e, ev, c)
  {
    hide T.Inv, R.Inv, T.Next;
    V.SameCount(e.w, OnWriteSide(ev));
    V.StepTalks(e.w, OnWriteSide(ev), c);
  }

  lemma StepConfirms(e: Echo, ev: Event, c: nat)
    requires Inv(e) && c < |e.heads| && KeepsOpen(e, ev, c)
    ensures c < |Next(e, ev).w.chans|
    ensures |Next(e, ev).w.chans[c].acked| == |e.w.chans[c].acked| + Confirms(e, ev, c)
  {
    hide T.Inv, R.Inv, R.Next, T.Next, ReadStep, KeepsOpen;
    if ev.c < |e.heads| {
      if ev.OnRead? && ev.c == c {
        HandlerSubmits(e, c, ev.busy);
      } else if ev.OnRead? {
        OtherHeard(e, ev.c, ev.busy, c);
      } else if !ev.Deliver? && !ev.ReadEnds? {
        WriteSideHeard(e, ev, c);
      }
    }
  }

  lemma {:induction false} RunBrings(e: Echo, evs: seq<Event>, c: nat)
    requires Inv(e) && c < |e.heads| && StaysOpen(e, evs, c)
    ensures var r := Exec(e, evs);
            && r.s.readers[c].received == e.s.readers[c].received + Brought(e, evs, c)
            && |r.w.chans[c].acked| == |e.w.chans[c].acked| + Confirmed(e, evs, c)
    decreases |evs|
  {
    hide T.Inv, R.Inv, Next, KeepsOpen, Brings, Confirms;
    NothingAfter(e.s.readers[c].received);
    if evs != [] {
      NextInv(e, evs[0]);
      assert evs[0] != ReadEnds(c) by { NotItsEnd(e, evs[0], c); }
      StepBrings(e, evs[0], c);
      StepConfirms(e, evs[0], c);
      RunBrings(Next(e, evs[0]), evs[1..], c);
      Assoc(e.s.readers[c].received, Brings(e, evs[0], c), Brought(Next(e, evs[0]), evs[1..], c));
    }
  }

  lemma NotItsEnd(e: Echo, ev: Event, c: nat)
    requires Inv(e) && c < |e.heads| && KeepsOpen(e, ev, c)
    ensures ev != ReadEnds(c)
  {
  }

  /**
    End to end, in every run in which neither loop of a channel ends: what the peer is known to have is the first bytes
    of what the write side held at first, followed by everything that arrived and was not yet consumed then, as many as
    the kernel's results add up to.
   */
  lemma WhatComesBack(e: Echo, evs: seq<Event>, c: nat)
    requires Inv(e) && c < |e.heads| && StaysOpen(e, evs, c)
    ensures var rd, ch := e.s.readers[c], e.w.chans[c];
            var came, n := rd.received + Brought(e, evs, c), |ch.acked| + Confirmed(e, evs, c);
            && rd.consumed <= came && n <= |Ledger(ch) + came[|rd.consumed|..]|
            && Exec(e, evs).w.chans[c].acked == (Ledger(ch) + came[|rd.consumed|..])[..n]
  {
    hide *;
    RunBrings(e, evs, c);
    OpenConnection(e, evs, c);
    AckedFirst(Exec(e, evs), c);
    Front(Exec(e, evs).w.chans[c].acked, Stages(Exec(e, evs), c));
  }

  lemma Front(a: seq<byte>, b: seq<byte>)
    requires a <= b
    ensures |a| <= |b| && a == b[..|a|]
  {
  }

  lemma AckedFirst(e: Echo, c: nat)
    requires Inv(e) && c < |e.heads|
    ensures c < |e.w.chans| && e.w.chans[c].acked <= Stages(e, c)
  {
    hide T.Inv, R.Inv, Unsent, Gather, R.ReaderOk;
  }

  /** The write loop of an echo channel goes where a write loop should, event by event. */
  lemma WriteLoopMoves(e: Echo, ev: Event)
    requires Inv(e) && ev.c < |e.heads| && !ev.Deliver? && !ev.OnRead? && !ev.ReadEnds?
    ensures Next(e, ev).s == e.s && ev.c < |e.w.chans| == |Next(e, ev).w.chans|
    ensures match ev
            case Written(c, res) => V.Moves(e.w, T.Complete(c, res), Next(e, ev).w)
            case Returned(c, busy) => V.Moves(e.w, T.Continue(c, busy), Next(e, ev).w)
            case Close(c, busy) => V.Moves(e.w, T.Close(c, busy), Next(e, ev).w)
            case Drained(c, busy) => V.Moves(e.w, T.Drained(c, busy), Next(e, ev).w)
            case Assign(c, busy) => V.Moves(e.w, T.Assign(c, busy), Next(e, ev).w)
            case _ => true
  {
    hide T.Inv, R.Inv, T.Next, V.Moves;
    V.SameCount(e.w, OnWriteSide(ev));
    V.StepMoves(e.w, OnWriteSide(ev));
  }

  // ---------- The read side ----------

  /** The end of the read loop leaves the reader empty and its counters at zero, and the write side alone. */
  lemma ReadEndsClears(e: Echo, c: nat)
    requires Inv(e) && c < |e.heads|
    ensures var e' := Next(e, ReadEnds(c));
            && c < |e'.s.readers| && e'.s.readers[c] == R.Reader([], 0, [], [])
            && e'.heads == e.heads[c := 0] && e'.w == e.w
  {
    hide T.Inv, R.Inv, R.Next;
    ResetFrame(e.s, c);
  }

  /** The read counters count the blocks that came: those given back and those still queued. */
  lemma StepCountsBlocks(e: Echo, ev: Event, c: nat)
    requires Inv(e) && c < |e.heads| && ev != ReadEnds(c)
    ensures var e' := Next(e, ev);
            && c < |e'.heads| && c < |e'.s.readers|
            && e'.heads[c] + |e'.s.readers[c].queue|
               == e.heads[c] + |e.s.readers[c].queue| + if Brings(e, ev, c) != [] then 1 else 0
  {
    hide T.Inv, R.Inv, R.Next, T.Next, ReadStep;
    if ev.c < |e.heads| {
      match ev {
        case Deliver(d, k, bytes) =>
          DeliverFrame(e.s, d, k, bytes);
          if d == c {
            DeliverQueues(e.s, c, k, bytes);
          }
        case OnRead(d, busy) => ReadCountsBlocks(e, d, busy, c);
        case ReadEnds(d) => ResetFrame(e.s, d);
        case _ =>
      }
    }
  }

  lemma DeliverQueues(s: R.Receiver, c: nat, k: nat, bytes: seq<byte>)
    requires R.Inv(s) && c < |s.readers|
    ensures var s' := R.Next(s, R.Deliver(c, k, bytes));
            && c < |s'.readers|
            && |s'.readers[c].queue|
               == |s.readers[c].queue| + if R.Arrives(s, R.Deliver(c, k, bytes)) then 1 else 0
  {
    OneShare(s.ring, R.Queues(s.readers), c);
    R.QueueBound(s.ring, s.readers[c].queue, k);
    hide Total, Holds, Without;
  }

  lemma ReadCountsBlocks(e: Echo, d: nat, busy: bool, c: nat)
    requires Inv(e) && c < |e.heads| && d < |e.heads|
    ensures var e' := ReadStep(e, d, busy);
            && c < |e'.heads| && c < |e'.s.readers|
            && e'.heads[c] + |e'.s.readers[c].queue| == e.heads[c] + |e.s.readers[c].queue|
  {
    hide T.Inv, R.Inv, R.Next, T.Next, AppendAll, PeekVec, R.ReaderOk, Peeked;
    var v := Peeked(e, d);
    AppendAllEffect(e.w, d, e.s.ring.data, v);
    var r := AppendAll(e.w, d, e.s.ring.data, v);
    if r.1 != [] {
      DropHistory(e.s, d, r.1);
    }
  }

  /** The blocks brought to channel `c` in the run. */
  ghost function BlocksBrought(e: Echo, evs: seq<Event>, c: nat): nat
    requires Inv(e)
    decreases |evs|
  {
    if evs == [] then 0
    else
      NextInv(e, evs[0]);
      (if Brings(e, evs[0], c) != [] then 1 else 0) + BlocksBrought(Next(e, evs[0]), evs[1..], c)
  }

  /**
    In every run in which the read loop of a channel does not end, its read side goes blind exactly when the blocks that
    came since the counters were at zero take the 32-bit tail past the head.
   */
  lemma {:induction false} CountersCountBlocks(e: Echo, evs: seq<Event>, c: nat)
    requires Inv(e) && c < |e.heads| && forall i :: 0 <= i < |evs| ==> evs[i] != ReadEnds(c)
    ensures var r := Exec(e, evs);
            && c < |r.s.readers|
            && r.heads[c] + |r.s.readers[c].queue|
               == e.heads[c] + |e.s.readers[c].queue| + BlocksBrought(e, evs, c)
            && (BlindAt(r, c) <==>
                  (e.heads[c] + |e.s.readers[c].queue| + BlocksBrought(e, evs, c)) % U32 < r.heads[c] % U32)
    decreases |evs|
  {
    hide T.Inv, R.Inv, Next, Brings;
    if evs != [] {
      NextInv(e, evs[0]);
      StepCountsBlocks(e, evs[0], c);
      CountersCountBlocks(Next(e, evs[0]), evs[1..], c);
    }
  }
}
