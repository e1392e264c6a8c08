/**
  What a connection inherits from calls made on its channel after the previous one ended.
  `assign` clears neither the send ring nor the pending list.
 */
module TcpReuse {
  import opened Bits
  import opened Blocks
  import opened WriteSpec
  import opened TcpWorker
  import opened TcpDrain
  import opened TcpRuns

  ghost predicate HoldsNothing(ch: Channel) {
    ch.send == [] && ch.pending == []
  }

  /** A connection as the application expects a new one: nothing to send, nothing drafted, nothing left over. */
  ghost predicate Clean(ch: Channel) {
    HoldsNothing(ch) && ch.carried == [] && ch.draft == []
  }

  /** A write loop that ends leaves the channel empty. */
  lemma EndsEmpty(w: Worker, e: Event, c: nat)
    requires Inv(w) && c < |w.chans| && !w.chans[c].at.Ended?
    ensures |Next(w, e).chans| == |w.chans|
    ensures Next(w, e).chans[c].at.Ended? ==> HoldsNothing(Next(w, e).chans[c])
  {
    if e.c == c {
      hide Inv, Step, Sound, Holds, Apart;
      OneStep(w, e);
      StepEndsEmpty(w.pool, w.cap, w.chans[c], e);
    }
  }

  lemma StepEndsEmpty(p: Pool, cap: nat, ch: Channel, e: Event)
    requires Sound(p, ch) && Holds(p, multiset(ch.pending) + multiset(ch.send)) && |ch.pending| <= cap && Apart(ch.send)
    requires !ch.at.Ended?
    ensures Step(p, cap, ch, e).1.at.Ended? ==> HoldsNothing(Step(p, cap, ch, e).1)
  {
    HoldsPart(p, multiset(ch.pending), multiset(ch.pending) + multiset(ch.send));
    hide AppendSpec, PrependSpec, Holds, Apart, ReleaseAll, Consume, Iovecs, Readable, ReadVec;
    if SubmitFits(ch, cap) {
      SubmitSound(p, ch);
    }
  }

  /**
    A connection starts with everything the channel holds: the send ring is what it sends first, and the pending list is
    the beginning of its first submit.  It is clean if and only if both were empty.
   */
  lemma ConnectionInherits(w: Worker, c: nat, busy: bool)
    requires Inv(w) && c < |w.chans| && w.chans[c].at.Ended?
    ensures Sound(w.pool, w.chans[c]) && InRange(w.pool.data, w.chans[c].pending)
    ensures |Next(w, Assign(c, busy)).chans| == |w.chans|
    ensures var was, ch := w.chans[c], Next(w, Assign(c, busy)).chans[c];
            && ch.send == was.send && ch.pending == was.pending && ch.submitted == [] && ch.acked == []
            && ch.carried == Unsent(w.pool.data, was.send, was.offset) && ch.draft == Gather(w.pool.data, was.pending)
            && (ch.at.Writing? <==> was.send != [])
            && (Clean(ch) <==> HoldsNothing(was))
  {
    var e := Assign(c, busy);
    OneStep(w, e);
    InvChan(w, c);
    NothingBefore(Unsent(w.pool.data, w.chans[c].send, w.chans[c].offset));
    hide Inv, Holds;
  }

  // ---------- Between the end and the next connection ----------

  /**
    The calls that put a block into the channel: an append that succeeds, or a prepend of at least one byte that does.
   */
  ghost predicate Adds(w: Worker, e: Event, c: nat)
    requires Inv(w) && c < |w.chans|
  {
    Share(w, c);
    InvChan(w, c);
    HoldsPart(w.pool, multiset(w.chans[c].pending), Mine(w.chans[c]));
    && e.c == c
    && ((e.Append? && AppendSpec(w.pool, w.chans[c].pending, w.cap, e.bytes).ok)
        || (e.Prepend? && e.bytes != [] && PrependSpec(w.pool, w.chans[c].pending, w.cap, e.bytes).ok))
  }

  ghost predicate Reopens(e: Event, c: nat) {
    e.Assign? && e.c == c
  }

  lemma WhileEnded(w: Worker, e: Event, c: nat)
    requires Inv(w) && Sane(e, w.pool.blockSize) && c < |w.chans| && w.chans[c].at.Ended? && !Reopens(e, c)
    ensures |Next(w, e).chans| == |w.chans| && Next(w, e).chans[c].at.Ended?
    ensures HoldsNothing(Next(w, e).chans[c]) <==> HoldsNothing(w.chans[c]) && !Adds(w, e, c)
  {
    if e.c == c {
      var p, ch := w.pool, w.chans[c];
      OneStep(w, e);
      InvChan(w, c);
      HoldsPart(p, multiset(ch.pending), multiset(ch.pending) + multiset(ch.send));
      if e.Append? {
        AppendTakes(p, ch.pending, w.cap, e.bytes);
      } else if e.Prepend? {
        SmallBlocks(w);
        PrependTakes(p, ch.pending, w.cap, e.bytes);
      } else {
        SubmitSound(p, ch);
      }
      hide Inv, Holds, AppendSpec, PrependSpec;
    }
  }

  lemma AppendTakes(p: Pool, pending: seq<nat>, cap: nat, bytes: seq<byte>)
    requires Holds(p, multiset(pending)) && |pending| <= cap
    ensures var o := AppendSpec(p, pending, cap, bytes);
            if o.ok then o.pending != [] else o.pending == pending
  {
    HoldsIndices(p, pending);
  }

  lemma PrependTakes(p: Pool, pending: seq<nat>, cap: nat, bytes: seq<byte>)
    requires Holds(p, multiset(pending)) && |pending| <= cap && p.blockSize < U32 && |bytes| + p.blockSize <= U32
    ensures var o := PrependSpec(p, pending, cap, bytes);
            if o.ok && bytes != [] then o.pending != [] else o.pending == pending
  {
    HoldsIndices(p, pending);
    BlocksForPrependExact(|bytes|, p.blockSize);
    var e := BlocksForPrepend(|bytes|, p.blockSize);
    assert bytes == [] ==> p.free[..0] + pending == pending;
  }

  /** No append or prepend on channel `c` succeeds during the run. */
  ghost predicate Quiet(w: Worker, es: seq<Event>, c: nat)
    requires Inv(w) && AllSane(es, w.pool.blockSize) && c < |w.chans|
    decreases |es|
  {
    es == [] ||
    (NextInv(w, es[0]);
     !Adds(w, es[0], c) && |Next(w, es[0]).chans| == |w.chans| && Quiet(Next(w, es[0]), es[1..], c))
  }

  lemma {:induction false} UntilReopened(w: Worker, es: seq<Event>, c: nat)
    requires Inv(w) && AllSane(es, w.pool.blockSize) && c < |w.chans| && w.chans[c].at.Ended?
    requires forall i :: 0 <= i < |es| ==> !Reopens(es[i], c)
    ensures var r := Exec(w, es);
            && |r.chans| == |w.chans| && r.chans[c].at.Ended?
            && (HoldsNothing(r.chans[c]) <==> HoldsNothing(w.chans[c]) && Quiet(w, es, c))
    decreases |es|
  {
    hide Inv, Next, Adds, HoldsNothing, Sane;
    if es != [] {
      NextInv(w, es[0]);
      WhileEnded(w, es[0], c);
      UntilReopened(Next(w, es[0]), es[1..], c);
    }
  }

  /**
    From the end of one connection of a channel, in any run up to the next assignment: the new connection is clean if
    and only if no append or prepend on the channel succeeded in between.
   */
  lemma NextConnectionCleanIff(w: Worker, last: Event, es: seq<Event>, c: nat, busy: bool)
    requires Inv(w) && Sane(last, w.pool.blockSize) && AllSane(es, w.pool.blockSize) && c < |w.chans|
    requires |Next(w, last).chans| == |w.chans| && !w.chans[c].at.Ended? && Next(w, last).chans[c].at.Ended?
    requires forall i :: 0 <= i < |es| ==> !Reopens(es[i], c)
    ensures Inv(Next(w, last)) && AllSane(es, Next(w, last).pool.blockSize)
    ensures var r := Exec(Next(w, last), es);
            && |Next(r, Assign(c, busy)).chans| == |w.chans|
            && (Clean(Next(r, Assign(c, busy)).chans[c]) <==> Quiet(Next(w, last), es, c))
  {
    hide Inv, Next, Adds, HoldsNothing, Sane, Clean, Quiet;
    NextInv(w, last);
    EndsEmpty(w, last, c);
    UntilReopened(Next(w, last), es, c);
    ConnectionInherits(Exec(Next(w, last), es), c, busy);
  }

  // ---------- Two runs that hand bytes to the wrong connection ----------

  /** Closing an idle channel while a receive is outstanding leaves its loop parked, and the last completion ends it. */
  lemma Closes(w: Worker, c: nat)
    requires Inv(w) && c < |w.chans| && w.chans[c] == Channel([], [], 0, false, false, Parked, [], [], [], [])
    ensures var w' := Next(w, Close(c, true));
            && Inv(w') && w'.pool == w.pool && w'.cap == w.cap && |w'.chans| == |w.chans|
            && w'.chans[c] == Channel([], [], 0, false, true, Parked, [], [], [], [])
  {
    var e := Close(c, true);
    NextInv(w, e);
    OneStep(w, e);
    hide Inv, Holds;
  }

  lemma Drains(w: Worker, c: nat)
    requires Inv(w) && c < |w.chans| && w.chans[c] == Channel([], [], 0, false, true, Parked, [], [], [], [])
    ensures var w' := Next(w, Event.Drained(c, false));
            && Vacant(w', c) && w'.pool == w.pool && w'.cap == w.cap
            && w'.chans[c] == Channel([], [], 0, false, true, Ended, [], [], [], [])
  {
    var e := Event.Drained(c, false);
    NextInv(w, e);
    OneStep(w, e);
    hide Inv, Holds;
  }

  /** A connection that came and went. */
  ghost function ComeAndGo(c: nat): seq<Event> {
    [Assign(c, false), Close(c, true), Event.Drained(c, false)]
  }

  lemma CameAndWent(w: Worker, c: nat)
    requires Vacant(w, c)
    ensures AllSane(ComeAndGo(c), w.pool.blockSize)
    ensures var r := Exec(w, ComeAndGo(c));
            && Vacant(r, c) && r.pool == w.pool && r.cap == w.cap
            && r.chans[c] == Channel([], [], 0, false, true, Ended, [], [], [], [])
  {
    hide Inv, Next, Exec;
    var es := ComeAndGo(c);
    var w1 := Next(w, es[0]);
    Opens(w, c);
    Unroll(w, es);
    Closes(w1, c);
    Unroll(w1, es[1..]);
    Drains(Next(w1, es[1]), c);
    Unroll(Next(w1, es[1]), es[2..]);
  }

  /** Bytes appended after the end are the beginning of the next connection's first submit. */
  lemma DraftInherited(w: Worker, c: nat, x: seq<byte>)
    requires Vacant(w, c) && w.pool.free != [] && w.cap > 0 && 0 < |x| <= w.pool.blockSize
    ensures AllSane(ComeAndGo(c) + [Append(c, x)], w.pool.blockSize)
    ensures var r := Exec(w, ComeAndGo(c) + [Append(c, x)]);
            && c < |r.chans| && r.chans[c].at.Ended?
            && Next(r, Assign(c, false)).chans[c]
               == Channel([w.pool.free[0]], [], 0, false, false, Parked, x, [], [], [])
  {
    LateAppend(w, c, x);
    var r := Exec(w, ComeAndGo(c) + [Append(c, x)]);
    hide Exec;
    OneStep(r, Assign(c, false));
  }

  lemma LateAppend(w: Worker, c: nat, x: seq<byte>)
    requires Vacant(w, c) && w.pool.free != [] && w.cap > 0 && 0 < |x| <= w.pool.blockSize
    ensures AllSane(ComeAndGo(c) + [Append(c, x)], w.pool.blockSize)
    ensures w.pool.free[0] < |w.pool.data|
    ensures var r, f := Exec(w, ComeAndGo(c) + [Append(c, x)]), w.pool.free[0];
            && r.pool == w.pool.(free := w.pool.free[1..], data := w.pool.data[f := x]) && r.cap == w.cap
            && c < |r.chans| && r.chans[c] == Channel([f], [], 0, false, true, Ended, x, [], [], [])
  {
    SmallBlocks(w);
    hide Inv, Next, Exec;
    CameAndWent(w, c);
    var r := Exec(w, ComeAndGo(c));
    var e := Append(c, x);
    ExecConcat(w, ComeAndGo(c), [e]);
    Unroll(r, [e]);
    Appends(r, c, x);
    assert [] + x == x;
  }

  /** Bytes submitted after the end are the first bytes the next connection sends. */
  lemma BytesInherited(w: Worker, c: nat, x: seq<byte>)
    requires Vacant(w, c) && w.pool.free != [] && w.cap > 0 && 0 < |x| <= w.pool.blockSize
    ensures AllSane((ComeAndGo(c) + [Append(c, x)]) + [Submit(c, false)], w.pool.blockSize)
    ensures var r := Exec(w, (ComeAndGo(c) + [Append(c, x)]) + [Submit(c, false)]);
            && c < |r.chans| && r.chans[c].at.Ended?
            && var ch := Next(r, Assign(c, false)).chans[c];
               ch.carried == x && ch.at == Writing([Iovec(w.pool.free[0], 0, |x|)])
  {
    LateAppend(w, c, x);
    hide Inv, Next, Exec;
    var f, q, e := w.pool.free[0], Exec(w, ComeAndGo(c) + [Append(c, x)]), Submit(c, false);
    ExecConcat(w, ComeAndGo(c) + [Append(c, x)], [e]);
    Unroll(q, [e]);
    LateSubmit(q, c, f, x);
    Inherits(Next(q, e), c, f, x);
  }

  lemma LateSubmit(w: Worker, c: nat, f: nat, x: seq<byte>)
    requires Inv(w) && c < |w.chans| && w.cap > 0
    requires w.chans[c] == Channel([f], [], 0, w.chans[c].flag, true, Ended, x, [], [], [])
    ensures var w' := Next(w, Submit(c, false));
            && Inv(w') && w'.pool == w.pool && |w'.chans| == |w.chans|
            && w'.chans[c] == Channel([], [f], 0, true, true, Ended, [], x, [], [])
  {
    var e := Submit(c, false);
    NextInv(w, e);
    OneStep(w, e);
    hide Inv, Holds;
    assert [] + [f] == [f] && [] + x == x;
  }

  lemma Inherits(w: Worker, c: nat, f: nat, x: seq<byte>)
    requires Inv(w) && c < |w.chans| && f < |w.pool.data| && w.pool.data[f] == x
    requires w.chans[c] == Channel([], [f], 0, true, true, Ended, [], x, [], [])
    ensures Next(w, Assign(c, false)).chans[c]
            == Channel([], [f], 0, false, false, Writing([Iovec(f, 0, |x|)]), [], [], x, [])
  {
    OneStep(w, Assign(c, false));
    OneEntry(w.pool.data, f);
    hide Inv, Holds, Iovecs;
    assert [] + x == x;
  }
}
