/**
  End to end: the documented echo handler on a worker whose receiving and sending sides are
  the systems of `Receiver` and `TcpWorker`.  While a connection is open, what its write side
  held at first and then the bytes received are the bytes acknowledged, then those in the
  send ring, then those pending, then those unread.
 */
module Echo {
  import opened Bits
  import opened Blocks
  import opened WriteSpec
  import opened ReadSpec
  import T = TcpWorker
  import R = Receiver

  /**
    `heads[c]` counts the blocks channel `c` has given back since its read side was last reset: `head_` before it wraps.
   */
  datatype Echo = Echo(w: T.Worker, s: R.Receiver, heads: seq<nat>)

  datatype Event =
    | Deliver(c: nat, k: nat, bytes: seq<byte>)
    | OnRead(c: nat, busy: bool)
    | ReadEnds(c: nat)
    | Written(c: nat, res: int)
    | Returned(c: nat, busy: bool)
    | Close(c: nat, busy: bool)
    | Drained(c: nat, busy: bool)
    | Assign(c: nat, busy: bool)

  ghost predicate Inv(e: Echo) {
    && T.Inv(e.w) && R.Inv(e.s) && e.s.ring.blockSize < U32 && |e.s.ring.data| < U32
    && |e.w.chans| == |e.s.readers| == |e.heads|
  }

  // ---------- The ledger of one channel ----------

  /** Everything the write side of a channel accounts for. */
  ghost function Ledger(ch: T.Channel): seq<byte> {
    (ch.carried + ch.submitted) + ch.draft
  }

  /** A step that keeps the ledger, or ends the loop and empties it. */
  ghost predicate Accounted(ch: T.Channel, ch': T.Channel) {
    if ch'.at.Ended? && !ch.at.Ended? then Ledger(ch') == [] else Ledger(ch') == Ledger(ch)
  }

  /** Every step on the write side other than append and prepend is accounted for. */
  lemma LedgerKept(p: Pool, cap: nat, ch: T.Channel, e: T.Event)
    requires T.Sound(p, ch) && Holds(p, multiset(ch.pending) + multiset(ch.send)) && |ch.pending| <= cap
    requires Apart(ch.send)
    requires !e.Append? && !e.Prepend?
    ensures Accounted(ch, T.Step(p, cap, ch, e).1)
  {
    match e {
      case Submit(_, busy) => SubmitAccounted(p, cap, ch, busy);
      case Complete(_, res) => CompleteAccounted(p, ch, res);
      case Continue(_, busy) =>
        if ch.at.InCallback? {
          LoopLedger(p, ch, busy);
        }
      case Close(_, busy) =>
        SoundOf(p, ch, ch.(closed := true));
        NotifyLedger(p, ch.(closed := true), busy);
      case Drained(_, busy) => NotifyLedger(p, ch, busy);
      case Assign(_, busy) => AssignAccounted(p, ch, busy);
    }
    hide *;
    StepCases(p, cap, ch, e);
  }

  /** The step function, event by event. */
  lemma StepCases(p: Pool, cap: nat, ch: T.Channel, e: T.Event)
    requires T.Sound(p, ch) && Holds(p, multiset(ch.pending) + multiset(ch.send)) && |ch.pending| <= cap
    requires Apart(ch.send)
    requires !e.Append? && !e.Prepend?
    requires e.Submit? ==> Accounted(ch, T.SubmitStep(p, cap, ch, e.busy).1)
    requires e.Complete? ==> Accounted(ch, T.CompleteStep(p, ch, e.res).1)
    requires e.Continue? && ch.at.InCallback? ==> Accounted(ch, T.LoopTop(p, ch, e.busy).1)
    requires e.Close? ==>
               && T.Sound(p, ch.(closed := true))
               && Accounted(ch.(closed := true), T.Notify(p, ch.(closed := true), e.busy).1)
    requires e.Drained? ==> Accounted(ch, T.Notify(p, ch, e.busy).1)
    requires e.Assign? ==> Accounted(ch, T.AssignStep(p, ch, e.busy).1)
    ensures Accounted(ch, T.Step(p, cap, ch, e).1)
  {
    hide Holds, T.Sound, Apart, T.SubmitStep, T.CompleteStep, T.LoopTop, T.Notify, T.AssignStep;
  }

  lemma SubmitAccounted(p: Pool, cap: nat, ch: T.Channel, busy: bool)
    requires T.Sound(p, ch)
    ensures Accounted(ch, T.SubmitStep(p, cap, ch, busy).1)
  {
    hide T.Sound, T.Notify;
    if T.SubmitFits(ch, cap) {
      T.SubmitSound(p, ch);
      NotifyLedger(p, T.Submitted(ch), busy);
      SubmitLedger(ch);
    }
  }

  lemma CompleteAccounted(p: Pool, ch: T.Channel, res: int)
    requires T.Sound(p, ch) && Apart(ch.send)
    ensures Accounted(ch, T.CompleteStep(p, ch, res).1)
  {
    hide Apart, Consume, ReadVec, UnsentOf, Readable;
  }

  lemma AssignAccounted(p: Pool, ch: T.Channel, busy: bool)
    requires T.Sound(p, ch)
    ensures Accounted(ch, T.AssignStep(p, ch, busy).1)
  {
    var next := ch.(flag := false, closed := false, carried := ch.carried + ch.submitted, submitted := []);
    SoundOf(p, ch, next);
    AssignLoop(p, next, busy);
    assert next.carried + next.submitted == ch.carried + ch.submitted;
  }

  lemma SoundOf(p: Pool, ch: T.Channel, ch': T.Channel)
    requires T.Sound(p, ch) && ch'.pending == ch.pending && ch'.send == ch.send && ch'.offset == ch.offset
    ensures T.Sound(p, ch')
  {
  }

  lemma SubmitLedger(ch: T.Channel)
    ensures Ledger(T.Submitted(ch)) == Ledger(ch)
  {
    var s := T.Submitted(ch);
    assert (s.carried + s.submitted) + [] == (ch.carried + ch.submitted) + ch.draft;
  }

  lemma LoopLedger(p: Pool, ch: T.Channel, busy: bool)
    requires T.Sound(p, ch)
    requires !ch.at.Ended?
    ensures Accounted(ch, T.LoopTop(p, ch, busy).1)
  {
  }

  lemma AssignLoop(p: Pool, ch: T.Channel, busy: bool)
    requires T.Sound(p, ch) && !ch.closed
    ensures var ch' := T.LoopTop(p, ch, busy).1;
            !ch'.at.Ended? && Ledger(ch') == Ledger(ch)
  {
  }

  lemma NotifyLedger(p: Pool, ch: T.Channel, busy: bool)
    requires T.Sound(p, ch)
    ensures Accounted(ch, T.Notify(p, ch, busy).1)
  {
  }

  // ---------- The handler ----------

  ghost predicate Small(v: seq<Iovec>) {
    forall i :: 0 <= i < |v| ==> v[i].len < U32
  }

  /** A peek never reports more than one block at a time. */
  lemma {:induction false} FragmentsSmall(data: seq<seq<byte>>, queue: seq<nat>, offset: nat, n: nat)
    requires HeadOk(data, queue, offset) && forall i :: 0 <= i < |data| ==> |data[i]| < U32
    ensures Small(PeekVec(data, queue, offset, n))
    decreases |queue|
  {
    if n != 0 && queue != [] {
      var len := Min(|data[queue[0]]| - offset, n);
      FragmentsSmall(data, queue[1..], 0, n - len);
    }
  }

  ghost predicate Accepts(w: T.Worker, c: nat, bytes: seq<byte>)
    requires T.Inv(w) && c < |w.chans|
  {
    T.Share(w, c);
    HoldsPart(w.pool, multiset(w.chans[c].pending), T.Mine(w.chans[c]));
    AppendSpec(w.pool, w.chans[c].pending, w.cap, bytes).ok
  }

  /** Append fragment after fragment until one is refused; also the bytes accepted. */
  ghost function AppendAll(w: T.Worker, c: nat, data: seq<seq<byte>>, v: seq<Iovec>): (T.Worker, seq<byte>)
    requires T.Inv(w) && c < |w.chans| && Readable(data, v) && Small(v)
    decreases |v|
  {
    if v == [] then (w, [])
    else
      var bytes := ReadOne(data, v[0]);
      T.NextInv(w, T.Append(c, bytes));
      var w' := T.Next(w, T.Append(c, bytes));
      if !Accepts(w, c, bytes) then (w', [])
      else
        var r := AppendAll(w', c, data, v[1..]);
        (r.0, bytes + r.1)
  }

  lemma OneAppend(w: T.Worker, c: nat, bytes: seq<byte>)
    requires T.Inv(w) && c < |w.chans| && |bytes| < U32
    ensures var w' := T.Next(w, T.Append(c, bytes));
            && T.Inv(w') && w'.cap == w.cap && w'.pool.blockSize == w.pool.blockSize && |w'.chans| == |w.chans|
            && (forall d :: 0 <= d < |w.chans| && d != c ==> w'.chans[d] == w.chans[d])
            && w'.chans[c] == w.chans[c].(pending := w'.chans[c].pending, draft := w'.chans[c].draft)
            && w'.chans[c].draft == if Accepts(w, c, bytes) then w.chans[c].draft + bytes else w.chans[c].draft
  {
    hide T.Inv, AppendSpec;
    T.NextInv(w, T.Append(c, bytes));
  }

  /** The accepted bytes are a prefix of the peeked ones, and exactly they join the draft. */
  lemma {:induction false} AppendAllEffect(w: T.Worker, c: nat, data: seq<seq<byte>>, v: seq<Iovec>)
    requires T.Inv(w) && c < |w.chans| && Readable(data, v) && Small(v)
    ensures var r := AppendAll(w, c, data, v);
            && r.1 <= ReadVec(data, v)
            && T.Inv(r.0) && |r.0.chans| == |w.chans|
            && (forall d :: 0 <= d < |w.chans| && d != c ==> r.0.chans[d] == w.chans[d])
            && r.0.chans[c] == w.chans[c].(pending := r.0.chans[c].pending, draft := w.chans[c].draft + r.1)
    decreases |v|
  {
    hide T.Next, T.Inv, Accepts;
    if v == [] {
      NothingAfter(w.chans[c].draft);
    } else {
      var bytes := ReadOne(data, v[0]);
      OneAppend(w, c, bytes);
      var w' := T.Next(w, T.Append(c, bytes));
      ReadVecFirst(data, v);
      if Accepts(w, c, bytes) {
        AppendAllEffect(w', c, data, v[1..]);
        Assoc(w.chans[c].draft, bytes, AppendAll(w', c, data, v[1..]).1);
      } else {
        NothingAfter(w.chans[c].draft);
      }
    }
  }

  /** The 32-bit tail is below the 32-bit head, so the loop of `peek` does not run. */
  ghost predicate Blind(head: nat, queue: nat) {
    (head + queue) % U32 < head % U32
  }

  ghost function Peeked(e: Echo, c: nat): (v: seq<Iovec>)
    requires Inv(e) && c < |e.heads|
    ensures Readable(e.s.ring.data, v) && Small(v)
    ensures R.ReaderOk(e.s.ring, e.s.readers[c])
    ensures ReadVec(e.s.ring.data, v) <= UnsentOf(R.Unread(e.s.ring, e.s.readers[c]))
  {
    var rd := e.s.readers[c];
    var u := UnsentOf(R.Unread(e.s.ring, rd));
    if Blind(e.heads[c], |rd.queue|) then []
    else
      PeekIsPrefix(e.s.ring.data, rd.queue, rd.offset, |u|);
      FragmentsSmall(e.s.ring.data, rd.queue, rd.offset, |u|);
      PeekVec(e.s.ring.data, rd.queue, rd.offset, |u|)
  }

  /** `on_read`: peek everything, append until refused, consume what was accepted, submit. */
  ghost function ReadStep(e: Echo, c: nat, busy: bool): Echo
    requires Inv(e) && c < |e.heads|
  {
    var v := Peeked(e, c);
    var r := AppendAll(e.w, c, e.s.ring.data, v);
    AppendAllEffect(e.w, c, e.s.ring.data, v);
    if r.1 == [] then e.(w := r.0)
    else
      var s' := R.Next(e.s, R.Drop(c, |r.1|));
      DropHistory(e.s, c, r.1);
      var gone := |e.s.readers[c].queue| - |s'.readers[c].queue|;
      Echo(T.Next(r.0, T.Submit(c, busy)), s', e.heads[c := e.heads[c] + gone])
  }

  lemma DropHistory(s: R.Receiver, c: nat, bytes: seq<byte>)
    requires R.Inv(s) && c < |s.readers| && R.ReaderOk(s.ring, s.readers[c])
    requires bytes <= UnsentOf(R.Unread(s.ring, s.readers[c]))
    ensures var s' := R.Next(s, R.Drop(c, |bytes|));
            && |s'.readers| == |s.readers| && s'.ring.blockSize == s.ring.blockSize && |s'.ring.data| == |s.ring.data|
            && s'.readers[c].consumed == s.readers[c].consumed + bytes
            && |s'.readers[c].queue| <= |s.readers[c].queue|
            && forall d :: 0 <= d < |s.readers| && d != c ==> s'.readers[d] == s.readers[d]
  {
    var s0 := R.Unread(s.ring, s.readers[c]);
    var k := ConsumeReleases(s0, |bytes|);
    ReleaseAllEffect(s.ring, s.readers[c].queue[..k]);
  }

  // ---------- Steps ----------

  ghost function OnWriteSide(e: Event): T.Event
    requires !e.Deliver? && !e.OnRead? && !e.ReadEnds?
  {
    match e
    case Written(c, res) => T.Complete(c, res)
    case Returned(c, busy) => T.Continue(c, busy)
    case Close(c, busy) => T.Close(c, busy)
    case Drained(c, busy) => T.Drained(c, busy)
    case Assign(c, busy) => T.Assign(c, busy)
  }

  ghost function Next(e: Echo, ev: Event): Echo
    requires Inv(e)
  {
    if ev.c >= |e.heads| then e
    else match ev
      case Deliver(c, k, bytes) => e.(s := R.Next(e.s, R.Deliver(c, k, bytes)))
      case OnRead(c, busy) => ReadStep(e, c, busy)
      case ReadEnds(c) => e.(s := R.Next(e.s, R.Reset(c)), heads := e.heads[c := 0])
      case _ => e.(w := T.Next(e.w, OnWriteSide(ev)))
  }

  lemma WriteSideFrame(w: T.Worker, t: T.Event)
    requires T.Inv(w) && t.c < |w.chans| && !t.Append? && !t.Prepend?
    ensures var w' := T.Next(w, t);
            && |w'.chans| == |w.chans| && Accounted(w.chans[t.c], w'.chans[t.c])
            && forall d :: 0 <= d < |w.chans| && d != t.c ==> w'.chans[d] == w.chans[d]
  {
    hide T.Step, Accounted, T.StreamOk, T.LoopOk, T.Sound, Holds, Apart, T.Held;
    T.Share(w, t.c);
    assert T.ChanOk(w.pool, w.cap, w.chans[t.c]);
    LedgerKept(w.pool, w.cap, w.chans[t.c], t);
  }

  lemma DeliverFrame(s: R.Receiver, c: nat, k: nat, bytes: seq<byte>)
    requires R.Inv(s) && c < |s.readers|
    ensures var s' := R.Next(s, R.Deliver(c, k, bytes));
            && |s'.readers| == |s.readers| && s'.ring.blockSize == s.ring.blockSize && |s'.ring.data| == |s.ring.data|
            && s'.readers[c].consumed == s.readers[c].consumed && |s'.readers[c].queue| >= |s.readers[c].queue|
            && forall d :: 0 <= d < |s.readers| && d != c ==> s'.readers[d] == s.readers[d]
  {
    assert R.ReaderOk(s.ring, s.readers[c]);
    assert k < |s.ring.free| ==> s.ring.free[k] in s.ring.free;
    hide R.Inv, R.ReaderOk, Total, Without;
  }

  lemma ResetFrame(s: R.Receiver, c: nat)
    requires R.Inv(s) && c < |s.readers|
    ensures var s' := R.Next(s, R.Reset(c));
            && |s'.readers| == |s.readers| && s'.ring.blockSize == s.ring.blockSize && |s'.ring.data| == |s.ring.data|
            && s'.readers[c] == R.Reader([], 0, [], [])
            && forall d :: 0 <= d < |s.readers| && d != c ==> s'.readers[d] == s.readers[d]
  {
    assert R.ReaderOk(s.ring, s.readers[c]);
    hide R.Inv, R.ReaderOk, Total;
  }

  lemma ReadStepInv(e: Echo, c: nat, busy: bool)
    requires Inv(e) && c < |e.heads|
    ensures Inv(ReadStep(e, c, busy)) && |ReadStep(e, c, busy).heads| == |e.heads|
  {
    hide T.Inv, R.Inv, PeekVec, T.Next, R.Next, AppendAll, R.ReaderOk;
    var v := Peeked(e, c);
    var r := AppendAll(e.w, c, e.s.ring.data, v);
    AppendAllEffect(e.w, c, e.s.ring.data, v);
    if r.1 != [] {
      DropHistory(e.s, c, r.1);
      R.NextInv(e.s, R.Drop(c, |r.1|));
      T.NextInv(r.0, T.Submit(c, busy));
      WriteSideFrame(r.0, T.Submit(c, busy));
    }
  }

  lemma ReceiveInv(e: Echo, t: R.Event)
    requires Inv(e) && t.c < |e.heads| && !t.Drop?
    ensures Inv(e.(s := R.Next(e.s, t))) && Inv(e.(s := R.Next(e.s, t), heads := e.heads[t.c := 0]))
  {
    hide T.Inv, R.Inv, R.Next;
    R.NextInv(e.s, t);
    match t
    case Deliver(c, k, bytes) => DeliverFrame(e.s, c, k, bytes);
    case Reset(c) => ResetFrame(e.s, c);
  }

  lemma SendInv(e: Echo, t: T.Event)
    requires Inv(e) && t.c < |e.heads| && !t.Append? && !t.Prepend?
    ensures Inv(e.(w := T.Next(e.w, t)))
  {
    hide T.Inv, R.Inv, T.Next, Accounted;
    T.NextInv(e.w, t);
    WriteSideFrame(e.w, t);
  }

  lemma NextInv(e: Echo, ev: Event)
    requires Inv(e)
    ensures Inv(Next(e, ev)) && |Next(e, ev).heads| == |e.heads|
  {
    hide Inv, ReadStep, R.Next, T.Next;
    if ev.c < |e.heads| {
      match ev {
        case Deliver(c, k, bytes) => ReceiveInv(e, R.Deliver(c, k, bytes));
        case OnRead(c, busy) => ReadStepInv(e, c, busy);
        case ReadEnds(c) => ReceiveInv(e, R.Reset(c));
        case _ => SendInv(e, OnWriteSide(ev));
      }
    }
  }

  // ---------- What a step does to the account of a channel ----------

  /**
    Between two states, exactly the bytes the reader of channel `c` gave up joined what its write side accounts for.
   */
  ghost predicate Echoed(e: Echo, e': Echo, c: nat)
    requires c < |e.w.chans| && c < |e'.w.chans| && c < |e.s.readers| && c < |e'.s.readers|
  {
    && e.s.readers[c].consumed <= e'.s.readers[c].consumed
    && Ledger(e'.w.chans[c]) == Ledger(e.w.chans[c]) + e'.s.readers[c].consumed[|e.s.readers[c].consumed|..]
  }

  /** A step during which neither loop of channel `c` ends. */
  ghost predicate KeepsOpen(e: Echo, ev: Event, c: nat)
    requires Inv(e) && c < |e.heads|
  {
    NextInv(e, ev);
    ev != ReadEnds(c) && (Next(e, ev).w.chans[c].at.Ended? ==> e.w.chans[c].at.Ended?)
  }

  /** Every such step passes on exactly what it consumes. */
  lemma StepEchoes(e: Echo, ev: Event, c: nat)
    requires Inv(e) && c < |e.heads| && KeepsOpen(e, ev, c)
    ensures Inv(Next(e, ev)) && |Next(e, ev).heads| == |e.heads| && Echoed(e, Next(e, ev), c)
  {
    NextInv(e, ev);
    hide T.Inv, R.Inv, R.Next, T.Next, ReadStep, Echoed, Ledger, Accounted;
    if ev.c >= |e.heads| {
      SameEchoes(e, e, c);
    } else {
      match ev {
        case Deliver(d, k, bytes) => ReceiveEchoes(e, R.Deliver(d, k, bytes), c);
        case OnRead(d, busy) => ReadEchoes(e, d, busy, c);
        case ReadEnds(d) => ReceiveEchoes(e, R.Reset(d), c);
        case _ => SendEchoes(e, OnWriteSide(ev), c);
      }
    }
  }

  lemma ReceiveEchoes(e: Echo, t: R.Event, c: nat)
    requires Inv(e) && c < |e.heads| && t.c < |e.heads| && !t.Drop? && t != R.Reset(c)
    ensures var s' := R.Next(e.s, t);
            && |s'.readers| == |e.s.readers| && Echoed(e, e.(s := s'), c)
            && Echoed(e, e.(s := s', heads := e.heads[t.c := 0]), c)
  {
    hide T.Inv, R.Inv, R.Next, Ledger;
    match t {
      case Deliver(d, k, bytes) => DeliverFrame(e.s, d, k, bytes);
      case Reset(d) => ResetFrame(e.s, d);
    }
    SameEchoes(e, e.(s := R.Next(e.s, t)), c);
  }

  lemma SendEchoes(e: Echo, t: T.Event, c: nat)
    requires Inv(e) && c < |e.heads| && t.c < |e.heads| && !t.Append? && !t.Prepend?
    requires |T.Next(e.w, t).chans| == |e.w.chans| && (T.Next(e.w, t).chans[c].at.Ended? ==> e.w.chans[c].at.Ended?)
    ensures Echoed(e, e.(w := T.Next(e.w, t)), c)
  {
    hide T.Inv, R.Inv, T.Next, Ledger, Accounted;
    WriteSideFrame(e.w, t);
    if t.c == c {
      StillAccounted(e.w.chans[c], T.Next(e.w, t).chans[c]);
    }
    SameEchoes(e, e.(w := T.Next(e.w, t)), c);
  }

  lemma SameEchoes(e: Echo, e': Echo, c: nat)
    requires c < |e.w.chans| && c < |e'.w.chans| && c < |e.s.readers| && c < |e'.s.readers|
    requires e'.s.readers[c].consumed == e.s.readers[c].consumed && Ledger(e'.w.chans[c]) == Ledger(e.w.chans[c])
    ensures Echoed(e, e', c)
  {
    var had := e.s.readers[c].consumed;
    assert had[|had|..] == [];
    NothingAfter(Ledger(e.w.chans[c]));
  }

  lemma ReadEchoes(e: Echo, d: nat, busy: bool, c: nat)
    requires Inv(e) && c < |e.heads| && d < |e.heads| && Inv(ReadStep(e, d, busy))
    requires |ReadStep(e, d, busy).heads| == |e.heads|
    requires ReadStep(e, d, busy).w.chans[c].at.Ended? ==> e.w.chans[c].at.Ended?
    ensures Echoed(e, ReadStep(e, d, busy), c)
  {
    hide T.Inv, R.Inv, PeekVec, T.Next, R.Next, AppendAll, R.ReaderOk, Accounted;
    var v := Peeked(e, d);
    var r := AppendAll(e.w, d, e.s.ring.data, v);
    AppendAllEffect(e.w, d, e.s.ring.data, v);
    var had, ledger := e.s.readers[c].consumed, Ledger(e.w.chans[c]);
    NothingAfter(ledger);
    assert had[|had|..] == [];
    if r.1 == [] {
      NothingAfter(e.w.chans[d].draft);
    } else {
      DropHistory(e.s, d, r.1);
      WriteSideFrame(r.0, T.Submit(d, busy));
      if c == d {
        assert (had + r.1)[|had|..] == r.1;
        Assoc(e.w.chans[c].carried + e.w.chans[c].submitted, e.w.chans[c].draft, r.1);
        StillAccounted(r.0.chans[c], T.Next(r.0, T.Submit(d, busy)).chans[c]);
      }
    }
  }

  lemma StillAccounted(ch: T.Channel, ch': T.Channel)
    requires Accounted(ch, ch') && (ch'.at.Ended? ==> ch.at.Ended?)
    ensures Ledger(ch') == Ledger(ch)
  {
  }

  // ---------- Runs ----------

  ghost function Exec(e: Echo, evs: seq<Event>): (r: Echo)
    requires Inv(e)
    ensures Inv(r) && |r.heads| == |e.heads|
    decreases |evs|
  {
    if evs == [] then e
    else
      NextInv(e, evs[0]);
      Exec(Next(e, evs[0]), evs[1..])
  }

  /** Neither the read loop nor the write loop of channel `c` ends during the run. */
  ghost predicate StaysOpen(e: Echo, evs: seq<Event>, c: nat)
    requires Inv(e) && c < |e.heads|
    decreases |evs|
  {
    evs == [] ||
    (NextInv(e, evs[0]);
     KeepsOpen(e, evs[0], c) && StaysOpen(Next(e, evs[0]), evs[1..], c))
  }

  ghost function Start(n: nat, size: nat, cap: nat, m: nat, block: nat, k: nat): Echo {
    Echo(T.Start(n, size, cap, k), R.Start(m, block, k), seq(k, i => 0))
  }

  lemma StartInv(n: nat, size: nat, cap: nat, m: nat, block: nat, k: nat)
    requires 0 < size < U32 && 0 < block < U32 && m < U32
    ensures Inv(Start(n, size, cap, m, block, k))
  {
    T.StartInv(n, size, cap, k);
    R.EveryRun(m, block, k, []);
    hide T.Inv, R.Inv;
  }

  lemma {:induction false} RunEchoes(e: Echo, evs: seq<Event>, c: nat)
    requires Inv(e) && c < |e.heads| && StaysOpen(e, evs, c)
    ensures Echoed(e, Exec(e, evs), c)
    decreases |evs|
  {
    hide T.Inv, R.Inv, Next, KeepsOpen, Ledger;
    if evs == [] {
      var had := e.s.readers[c].consumed;
      assert had[|had|..] == [];
      NothingAfter(Ledger(e.w.chans[c]));
    } else {
      StepEchoes(e, evs[0], c);
      RunEchoes(Next(e, evs[0]), evs[1..], c);
      EchoedTwice(e, Next(e, evs[0]), Exec(Next(e, evs[0]), evs[1..]), c);
    }
  }

  lemma EchoedTwice(a: Echo, b: Echo, d: Echo, c: nat)
    requires c < |a.w.chans| && c < |b.w.chans| && c < |d.w.chans|
    requires c < |a.s.readers| && c < |b.s.readers| && c < |d.s.readers|
    requires Echoed(a, b, c) && Echoed(b, d, c)
    ensures Echoed(a, d, c)
  {
    var x, y, z := a.s.readers[c].consumed, b.s.readers[c].consumed, d.s.readers[c].consumed;
    Assoc(Ledger(a.w.chans[c]), y[|x|..], z[|y|..]);
    assert y[|x|..] + z[|y|..] == z[|x|..];
  }

  /** The bytes of a channel, in the order in which the peer will see them. */
  ghost function Stages(e: Echo, c: nat): seq<byte>
    requires Inv(e) && c < |e.heads|
  {
    var ch, rd := e.w.chans[c], e.s.readers[c];
    assert T.ChanOk(e.w.pool, e.w.cap, ch) && R.ReaderOk(e.s.ring, rd);
    ((ch.acked + Unsent(e.w.pool.data, ch.send, ch.offset)) + Gather(e.w.pool.data, ch.pending))
    + UnsentOf(R.Unread(e.s.ring, rd))
  }

  /** What the write side accounts for is in its blocks or acknowledged; what the reader holds was received last. */
  lemma StagesAre(e: Echo, c: nat)
    requires Inv(e) && c < |e.heads|
    ensures R.ReaderOk(e.s.ring, e.s.readers[c])
    ensures var unread := UnsentOf(R.Unread(e.s.ring, e.s.readers[c]));
            && Stages(e, c) == Ledger(e.w.chans[c]) + unread
            && e.s.readers[c].received == e.s.readers[c].consumed + unread
  {
    assert T.ChanOk(e.w.pool, e.w.cap, e.w.chans[c]) && R.ReaderOk(e.s.ring, e.s.readers[c]);
  }

  /**
    From any state, as long as neither loop of a channel ends: what its write side held at first, followed by what was
    received after the bytes then consumed, is at all times acknowledged, in the send ring, pending and unread, in this
    order.  For a connection whose reader starts empty that is what was received, if and only if its write side was
    empty too.
   */
  lemma OpenConnection(e: Echo, evs: seq<Event>, c: nat)
    requires Inv(e) && c < |e.heads| && StaysOpen(e, evs, c)
    ensures var r, had := Exec(e, evs), e.s.readers[c].consumed;
            && had <= r.s.readers[c].received
            && Ledger(e.w.chans[c]) + r.s.readers[c].received[|had|..] == Stages(r, c)
            && (had == [] ==> (r.s.readers[c].received == Stages(r, c) <==> Ledger(e.w.chans[c]) == []))
  {
    RunEchoes(e, evs, c);
    var r, had := Exec(e, evs), e.s.readers[c].consumed;
    hide Exec, T.Inv, R.Inv, Inv, Stages, R.ReaderOk, Unsent, Ledger;
    StagesAre(r, c);
    Joined(Ledger(e.w.chans[c]), had, r.s.readers[c].consumed, UnsentOf(R.Unread(r.s.ring, r.s.readers[c])));
  }

  lemma Joined(ledger: seq<byte>, had: seq<byte>, given: seq<byte>, unread: seq<byte>)
    requires had <= given
    ensures had <= given + unread
    ensures ledger + (given + unread)[|had|..] == (ledger + given[|had|..]) + unread
    ensures had == [] ==> (given + unread == (ledger + given[|had|..]) + unread <==> ledger == [])
  {
    assert (given + unread)[|had|..] == given[|had|..] + unread;
    Assoc(ledger, given[|had|..], unread);
    if had == [] {
      assert given[|had|..] == given;
      if ledger == [] {
        NothingBefore(given);
      }
    }
  }

  /** The same for every connection of every run, the first on its channel or a later one. */
  lemma EveryRun(n: nat, size: nat, cap: nat, m: nat, block: nat, k: nat, before: seq<Event>, evs: seq<Event>, c: nat)
    requires 0 < size < U32 && 0 < block < U32 && m < U32 && c < k
    ensures Inv(Start(n, size, cap, m, block, k))
    ensures var e := Exec(Start(n, size, cap, m, block, k), before);
            e.s.readers[c].received == [] && StaysOpen(e, evs, c) ==>
              var r := Exec(e, evs);
              && Ledger(e.w.chans[c]) + r.s.readers[c].received == Stages(r, c)
              && (r.s.readers[c].received == Stages(r, c) <==> Ledger(e.w.chans[c]) == [])
  {
    StartInv(n, size, cap, m, block, k);
    var e := Exec(Start(n, size, cap, m, block, k), before);
    if e.s.readers[c].received == [] && StaysOpen(e, evs, c) {
      StagesAre(e, c);
      assert e.s.readers[c].consumed == [];
      OpenConnection(e, evs, c);
      var r := Exec(e, evs);
      assert r.s.readers[c].received[0..] == r.s.readers[c].received;
    }
  }

  // ---------- Once the read counters have wrapped ----------

  /**
    With fewer blocks than counter values, the tail is below the head exactly when it has wrapped and the head has not.
   */
  lemma BlindIff(head: nat, queue: nat)
    requires queue < U32
    ensures Blind(head, queue) <==> head % U32 + queue >= U32
  {
    var q, r := head / U32, head % U32;
    assert head == q * U32 + r;
    if r + queue < U32 {
      ModUnique(head + queue, q, r + queue, U32);
    } else {
      ModUnique(head + queue, q + 1, r + queue - U32, U32);
    }
  }

  lemma QueueFits(s: R.Receiver, c: nat)
    requires R.Inv(s) && c < |s.readers|
    ensures |s.readers[c].queue| <= |s.ring.data|
  {
    OneShare(s.ring, R.Queues(s.readers), c);
    R.QueueBound(s.ring, s.readers[c].queue, 0);
  }

  ghost predicate BlindAt(e: Echo, c: nat)
    requires c < |e.heads| && c < |e.s.readers|
  {
    Blind(e.heads[c], |e.s.readers[c].queue|)
  }

  /** A reader that was not touched, or only given more, is as blind as before. */
  lemma StillBlind(e: Echo, e': Echo, c: nat)
    requires Inv(e) && Inv(e') && c < |e.heads| && c < |e'.heads| && BlindAt(e, c)
    requires e'.heads[c] == e.heads[c] && |e'.s.readers[c].queue| >= |e.s.readers[c].queue|
    ensures BlindAt(e', c)
  {
    QueueFits(e.s, c);
    QueueFits(e'.s, c);
    hide T.Inv, R.Inv, Blind;
    BlindIff(e.heads[c], |e.s.readers[c].queue|);
    BlindIff(e'.heads[c], |e'.s.readers[c].queue|);
  }

  lemma BlindStep(e: Echo, ev: Event, c: nat)
    requires Inv(e) && c < |e.heads| && BlindAt(e, c) && ev != ReadEnds(c)
    ensures var e' := Next(e, ev);
            && Inv(e') && |e'.heads| == |e.heads| && BlindAt(e', c)
            && e'.heads[c] == e.heads[c] && e'.s.readers[c].consumed == e.s.readers[c].consumed
  {
    hide T.Inv, R.Inv, Next, BlindAt;
    NextInv(e, ev);
    BlindFrame(e, ev, c);
    StillBlind(e, Next(e, ev), c);
  }

  lemma BlindFrame(e: Echo, ev: Event, c: nat)
    requires Inv(e) && c < |e.heads| && BlindAt(e, c) && ev != ReadEnds(c)
    ensures var e' := Next(e, ev);
            && c < |e'.heads| && c < |e'.s.readers|
            && e'.heads[c] == e.heads[c] && e'.s.readers[c].consumed == e.s.readers[c].consumed
            && |e'.s.readers[c].queue| >= |e.s.readers[c].queue|
  {
    hide T.Inv, R.Inv, R.Next, T.Next, ReadStep, BlindAt;
    if ev.c < |e.heads| {
      match ev {
        case Deliver(d, k, bytes) => DeliverFrame(e.s, d, k, bytes);
        case OnRead(d, busy) => BlindRead(e, d, busy, c);
        case ReadEnds(d) => ResetFrame(e.s, d);
        case _ =>
      }
    }
  }

  lemma BlindRead(e: Echo, d: nat, busy: bool, c: nat)
    requires Inv(e) && c < |e.heads| && d < |e.heads| && BlindAt(e, c)
    ensures var e' := ReadStep(e, d, busy);
            && c < |e'.heads| && c < |e'.s.readers|
            && e'.heads[c] == e.heads[c] && e'.s.readers[c] == e.s.readers[c]
  {
    var v := Peeked(e, d);
    AppendAllEffect(e.w, d, e.s.ring.data, v);
    if d == c {
      assert v == [];
    } else {
      var r := AppendAll(e.w, d, e.s.ring.data, v);
      hide T.Inv, R.Inv, R.Next, T.Next, AppendAll, PeekVec, R.ReaderOk;
      if r.1 != [] {
        DropHistory(e.s, d, r.1);
      }
    }
  }

  /** From then on, until the read side is reset, no `on_read` consumes anything. */
  lemma {:induction false} StaysBlind(e: Echo, evs: seq<Event>, c: nat)
    requires Inv(e) && c < |e.heads| && BlindAt(e, c)
    requires forall i :: 0 <= i < |evs| ==> evs[i] != ReadEnds(c)
    ensures var r := Exec(e, evs);
            && BlindAt(r, c) && r.heads[c] == e.heads[c] && r.s.readers[c].consumed == e.s.readers[c].consumed
    decreases |evs|
  {
    hide T.Inv, R.Inv, Next, BlindAt;
    if evs != [] {
      BlindStep(e, evs[0], c);
      StaysBlind(Next(e, evs[0]), evs[1..], c);
    }
  }
}
