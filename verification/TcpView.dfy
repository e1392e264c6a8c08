/**
  A channel as its two parties see it: what the application said, how much of it the kernel
  reported written, and when the write loop rests, writes and ends.  Every clause speaks of
  plain byte strings, of counts and of the events of the run.
 */
module TcpView {
  import opened Bits
  import opened Blocks
  import opened WriteSpec
  import opened TcpWorker
  import opened TcpDrain
  import opened TcpRuns

  // ---------- What was said and what was reported ----------

  /** Bytes not yet submitted, bytes submitted, and the number of bytes reported written. */
  datatype Talk = Talk(draft: seq<byte>, said: seq<byte>, heard: nat)

  ghost function TalkOf(ch: Channel): Talk {
    Talk(ch.draft, ch.carried + ch.submitted, |ch.acked|)
  }

  /** Whether an event has an effect on the talk, by counting blocks and bytes. */
  ghost predicate Counts(w: Worker, e: Event)
    requires Inv(w) && e.c < |w.chans|
  {
    InvChan(w, e.c);
    var ch, size := w.chans[e.c], w.pool.blockSize;
    var spare := Min(w.cap - |ch.pending|, |w.pool.free|);
    match e
    case Append(_, bytes) =>
      if ch.pending == [] then spare > 0 && |bytes| <= spare * size
      else
        assert InRange(w.pool.data, ch.pending);
        |bytes| <= size - |w.pool.data[ch.pending[|ch.pending| - 1]]| + spare * size
    case Prepend(_, bytes) => |bytes| <= spare * size
    case Submit(_, _) => 0 < |ch.pending| <= w.cap - |ch.send|
    case Complete(_, res) => ch.at.Writing? && 0 < res <= VecLen(ch.at.vec)
    case _ => false
  }

  /** What one event that counts adds. */
  function Said(t: Talk, e: Event): Talk {
    match e
    case Append(_, bytes) => t.(draft := t.draft + bytes)
    case Prepend(_, bytes) => t.(draft := bytes + t.draft)
    case Submit(_, _) => Talk([], t.said + t.draft, t.heard)
    case Complete(_, res) => t.(heard := t.heard + if res > 0 then res else 0)
    case _ => t
  }

  /** The step does not end the write loop of channel `c`. */
  ghost predicate KeepsUp(w: Worker, e: Event, c: nat)
    requires Inv(w) && c < |w.chans|
  {
    c < |Next(w, e).chans| && (Next(w, e).chans[c].at.Ended? ==> w.chans[c].at.Ended?)
  }

  /** What an event does to the talk of its own channel. */
  ghost predicate Talks(w: Worker, e: Event)
    requires Inv(w) && e.c < |w.chans|
  {
    var t, w' := TalkOf(w.chans[e.c]), Next(w, e);
    e.c < |w'.chans| && TalkOf(w'.chans[e.c]) == if Counts(w, e) then Said(t, e) else t
  }

  /** The write buffer takes the bytes exactly when they can be counted in. */
  lemma AppendCounts(w: Worker, e: Event)
    requires Inv(w) && e.c < |w.chans| && e.Append?
    ensures var ch := w.chans[e.c];
            && Holds(w.pool, multiset(ch.pending)) && |ch.pending| <= w.cap
            && (AppendSpec(w.pool, ch.pending, w.cap, e.bytes).ok <==> Counts(w, e))
  {
    hide AppendSpec, Holds, Inv, ChanOk, Sound;
    Share(w, e.c);
    InvChan(w, e.c);
    Indices(w.pool, w.chans[e.c], Others(w, e.c));
    AppendFitsIff(w.pool, w.chans[e.c].pending, w.cap, e.bytes);
  }

  lemma AppendTalks(w: Worker, e: Event)
    requires Inv(w) && e.c < |w.chans| && e.Append?
    ensures Talks(w, e)
  {
    hide AppendSpec, Holds, Sound, Apart, Inv, Counts;
    OneStep(w, e);
    AppendCounts(w, e);
  }

  lemma PrependCounts(w: Worker, e: Event)
    requires Inv(w) && e.c < |w.chans| && e.Prepend? && Sane(e, w.pool.blockSize)
    ensures var ch := w.chans[e.c];
            && Holds(w.pool, multiset(ch.pending)) && |ch.pending| <= w.cap
            && (PrependSpec(w.pool, ch.pending, w.cap, e.bytes).ok <==> Counts(w, e))
  {
    SmallBlocks(w);
    hide PrependSpec, Holds, Inv, ChanOk, Sound;
    Share(w, e.c);
    InvChan(w, e.c);
    Indices(w.pool, w.chans[e.c], Others(w, e.c));
    PrependFitsIff(w.pool, w.chans[e.c].pending, w.cap, e.bytes);
  }

  lemma PrependTalks(w: Worker, e: Event)
    requires Inv(w) && e.c < |w.chans| && e.Prepend? && Sane(e, w.pool.blockSize)
    ensures Talks(w, e)
  {
    hide PrependSpec, Holds, Sound, Apart, Inv, Counts;
    OneStep(w, e);
    PrependCounts(w, e);
  }

  lemma SubmitTalks(w: Worker, e: Event)
    requires Inv(w) && e.c < |w.chans| && e.Submit? && KeepsUp(w, e, e.c)
    ensures Talks(w, e)
  {
    OneStep(w, e);
    var ch := w.chans[e.c];
    SubmitSound(w.pool, ch);
    Assoc(ch.carried, ch.submitted, ch.draft);
    hide Inv, Holds, Sound, Apart, Iovecs, ReleaseAll;
  }

  /** The completion of a `writev` moves the acknowledged bytes on by exactly the number the kernel reported. */
  lemma Acknowledged(w: Worker, c: nat, res: int)
    requires Inv(w) && c < |w.chans| && w.chans[c].at.Writing? && 0 < res <= VecLen(w.chans[c].at.vec)
    ensures |w.chans[c].acked| + res <= |w.chans[c].carried + w.chans[c].submitted|
    ensures var ch, w' := w.chans[c], Next(w, Complete(c, res));
            && |w'.chans| == |w.chans|
            && w'.chans[c] == ch.(send := w'.chans[c].send, offset := w'.chans[c].offset, at := InCallback,
                                  acked := ch.acked + (ch.carried + ch.submitted)[|ch.acked|..|ch.acked| + res])
  {
    hide Inv, Holds, Sound, Apart, ChanOk, Consume, Readable, ReadVec, Unsent, VecLen;
    var ch := w.chans[c];
    InvChan(w, c);
    OneStep(w, Complete(c, res));
    InFlightBytes(w.pool, w.cap, ch);
    ReadVecLen(w.pool.data, ch.at.vec);
    CoveredIsUnsent(w.pool, w.cap, ch);
    var all, a, n := ch.carried + ch.submitted, |ch.acked|, VecLen(ch.at.vec);
    assert all[a..a + n][..res] == all[a..a + res];
  }

  lemma CoveredIsUnsent(p: Pool, cap: nat, ch: Channel)
    requires ChanOk(p, cap, ch) && ch.at.Writing?
    ensures VecLen(ch.at.vec) <= |Unsent(p.data, ch.send, ch.offset)|
  {
    InFlightBytes(p, cap, ch);
  }

  lemma CompleteTalks(w: Worker, e: Event)
    requires Inv(w) && e.c < |w.chans| && e.Complete? && KeepsUp(w, e, e.c)
    ensures Talks(w, e)
  {
    var ch := w.chans[e.c];
    InvChan(w, e.c);
    OneStep(w, e);
    if ch.at.Writing? {
      InFlightBytes(w.pool, w.cap, ch);
      ReadVecLen(w.pool.data, ch.at.vec);
      if 0 < e.res <= VecLen(ch.at.vec) {
        Acknowledged(w, e.c, e.res);
      }
    }
    hide Inv, Holds, Sound, Apart, ChanOk, Consume, ReadVec, Unsent, ReleaseAll;
  }

  lemma OtherTalks(w: Worker, e: Event)
    requires Inv(w) && e.c < |w.chans| && KeepsUp(w, e, e.c)
    requires e.Continue? || e.Close? || e.Drained? || e.Assign?
    ensures Talks(w, e)
  {
    OneStep(w, e);
    var ch := w.chans[e.c];
    NothingAfter(ch.carried + ch.submitted);
    hide Inv, Holds, Sound, Apart, Iovecs, ReleaseAll;
  }

  /** Every event changes what was said and reported exactly as it should, on its own channel and on no other. */
  lemma StepTalks(w: Worker, e: Event, c: nat)
    requires Inv(w) && Sane(e, w.pool.blockSize) && c < |w.chans| && KeepsUp(w, e, c)
    ensures var t := TalkOf(w.chans[c]);
            TalkOf(Next(w, e).chans[c]) == if e.c == c && Counts(w, e) then Said(t, e) else t
  {
    if e.c == c {
      assert Talks(w, e) by {
        hide Talks, Next, Inv, KeepsUp;
        match e
        case Append(_, _) => AppendTalks(w, e);
        case Prepend(_, _) => PrependTalks(w, e);
        case Submit(_, _) => SubmitTalks(w, e);
        case Complete(_, _) => CompleteTalks(w, e);
        case _ => OtherTalks(w, e);
      }
      hide Next, Inv, Counts;
    } else {
      hide Inv, Step;
    }
  }

  /** The write loop of channel `c` does not end during the run. */
  ghost predicate StaysUp(w: Worker, es: seq<Event>, c: nat)
    requires Inv(w) && AllSane(es, w.pool.blockSize) && c < |w.chans|
    decreases |es|
  {
    es == [] ||
    (NextInv(w, es[0]);
     KeepsUp(w, es[0], c) && StaysUp(Next(w, es[0]), es[1..], c))
  }

  lemma SameCount(w: Worker, e: Event)
    requires Inv(w)
    ensures |Next(w, e).chans| == |w.chans|
  {
  }

  /** The talk of channel `c` after a run, event by event. */
  ghost function Told(w: Worker, es: seq<Event>, c: nat, t: Talk): Talk
    requires Inv(w) && AllSane(es, w.pool.blockSize) && c < |w.chans|
    decreases |es|
  {
    if es == [] then t
    else
      NextInv(w, es[0]);
      SameCount(w, es[0]);
      var t' := if es[0].c == c && Counts(w, es[0]) then Said(t, es[0]) else t;
      Told(Next(w, es[0]), es[1..], c, t')
  }

  lemma {:induction false} RunTalks(w: Worker, es: seq<Event>, c: nat)
    requires Inv(w) && AllSane(es, w.pool.blockSize) && c < |w.chans| && StaysUp(w, es, c)
    ensures c < |Exec(w, es).chans| && TalkOf(Exec(w, es).chans[c]) == Told(w, es, c, TalkOf(w.chans[c]))
    decreases |es|
  {
    hide Inv, Next, Counts, TalkOf;
    if es != [] {
      NextInv(w, es[0]);
      SameCount(w, es[0]);
      StepTalks(w, es[0], c);
      RunTalks(Next(w, es[0]), es[1..], c);
    }
  }

  /** The results the kernel reported for channel `c` in the run, added up. */
  ghost function Reported(w: Worker, es: seq<Event>, c: nat): nat
    requires Inv(w) && AllSane(es, w.pool.blockSize) && c < |w.chans|
    decreases |es|
  {
    if es == [] then 0
    else
      NextInv(w, es[0]);
      SameCount(w, es[0]);
      (if Completes(es[0], c) && Counts(w, es[0]) then es[0].res else 0) + Reported(Next(w, es[0]), es[1..], c)
  }

  lemma {:induction false} ToldIsReported(w: Worker, es: seq<Event>, c: nat, t: Talk)
    requires Inv(w) && AllSane(es, w.pool.blockSize) && c < |w.chans|
    ensures Told(w, es, c, t).heard == t.heard + Reported(w, es, c)
    decreases |es|
  {
    hide Inv, Next, Counts;
    if es != [] {
      NextInv(w, es[0]);
      SameCount(w, es[0]);
      var t' := if es[0].c == c && Counts(w, es[0]) then Said(t, es[0]) else t;
      ToldIsReported(Next(w, es[0]), es[1..], c, t');
      if es[0].c == c {
        CountsPositive(w, es[0]);
      }
    }
  }

  lemma CountsPositive(w: Worker, e: Event)
    requires Inv(w) && e.c < |w.chans|
    ensures e.Complete? && Counts(w, e) ==> e.res > 0
  {
  }

  /**
    On a connection that stays open, in every run: the draft and the bytes submitted are what the successful calls make
    them, in order, and the bytes acknowledged are as many of the latter as the kernel's results add up to.
   */
  lemma ConnectionTalks(w: Worker, es: seq<Event>, c: nat)
    requires Inv(w) && AllSane(es, w.pool.blockSize) && c < |w.chans| && StaysUp(w, es, c)
    ensures c < |Exec(w, es).chans|
    ensures var ch, t := Exec(w, es).chans[c], Told(w, es, c, TalkOf(w.chans[c]));
            && ch.draft == t.draft && ch.carried + ch.submitted == t.said
            && t.heard == |w.chans[c].acked| + Reported(w, es, c) <= |t.said|
            && ch.acked == t.said[..t.heard]
  {
    RunTalks(w, es, c);
    ToldIsReported(w, es, c, TalkOf(w.chans[c]));
    var w' := Exec(w, es);
    InvChan(w', c);
    var ch := w'.chans[c];
    assert ch.acked + Unsent(w'.pool.data, ch.send, ch.offset) == ch.carried + ch.submitted;
    hide *;
    AckedFirst(ch.acked, Unsent(w'.pool.data, ch.send, ch.offset), ch.carried + ch.submitted);
  }

  lemma AckedFirst(acked: seq<byte>, rest: seq<byte>, all: seq<byte>)
    requires acked + rest == all
    ensures |acked| <= |all| && acked == all[..|acked|]
  {
  }

  // ---------- Where the write loop goes ----------

  /**
    Where the loop comes to rest once it runs: it ends if the connection is closing, nothing is in flight and something
    kept it from waiting; else it hands everything unsent to the kernel; else it waits.
   */
  ghost predicate RestsAt(w: Worker, c: nat, sending: bool, note: bool, busy: bool)
    requires c < |w.chans|
  {
    var ch := w.chans[c];
    if ch.closed && !busy && (sending || note) then ch.at.Ended?
    else if sending then ch.at.Writing? && VecLen(ch.at.vec) == |ch.carried + ch.submitted| - |ch.acked|
    else ch.at.Parked? && !ch.flag
  }

  ghost predicate StaysPut(ch: Channel, ch': Channel) {
    ch'.at == ch.at && ch'.flag == ch.flag && ch'.closed == ch.closed
  }

  /** A notification finds the loop waiting and sets it going, or it leaves a note. */
  ghost predicate Notified(w: Worker, w': Worker, c: nat, sending: bool, busy: bool)
    requires c < |w.chans| && c < |w'.chans|
  {
    if w.chans[c].at.Parked? then RestsAt(w', c, sending, true, busy)
    else w'.chans[c].at == w.chans[c].at && w'.chans[c].flag
  }

  /** The loop of an event's channel, before and after. */
  ghost predicate Moves(w: Worker, e: Event, w': Worker)
    requires Inv(w) && e.c < |w.chans| && e.c < |w'.chans|
  {
    var ch, ch' := w.chans[e.c], w'.chans[e.c];
    match e
    case Append(_, _) => StaysPut(ch, ch')
    case Prepend(_, _) => StaysPut(ch, ch')
    case Submit(c, busy) =>
      if Counts(w, e) then ch'.closed == ch.closed && Notified(w, w', c, true, busy) else StaysPut(ch, ch')
    case Complete(_, res) =>
      if ch.at.Writing? && res <= 0 then ch'.at.Ended? && ch'.closed
      else if Counts(w, e) then StaysPut(ch.(at := InCallback), ch')
      else StaysPut(ch, ch')
    case Continue(c, busy) =>
      if ch.at.InCallback? then ch'.closed == ch.closed && RestsAt(w', c, ch.send != [], ch.flag, busy)
      else StaysPut(ch, ch')
    case Close(c, busy) => ch'.closed && Notified(w, w', c, false, busy)
    case Drained(c, busy) =>
      if ch.closed then ch'.closed && Notified(w, w', c, false, busy) else StaysPut(ch, ch')
    case Assign(c, busy) =>
      if ch.at.Ended? then !ch'.closed && !ch'.flag && RestsAt(w', c, ch.send != [], false, busy)
      else StaysPut(ch, ch')
  }

  /** A loop that starts a `writev` hands over every byte not yet acknowledged. */
  lemma WritesAll(p: Pool, cap: nat, ch: Channel)
    requires ChanOk(p, cap, ch) && ch.at == Writing(Iovecs(p.data, ch.send, ch.offset))
    ensures VecLen(ch.at.vec) == |ch.carried + ch.submitted| - |ch.acked|
  {
    PeekIsUnsent(p.data, ch.send, ch.offset);
    ReadVecLen(p.data, ch.at.vec);
  }

  lemma WritesAllAfter(w: Worker, e: Event)
    requires Inv(w) && Sane(e, w.pool.blockSize) && e.c < |w.chans| && !w.chans[e.c].at.Writing?
    ensures var w' := Next(w, e);
            && e.c < |w'.chans|
            && var ch := w'.chans[e.c];
               ch.at.Writing? ==> VecLen(ch.at.vec) == |ch.carried + ch.submitted| - |ch.acked|
  {
    NextInv(w, e);
    OneStep(w, e);
    hide Step, Inv, ChanOk, Holds, Sound, Apart, Iovecs, VecLen, Next;
    StartedWhole(w.pool, w.cap, w.chans[e.c], e);
    var w' := Next(w, e);
    InvChan(w', e.c);
    if w'.chans[e.c].at.Writing? {
      WritesAll(w'.pool, w.cap, w'.chans[e.c]);
    }
  }

  lemma CompleteMoves(w: Worker, e: Event)
    requires Inv(w) && e.c < |w.chans| && e.Complete?
    ensures e.c < |Next(w, e).chans| && Moves(w, e, Next(w, e))
  {
    InvChan(w, e.c);
    OneStep(w, e);
    if w.chans[e.c].at.Writing? {
      InFlightBytes(w.pool, w.cap, w.chans[e.c]);
      ReadVecLen(w.pool.data, w.chans[e.c].at.vec);
      CoveredIsUnsent(w.pool, w.cap, w.chans[e.c]);
    }
    hide Inv, Holds, Sound, Apart, ReleaseAll, Consume, ReadVec, VecLen, Unsent;
  }

  lemma SubmitMoves(w: Worker, e: Event)
    requires Inv(w) && Sane(e, w.pool.blockSize) && e.c < |w.chans| && e.Submit?
    ensures e.c < |Next(w, e).chans| && Moves(w, e, Next(w, e))
  {
    OneStep(w, e);
    if !w.chans[e.c].at.Writing? {
      WritesAllAfter(w, e);
    }
    SubmitSound(w.pool, w.chans[e.c]);
    hide Inv, Holds, Sound, Apart, Iovecs, ReleaseAll, VecLen;
  }

  lemma DraftMoves(w: Worker, e: Event)
    requires Inv(w) && e.c < |w.chans| && (e.Append? || e.Prepend?)
    ensures e.c < |Next(w, e).chans| && Moves(w, e, Next(w, e))
  {
    OneStep(w, e);
    hide Inv, Holds, Sound, Apart, AppendSpec, PrependSpec;
  }

  /** The loop from its top. */
  lemma TurnMoves(w: Worker, e: Event)
    requires Inv(w) && Sane(e, w.pool.blockSize) && e.c < |w.chans| && (e.Continue? || e.Assign?)
    ensures e.c < |Next(w, e).chans| && Moves(w, e, Next(w, e))
  {
    OneStep(w, e);
    if !w.chans[e.c].at.Writing? {
      WritesAllAfter(w, e);
    }
    hide Inv, Holds, Sound, Apart, Iovecs, ReleaseAll, VecLen;
  }

  lemma NotifyMoves(w: Worker, e: Event)
    requires Inv(w) && e.c < |w.chans| && (e.Close? || e.Drained?)
    ensures e.c < |Next(w, e).chans| && Moves(w, e, Next(w, e))
  {
    InvChan(w, e.c);
    OneStep(w, e);
    assert w.chans[e.c].at.Parked? ==> w.chans[e.c].send == [];
    hide Inv, Holds, Sound, Apart, Iovecs, ReleaseAll, VecLen, ChanOk;
  }

  /** Every event takes the write loop exactly where it should. */
  lemma StepMoves(w: Worker, e: Event)
    requires Inv(w) && Sane(e, w.pool.blockSize) && e.c < |w.chans|
    ensures e.c < |Next(w, e).chans| && Moves(w, e, Next(w, e))
  {
    hide Inv, Next, Moves;
    if e.Complete? {
      CompleteMoves(w, e);
    } else if e.Submit? {
      SubmitMoves(w, e);
    } else if e.Append? || e.Prepend? {
      DraftMoves(w, e);
    } else if e.Continue? || e.Assign? {
      TurnMoves(w, e);
    } else {
      NotifyMoves(w, e);
    }
  }

  // ---------- Closing ----------

  ghost predicate Continues(e: Event, c: nat) {
    e.Continue? && e.c == c
  }

  /** The loop is writing or in the callback and will find the close when it is back at its top. */
  ghost predicate Noted(ch: Channel) {
    ch.closed && ch.flag && (ch.at.Writing? || ch.at.InCallback?)
  }

  lemma NoteStays(w: Worker, e: Event, c: nat)
    requires Inv(w) && Sane(e, w.pool.blockSize) && c < |w.chans| && !Continues(e, c) && Noted(w.chans[c])
    ensures |Next(w, e).chans| == |w.chans|
    ensures Next(w, e).chans[c].at.Ended? || Noted(Next(w, e).chans[c])
  {
    SameCount(w, e);
    if e.c == c {
      StepMoves(w, e);
      hide Inv, Next, Counts, VecLen;
    } else {
      hide Inv, Step;
    }
  }

  lemma {:induction false} NoteStaysInRun(w: Worker, es: seq<Event>, c: nat)
    requires Inv(w) && AllSane(es, w.pool.blockSize) && c < |w.chans| && Noted(w.chans[c])
    requires StaysUp(w, es, c) && forall i :: 0 <= i < |es| ==> !Continues(es[i], c)
    ensures c < |Exec(w, es).chans| && Noted(Exec(w, es).chans[c])
    decreases |es|
  {
    hide Inv, Next;
    if es != [] {
      NoteStays(w, es[0], c);
      NextInv(w, es[0]);
      NoteStaysInRun(Next(w, es[0]), es[1..], c);
    }
  }

  ghost predicate Ends(w: Worker, e: Event, c: nat)
    requires Inv(w)
  {
    c < |Next(w, e).chans| && Next(w, e).chans[c].at.Ended?
  }

  /**
    A close of a waiting loop ends it at once if nothing is in flight, and otherwise at the next drain with nothing in
    flight.
   */
  lemma CloseWakes(w: Worker, busy: bool, c: nat)
    requires Inv(w) && c < |w.chans| && w.chans[c].at.Parked?
    ensures Inv(Next(w, Close(c, busy)))
    ensures if busy then Ends(Next(w, Close(c, busy)), Event.Drained(c, false), c) else Ends(w, Close(c, busy), c)
  {
    NextInv(w, Close(c, busy));
    StepMoves(w, Close(c, busy));
    hide Inv, Next, Counts, VecLen;
    if busy {
      DrainEnds(Next(w, Close(c, busy)), c);
    }
  }

  lemma DrainEnds(w: Worker, c: nat)
    requires Inv(w) && c < |w.chans| && w.chans[c].at.Parked? && w.chans[c].closed
    ensures Ends(w, Event.Drained(c, false), c)
  {
    StepMoves(w, Event.Drained(c, false));
    hide Inv, Next, Counts, VecLen;
  }

  /**
    A close of a loop that is writing or in the callback ends it at its next turn with nothing in flight, whatever
    happens in between.
   */
  lemma CloseIsNoticed(w: Worker, busy: bool, es: seq<Event>, c: nat)
    requires Inv(w) && AllSane(es, w.pool.blockSize) && c < |w.chans|
    requires w.chans[c].at.Writing? || w.chans[c].at.InCallback?
    requires forall i :: 0 <= i < |es| ==> !Continues(es[i], c)
    ensures var w1 := Next(w, Close(c, busy));
            && Inv(w1) && w1.pool.blockSize == w.pool.blockSize && c < |w1.chans|
            && (StaysUp(w1, es, c) && c < |Exec(w1, es).chans| && Exec(w1, es).chans[c].at.InCallback? ==>
                  Ends(Exec(w1, es), Continue(c, false), c))
  {
    hide Inv, Next, Noted, Ends;
    CloseNotes(w, busy, c);
    var w1 := Next(w, Close(c, busy));
    if StaysUp(w1, es, c) {
      NoteStaysInRun(w1, es, c);
      if Exec(w1, es).chans[c].at.InCallback? {
        NotedEnds(Exec(w1, es), c);
      }
    }
  }

  lemma CloseNotes(w: Worker, busy: bool, c: nat)
    requires Inv(w) && c < |w.chans| && (w.chans[c].at.Writing? || w.chans[c].at.InCallback?)
    ensures var w1 := Next(w, Close(c, busy));
            Inv(w1) && w1.pool.blockSize == w.pool.blockSize && |w1.chans| == |w.chans| && Noted(w1.chans[c])
  {
    NextInv(w, Close(c, busy));
    SameCount(w, Close(c, busy));
    StepMoves(w, Close(c, busy));
    hide Inv, Next, Counts, VecLen;
  }

  lemma NotedEnds(w: Worker, c: nat)
    requires Inv(w) && c < |w.chans| && Noted(w.chans[c]) && w.chans[c].at.InCallback?
    ensures Ends(w, Continue(c, false), c)
  {
    StepMoves(w, Continue(c, false));
    hide Inv, Next, Counts, VecLen;
  }
}
