/**
  A call of `append` from beginning to end: which lines are accepted, when the front buffer is
  handed over, and that every call returns.
 */
module LoggerCalls {
  import opened LoggerHandOff
  import opened LoggerExit

  /** The thread is inside `append`. */
  predicate Calling(th: Thread) {
    match th.pc
    case Check(why) => !why.Leaving?
    case Marking(why) => !why.Leaving?
    case Enqueueing(why) => !why.Leaving?
    case Unmarking(why) => !why.Leaving?
    case Switching(_) => true
    case Storing(_) => true
    case _ => false
  }

  /** Thread `t` is inside one call of `append` until the end of the run, where it may have returned. */
  ghost predicate InOneCall(l: Logger, es: seq<Event>, t: nat)
    requires Inv(l)
    decreases |es|
  {
    && t < |l.threads|
    && (es != [] ==> Calling(l.threads[t]) && (NextInv(l, es[0]); InOneCall(Next(l, es[0]), es[1..], t)))
  }

  /** What a call leaves behind: the lines accepted so far, and which buffer is in front with which lines. */
  datatype Result = Result(accepted: seq<Line>, w: nat, front: seq<Line>)

  ghost function ResultOf(th: Thread): Result
    requires |th.bufs| == 2 && th.w < 2
  {
    Result(th.accepted, th.w, Front(th).lines)
  }

  function Stored(r: Result, line: Line): Result {
    r.(accepted := r.accepted + [line], front := r.front + [line])
  }

  /** The front buffer handed over and the line in the other one. */
  function Swapped(r: Result, line: Line): Result
    requires r.w < 2
  {
    Result(r.accepted + [line], 1 - r.w, [line])
  }

  /** What becomes of the call, given whether the front buffer can be handed over. */
  ghost function Outcome(th: Thread, hands: bool): Result
    requires |th.bufs| == 2 && th.w < 2
  {
    var r := ResultOf(th);
    match th.pc
    case Check(why) => IfWanted(why, r, hands)
    case Marking(why) => IfWanted(why, r, hands)
    case Enqueueing(why) => IfWanted(why, r, hands)
    case Unmarking(why) => IfWanted(why, r, false)
    case Switching(line) => Swapped(r, line)
    case Storing(line) => Stored(r, line)
    case _ => r
  }

  ghost function IfWanted(why: Why, r: Result, hands: bool): Result
    requires r.w < 2
  {
    match why
    case Full(line) => if hands then Swapped(r, line) else r
    case Late(line) => if hands then Swapped(r, line) else Stored(r, line)
    case Leaving => r
  }

  // ---------- One step ----------

  /** Nothing the backend does to a buffer it was given matters to the call. */
  lemma MovedOutcome(th: Thread, th': Thread, hands: bool)
    requires ThreadOk(th) && Calling(th) && Moved(th, th')
    ensures |th'.bufs| == 2 && th'.w < 2 && th'.pc == th.pc && Outcome(th', hands) == Outcome(th, hands)
  {
    hide Size;
  }

  /** A step of the thread itself, other than `enqueue`. */
  lemma OwnOutcome(th: Thread, e: Event, hands: bool)
    requires ThreadOk(th) && Calling(th) && !OfBackend(e) && !e.Enqueue?
    ensures var th' := ThreadStep(th, e);
            && |th'.bufs| == 2 && th'.w < 2 && (Calling(th') || th'.pc.Idle?)
            && Outcome(th', hands)
               == Outcome(th, if e.LoadBack? && th.pc.Check? then !Back(th).inFlight && hands else hands)
  {
    hide Size;
  }

  lemma EnqueuedOutcome(th: Thread, hands: bool)
    requires ThreadOk(th) && Calling(th) && th.pc.Enqueueing?
    ensures var yes, no := ThreadEnqueued(th, th.pc.why), th.(pc := Unmarking(th.pc.why));
            && |yes.bufs| == 2 && yes.w < 2 && Calling(yes) && Outcome(yes, hands) == Outcome(th, true)
            && Calling(no) && Outcome(no, hands) == Outcome(th, false)
  {
    hide Size;
  }

  /** What the rest of the run makes of the call. */
  ghost function Expected(l: Logger, es: seq<Event>, t: nat): Result
    requires Inv(l) && Shape(l) && t < |l.threads|
  {
    Outcome(l.threads[t], HandsOver(l, es, t))
  }

  lemma EnqueueExpected(l: Logger, es: seq<Event>, t: nat)
    requires Inv(l) && Shape(l) && t < |l.threads| && es != [] && Calling(l.threads[t]) && ThreadOk(l.threads[t])
    requires es[0].Enqueue? && es[0].t == t && Inv(Next(l, es[0])) && Shape(Next(l, es[0]))
    ensures |Next(l, es[0]).threads| == |l.threads| && Calling(Next(l, es[0]).threads[t])
    ensures Expected(l, es, t) == Expected(Next(l, es[0]), es[1..], t)
  {
    var th := l.threads[t];
    hide Inv, Outcome, ThreadEnqueued, ThreadOk;
    if Answers(l, es[0], t) {
      EnqueuedOutcome(th, HandsOver(Next(l, es[0]), es[1..], t));
    } else {
      assert Next(l, es[0]) == l;
    }
  }

  lemma OwnExpected(l: Logger, es: seq<Event>, t: nat)
    requires Inv(l) && Shape(l) && t < |l.threads| && es != [] && Calling(l.threads[t]) && ThreadOk(l.threads[t])
    requires !OfBackend(es[0]) && es[0].t == t && !es[0].Enqueue? && Inv(Next(l, es[0])) && Shape(Next(l, es[0]))
    ensures |Next(l, es[0]).threads| == |l.threads|
    ensures Calling(Next(l, es[0]).threads[t]) || Next(l, es[0]).threads[t].pc.Idle?
    ensures Expected(l, es, t) == Expected(Next(l, es[0]), es[1..], t)
  {
    var th := l.threads[t];
    assert Next(l, es[0]).threads == l.threads[t := ThreadStep(th, es[0])];
    hide Inv, Outcome, ThreadStep, ThreadOk, Next;
    OwnOutcome(th, es[0], HandsOver(Next(l, es[0]), es[1..], t));
  }

  lemma MovedExpected(l: Logger, es: seq<Event>, t: nat)
    requires Inv(l) && Shape(l) && t < |l.threads| && es != [] && Calling(l.threads[t]) && ThreadOk(l.threads[t])
    requires Inv(Next(l, es[0])) && Shape(Next(l, es[0])) && |Next(l, es[0]).threads| == |l.threads|
    requires Moved(l.threads[t], Next(l, es[0]).threads[t]) && es[0] != LoadBack(t) && !Answers(l, es[0], t)
    ensures Calling(Next(l, es[0]).threads[t])
    ensures Expected(l, es, t) == Expected(Next(l, es[0]), es[1..], t)
  {
    hide Inv, Outcome, Moved, ThreadOk, Next;
    MovedOutcome(l.threads[t], Next(l, es[0]).threads[t], HandsOver(Next(l, es[0]), es[1..], t));
  }

  lemma CallStep(l: Logger, es: seq<Event>, t: nat)
    requires Inv(l) && t < |l.threads| && es != [] && Calling(l.threads[t])
    ensures Shape(l) && Inv(Next(l, es[0])) && Shape(Next(l, es[0])) && |Next(l, es[0]).threads| == |l.threads|
    ensures Calling(Next(l, es[0]).threads[t]) || Next(l, es[0]).threads[t].pc.Idle?
    ensures Expected(l, es, t) == Expected(Next(l, es[0]), es[1..], t)
  {
    var e := es[0];
    NextInv(l, e);
    InvShape(l);
    InvShape(Next(l, e));
    assert ThreadOk(l.threads[t]);
    hide Inv, Next, Expected, Moved, ThreadOk;
    if OfBackend(e) {
      BackendMoves(l, e, t);
      MovedExpected(l, es, t);
    } else if e.t != t {
      OthersDoNotMove(l, e, t);
      HasTwo(l.threads[t]);
      NotMoved(l.threads[t]);
      MovedExpected(l, es, t);
    } else if e.Enqueue? {
      EnqueueExpected(l, es, t);
    } else {
      OwnExpected(l, es, t);
    }
  }

  lemma {:induction false} CallRuns(l: Logger, es: seq<Event>, t: nat)
    requires Inv(l) && InOneCall(l, es, t) && t < |Exec(l, es).threads| && Exec(l, es).threads[t].pc.Idle?
    ensures Shape(l) && Shape(Exec(l, es))
    ensures ResultOf(Exec(l, es).threads[t]) == Expected(l, es, t)
    decreases |es|
  {
    InvShape(l);
    InvShape(Exec(l, es));
    if es != [] {
      hide Inv, Next, Expected, Shape, HandsOver;
      CallStep(l, es, t);
      CallRuns(Next(l, es[0]), es[1..], t);
    }
  }

  // ---------- The theorem ----------

  /** The line does not fit, or a second has passed and there is something to flush. */
  ghost predicate WantsRoom(th: Thread, line: Line, late: bool)
    requires |th.bufs| == 2 && th.w < 2
  {
    Size(Front(th).lines) + |line| > BUFFER_SIZE || (late && Front(th).lines != [])
  }

  /**
    Every run from a call of `append` to its return.  The front buffer is handed over if and only if the call wants
    room, the back buffer is not in flight when it looks, and the queue takes the front one; then the line is the first
    of the other buffer.  Otherwise the line goes to the end of the front buffer if it fits there, and is refused if it
    does not.
   */
  lemma AppendOutcome(l: Logger, line: Line, late: bool, es: seq<Event>, t: nat)
    requires Inv(l) && t < |l.threads| && l.threads[t].pc.Idle? && 0 < |line| <= LINE_MAX
    ensures Shape(l) && Inv(Next(l, Call(t, line, late)))
    ensures var l1, th := Next(l, Call(t, line, late)), l.threads[t];
            InOneCall(l1, es, t) && t < |Exec(l1, es).threads| && Exec(l1, es).threads[t].pc.Idle? ==>
              var th' := Exec(l1, es).threads[t];
              && |th'.bufs| == 2 && th'.w < 2
              && ResultOf(th') ==
                   if WantsRoom(th, line, late) && HandsOver(l1, es, t) then Swapped(ResultOf(th), line)
                   else if Size(Front(th).lines) + |line| <= BUFFER_SIZE then Stored(ResultOf(th), line)
                   else ResultOf(th)
  {
    InvShape(l);
    NextInv(l, Call(t, line, late));
    var l1 := Next(l, Call(t, line, late));
    InvShape(l1);
    CallEnters(l, line, late, t);
    if InOneCall(l1, es, t) && t < |Exec(l1, es).threads| && Exec(l1, es).threads[t].pc.Idle? {
      hide Inv, Next, HandsOver, InOneCall, Exec;
      CallRuns(l1, es, t);
    }
  }

  lemma CallEnters(l: Logger, line: Line, late: bool, t: nat)
    requires Inv(l) && Shape(l) && t < |l.threads| && l.threads[t].pc.Idle? && 0 < |line| <= LINE_MAX
    ensures var l1, th := Next(l, Call(t, line, late)), l.threads[t];
            && |l1.threads| == |l.threads| && |l1.threads[t].bufs| == 2 && l1.threads[t].w < 2 && Calling(l1.threads[t])
            && forall hands: bool ::
                 Outcome(l1.threads[t], hands) ==
                   if WantsRoom(th, line, late) && hands then Swapped(ResultOf(th), line)
                   else if Size(Front(th).lines) + |line| <= BUFFER_SIZE then Stored(ResultOf(th), line)
                   else ResultOf(th)
  {
    assert ThreadOk(l.threads[t]);
    SizeOfWhole(Front(l.threads[t]).lines);
    hide Inv, Size;
  }

  // ---------- Every call returns ----------

  /** How many steps of its own a thread is at most away from returning, or from waiting in its exit guard. */
  function StepsLeft(pc: Pc): nat {
    match pc
    case Storing(_) => 1
    case Switching(_) => 2
    case Unmarking(_) => 2
    case Enqueueing(_) => 3
    case Marking(_) => 4
    case Check(_) => 5
    case _ => 0
  }

  /** The next step of a thread; `ok` is what `enqueue` returns. */
  function NextStep(pc: Pc, t: nat, ok: bool): Event {
    match pc
    case Check(_) => LoadBack(t)
    case Marking(_) => Mark(t)
    case Enqueueing(_) => Enqueue(t, ok)
    case Unmarking(_) => Unmark(t)
    case Switching(_) => Switch(t)
    case Storing(_) => Store(t)
    case _ => Delete(t)
  }

  ghost function OwnStep(l: Logger, t: nat, ok: bool): Event
    requires t < |l.threads|
  {
    NextStep(l.threads[t].pc, t, ok && |l.queue| < FLUSH_QUEUE_CAPACITY)
  }

  lemma ThreadFewer(th: Thread, t: nat)
    requires |th.bufs| == 2 && th.w < 2 && StepsLeft(th.pc) > 0 && !th.pc.Enqueueing?
    ensures StepsLeft(ThreadStep(th, NextStep(th.pc, t, true)).pc) < StepsLeft(th.pc)
  {
    hide Size;
  }

  lemma EnqueueFewer(l: Logger, t: nat, ok: bool)
    requires Shape(l) && t < |l.threads| && l.threads[t].pc.Enqueueing? && (ok ==> |l.queue| < FLUSH_QUEUE_CAPACITY)
    ensures |EnqueueStep(l, t, ok).threads| == |l.threads|
    ensures StepsLeft(EnqueueStep(l, t, ok).threads[t].pc) < 3
  {
  }

  lemma StepsFewer(l: Logger, t: nat, ok: bool)
    requires Inv(l) && t < |l.threads| && StepsLeft(l.threads[t].pc) > 0
    ensures Shape(l) && |Next(l, OwnStep(l, t, ok)).threads| == |l.threads|
    ensures StepsLeft(Next(l, OwnStep(l, t, ok)).threads[t].pc) < StepsLeft(l.threads[t].pc)
  {
    InvShape(l);
    hide Inv, ThreadStep, EnqueueStep;
    if l.threads[t].pc.Enqueueing? {
      EnqueueFewer(l, t, ok && |l.queue| < FLUSH_QUEUE_CAPACITY);
    } else {
      ThreadFewer(l.threads[t], t);
    }
  }

  ghost function OwnSteps(l: Logger, t: nat, ok: bool): (es: seq<Event>)
    requires Inv(l) && t < |l.threads|
    ensures |es| <= StepsLeft(l.threads[t].pc)
    decreases StepsLeft(l.threads[t].pc)
  {
    if StepsLeft(l.threads[t].pc) == 0 then []
    else
      StepsFewer(l, t, ok);
      NextInv(l, OwnStep(l, t, ok));
      [OwnStep(l, t, ok)] + OwnSteps(Next(l, OwnStep(l, t, ok)), t, ok)
  }

  /** From anywhere inside `append`, at most five steps of the thread, and of nobody else, make the call return. */
  lemma {:induction false} CallReturns(l: Logger, t: nat, ok: bool)
    requires Inv(l) && t < |l.threads| && Calling(l.threads[t])
    ensures var es := OwnSteps(l, t, ok);
            InOneCall(l, es, t) && t < |Exec(l, es).threads| && Exec(l, es).threads[t].pc.Idle?
    decreases StepsLeft(l.threads[t].pc)
  {
    var e, es := OwnStep(l, t, ok), OwnSteps(l, t, ok);
    StepsFewer(l, t, ok);
    NextInv(l, e);
    var l' := Next(l, e);
    hide Inv, Next, Expected;
    assert es[0] == e && es[1..] == OwnSteps(l', t, ok);
    CallStep(l, es, t);
    if Calling(l'.threads[t]) {
      CallReturns(l', t, ok);
    }
  }

  /** From anywhere inside the exit guard, the same number of steps makes the thread wait for its buffers. */
  lemma {:induction false} ExitWaits(l: Logger, t: nat, ok: bool)
    requires Inv(l) && t < |l.threads| && Exiting(l.threads[t]) && !l.threads[t].pc.Gone?
    ensures var es := OwnSteps(l, t, ok);
            t < |Exec(l, es).threads| && Exec(l, es).threads[t].pc.Waiting?
    decreases StepsLeft(l.threads[t].pc)
  {
    if StepsLeft(l.threads[t].pc) > 0 {
      var e, es := OwnStep(l, t, ok), OwnSteps(l, t, ok);
      StepsFewer(l, t, ok);
      NextInv(l, e);
      var l' := Next(l, e);
      assert es[0] == e && es[1..] == OwnSteps(l', t, ok);
      NotGoneYet(l, t, ok);
      hide Inv, Next, FrontLeaves, OwnSteps;
      LeavesStep(l, es, t);
      ExitWaits(l', t, ok);
    }
  }

  lemma NotGoneYet(l: Logger, t: nat, ok: bool)
    requires Inv(l) && Shape(l) && t < |l.threads| && StepsLeft(l.threads[t].pc) > 0
    ensures t < |Next(l, OwnStep(l, t, ok)).threads| && !Next(l, OwnStep(l, t, ok)).threads[t].pc.Gone?
  {
    hide Inv, Size;
  }
}
