/**
  What becomes of a thread's lines when it exits.  The guard hands the front buffer over only
  if the back buffer is not in flight when it looks and the queue then takes the front one;
  otherwise it waits for its back buffer and deletes what is left.
 */
module LoggerExit {
  import opened LoggerHandOff

  /** The thread is in the exit guard. */
  predicate Exiting(th: Thread) {
    match th.pc
    case Check(why) => why.Leaving?
    case Marking(why) => why.Leaving?
    case Enqueueing(why) => why.Leaving?
    case Unmarking(why) => why.Leaving?
    case Waiting => true
    case Gone => true
    case _ => false
  }

  /** The guard has yet to decide. */
  predicate Deciding(th: Thread) {
    Exiting(th) && (th.pc.Check? || th.pc.Marking? || th.pc.Enqueueing?)
  }

  /** `enqueue` of thread `t` returns in this step. */
  predicate Answers(l: Logger, e: Event, t: nat)
    requires t < |l.threads|
  {
    && e.Enqueue? && e.t == t && l.threads[t].pc.Enqueueing?
    && (e.ok ==> |l.queue| < FLUSH_QUEUE_CAPACITY)
  }

  /**
    In the run, the back buffer of thread `t` is not in flight when the thread next looks, and the queue takes the front
    buffer.
   */
  ghost predicate HandsOver(l: Logger, es: seq<Event>, t: nat)
    requires Inv(l) && t < |l.threads|
    decreases |es|
  {
    if es == [] then false
    else
      NextInv(l, es[0]);
      if es[0] == LoadBack(t) && l.threads[t].pc.Check? then
        !Back(l.threads[t]).inFlight && HandsOver(Next(l, es[0]), es[1..], t)
      else if Answers(l, es[0], t) then es[0].ok
      else HandsOver(Next(l, es[0]), es[1..], t)
  }

  /** Whether the front buffer will be empty when the thread state is deleted. */
  ghost predicate FrontLeaves(l: Logger, es: seq<Event>, t: nat)
    requires Inv(l) && Shape(l) && t < |l.threads|
  {
    if Deciding(l.threads[t]) then HandsOver(l, es, t)
    else !Front(l.threads[t]).stage.Mine? || Front(l.threads[t]).lines == []
  }

  // ---------- One step ----------

  /** What the backend may do to a thread: move a buffer it was given along, and return it empty. */
  ghost predicate Moved(th: Thread, th': Thread)
    requires |th.bufs| == 2
  {
    && th' == th.(bufs := th'.bufs) && |th'.bufs| == 2
    && forall b :: 0 <= b < 2 ==>
         || th'.bufs[b] == th.bufs[b]
         || (!th.bufs[b].stage.Mine? && (!th'.bufs[b].stage.Mine? || th'.bufs[b].lines == []))
  }

  /** Replacing one buffer that was given away. */
  lemma OneMoved(l: Logger, r: Ref, nb: Buffer, t: nat)
    requires Shape(l) && t < |l.threads| && RefIn(l, r) && !At(l, r).stage.Mine?
    requires !nb.stage.Mine? || nb.lines == []
    ensures |SetAt(l, r, nb).threads| == |l.threads| && Moved(l.threads[t], SetAt(l, r, nb).threads[t])
  {
  }

  lemma DequeueMoves(l: Logger, t: nat)
    requires QueueOk(l) && Shape(l) && t < |l.threads|
    ensures |DequeueStep(l).threads| == |l.threads| && Moved(l.threads[t], DequeueStep(l).threads[t])
  {
    hide Moved, SetAt, Size;
    if l.backend.Working? && l.queue != [] {
      var r, b := l.queue[0], At(l, l.queue[0]);
      OneMoved(l, r, if l.open then b.(stage := Writing) else b.(stage := Cleared, lines := []), t);
    } else {
      NotMoved(l.threads[t]);
    }
  }

  lemma NotMoved(th: Thread)
    requires |th.bufs| == 2
    ensures Moved(th, th)
  {
  }

  lemma LandMoves(l: Logger, k: nat, t: nat)
    requires OutsOk(l) && Shape(l) && t < |l.threads|
    ensures |LandStep(l, k).threads| == |l.threads| && Moved(l.threads[t], LandStep(l, k).threads[t])
  {
    hide Moved, SetAt, Size;
    if !l.backend.Clearing? && k < |l.out| {
      assert OutOk(l, l.out[k]);
      var r := l.out[k].ref;
      OneMoved(l, r, At(l, r).(stage := Cleared, lines := []), t);
    } else {
      NotMoved(l.threads[t]);
    }
  }

  lemma ResetMoves(l: Logger, t: nat)
    requires ClearingOk(l) && ThreadsOk(l) && Shape(l) && t < |l.threads|
    ensures |ResetStep(l).threads| == |l.threads| && Moved(l.threads[t], ResetStep(l).threads[t])
  {
    hide Moved, SetAt, Size;
    if l.backend.Clearing? {
      var r := l.backend.ref;
      assert ThreadOk(l.threads[r.t]);
      OneMoved(l, r, At(l, r).(inFlight := false, stage := Mine), t);
    } else {
      NotMoved(l.threads[t]);
    }
  }

  /** The events of the backend. */
  predicate OfBackend(e: Event) {
    e.Dequeue? || e.Land? || e.Reset? || e.NewDay? || e.Reopen?
  }

  lemma BackendMoves(l: Logger, e: Event, t: nat)
    requires Inv(l) && Shape(l) && t < |l.threads| && OfBackend(e)
    ensures |Next(l, e).threads| == |l.threads| && Moved(l.threads[t], Next(l, e).threads[t])
  {
    hide QueueOk, OutsOk, ClearingOk, ThreadsOk, Moved, DequeueStep, LandStep, ResetStep, LayoutOk, FilledOk, Placed;
    if e.Dequeue? {
      DequeueMoves(l, t);
    } else if e.Land? {
      LandMoves(l, e.k, t);
    } else if e.Reset? {
      ResetMoves(l, t);
    } else {
      NotMoved(l.threads[t]);
    }
  }

  /** A step of the backend, or of another thread, does not change what will become of the front buffer. */
  lemma MovedSame(l: Logger, es: seq<Event>, t: nat)
    requires Inv(l) && Shape(l) && t < |l.threads| && es != [] && Exiting(l.threads[t])
    requires Inv(Next(l, es[0])) && Shape(Next(l, es[0])) && |Next(l, es[0]).threads| == |l.threads|
    requires Moved(l.threads[t], Next(l, es[0]).threads[t]) && ThreadOk(l.threads[t])
    requires es[0] != LoadBack(t) && !Answers(l, es[0], t)
    ensures Exiting(Next(l, es[0]).threads[t])
    ensures FrontLeaves(l, es, t) == FrontLeaves(Next(l, es[0]), es[1..], t)
  {
    hide Inv, Next, Size;
  }

  lemma OthersDoNotMove(l: Logger, e: Event, t: nat)
    requires Shape(l) && t < |l.threads| && !OfBackend(e) && e.t != t
    ensures |Next(l, e).threads| == |l.threads| && Next(l, e).threads[t] == l.threads[t]
  {
    hide ThreadStep, ThreadEnqueued;
  }

  /** A step of the guard itself, other than `enqueue`. */
  lemma GuardStep(l: Logger, es: seq<Event>, t: nat)
    requires Inv(l) && Shape(l) && t < |l.threads| && es != [] && Exiting(l.threads[t]) && ThreadOk(l.threads[t])
    requires !OfBackend(es[0]) && es[0].t == t && !es[0].Enqueue?
    requires Inv(Next(l, es[0])) && Shape(Next(l, es[0]))
    ensures Next(l, es[0]).threads == l.threads[t := ThreadStep(l.threads[t], es[0])]
    ensures Exiting(Next(l, es[0]).threads[t])
    ensures FrontLeaves(l, es, t) == FrontLeaves(Next(l, es[0]), es[1..], t)
  {
    var th := l.threads[t];
    var th' := ThreadStep(th, es[0]);
    assert Next(l, es[0]).threads == l.threads[t := th'];
    GuardThread(th, es[0]);
    hide Inv, Next, Size, ThreadStep, ThreadOk;
  }

  /** The guard at thread level: nothing but its answer to the back buffer's flag matters. */
  lemma GuardThread(th: Thread, e: Event)
    requires ThreadOk(th) && Exiting(th) && !OfBackend(e) && !e.Enqueue?
    ensures var th' := ThreadStep(th, e);
            && Exiting(th') && |th'.bufs| == 2 && th'.w == th.w
            && Front(th').stage == Front(th).stage && Front(th').lines == Front(th).lines
            && (e.LoadBack? && th.pc.Check? ==> (Deciding(th') <==> !Back(th).inFlight))
            && (!(e.LoadBack? && th.pc.Check?) ==> (Deciding(th') <==> Deciding(th)))
            && (Deciding(th) ==> Front(th).stage.Mine? && Front(th).lines != [])
  {
    hide Size;
  }

  lemma GuardEnqueue(l: Logger, es: seq<Event>, t: nat)
    requires Inv(l) && Shape(l) && t < |l.threads| && es != [] && Exiting(l.threads[t]) && ThreadOk(l.threads[t])
    requires es[0].Enqueue? && es[0].t == t
    requires Inv(Next(l, es[0])) && Shape(Next(l, es[0]))
    ensures |Next(l, es[0]).threads| == |l.threads| && Exiting(Next(l, es[0]).threads[t])
    ensures Next(l, es[0]).threads[t].accepted == l.threads[t].accepted
    ensures FrontLeaves(l, es, t) == FrontLeaves(Next(l, es[0]), es[1..], t)
  {
    hide Inv, Size;
  }

  lemma LeavesStep(l: Logger, es: seq<Event>, t: nat)
    requires Inv(l) && t < |l.threads| && es != [] && Exiting(l.threads[t])
    ensures Shape(l) && Inv(Next(l, es[0])) && Shape(Next(l, es[0])) && |Next(l, es[0]).threads| == |l.threads|
    ensures Exiting(Next(l, es[0]).threads[t])
    ensures FrontLeaves(l, es, t) == FrontLeaves(Next(l, es[0]), es[1..], t)
  {
    var e := es[0];
    NextInv(l, e);
    InvShape(l);
    InvShape(Next(l, e));
    assert ThreadOk(l.threads[t]);
    hide Inv, Next, FrontLeaves, Moved, ThreadOk, ThreadStep;
    if OfBackend(e) {
      BackendMoves(l, e, t);
      MovedSame(l, es, t);
    } else if e.t != t {
      OthersDoNotMove(l, e, t);
      HasTwo(l.threads[t]);
      NotMoved(l.threads[t]);
      MovedSame(l, es, t);
    } else if e.Enqueue? {
      GuardEnqueue(l, es, t);
    } else {
      GuardStep(l, es, t);
    }
  }

  /** At the end of the guard the front buffer is empty exactly if it was handed over or was empty before. */
  lemma {:induction false} FrontAtTheEnd(l: Logger, es: seq<Event>, t: nat)
    requires Inv(l) && t < |l.threads| && Exiting(l.threads[t]) && Exec(l, es).threads[t].pc.Gone?
    ensures Shape(l) && Shape(Exec(l, es))
    ensures Front(Exec(l, es).threads[t]).lines == [] <==> FrontLeaves(l, es, t)
    decreases |es|
  {
    InvShape(l);
    InvShape(Exec(l, es));
    if es == [] {
      assert ThreadOk(l.threads[t]);
    } else {
      hide Inv, Next, Exiting, FrontLeaves, Shape;
      LeavesStep(l, es, t);
      NextInv(l, es[0]);
      FrontAtTheEnd(Next(l, es[0]), es[1..], t);
    }
  }

  // ---------- The theorem ----------

  /**
    Of a thread that is gone: its lines are in the files, all of them, iff none was dropped and none was left in front.
   */
  lemma GoneIff(l: Logger, t: nat)
    requires Inv(l) && t < |l.threads| && l.threads[t].pc.Gone?
    ensures Shape(l)
    ensures StoredOf(l.regions, t) == l.threads[t].accepted
            <==> AllStored(l.regions, t) && Front(l.threads[t]).lines == []
  {
    InvShape(l);
    assert ThreadOk(l.threads[t]) && Accounted(l.threads[t], OfThread(l.regions, t));
    StoredIff(l.regions, t);
    hide Inv, OfThread, StoredOf, AllStored;
    var over, front := OfThread(l.regions, t), Front(l.threads[t]).lines;
    assert l.threads[t].accepted == (over + []) + front;
    assert (over + []) + [] == over;
  }

  /**
    Every run from the step in which a thread enters its exit guard to the deletion of its state: all lines it was ever
    promised are in the files if and only if its front buffer was empty at the exit or the guard could hand it over, no
    lines of its had been dropped before, and none are dropped in the run.
   */
  lemma ExitKeepsAllIff(l: Logger, es: seq<Event>, t: nat)
    requires Inv(l) && t < |l.threads| && l.threads[t].pc.Idle?
    ensures Shape(l) && Inv(Next(l, Exit(t))) && |Next(l, Exit(t)).threads| == |l.threads|
    ensures var l1 := Next(l, Exit(t));
            var r := Exec(l1, es);
            r.threads[t].pc.Gone? ==>
              (StoredOf(r.regions, t) == r.threads[t].accepted
               <==> && (Front(l.threads[t]).lines == [] || HandsOver(l1, es, t))
                    && AllStored(l.regions, t) && NeverDrops(l1, es, t))
  {
    var l1 := Next(l, Exit(t));
    NextInv(l, Exit(t));
    InvShape(l);
    Enters(l, t);
    var r := Exec(l1, es);
    if r.threads[t].pc.Gone? {
      FrontAtTheEnd(l1, es, t);
      RunDrops(l1, es, t);
      hide Inv, Exec, Next, StoredOf, AllStored, HandsOver, NeverDrops;
      GoneIff(r, t);
    }
  }

  lemma Enters(l: Logger, t: nat)
    requires Inv(l) && Shape(l) && t < |l.threads| && l.threads[t].pc.Idle?
    ensures var l1 := Next(l, Exit(t));
            && l1.regions == l.regions && |l1.threads| == |l.threads| && |l1.threads[t].bufs| == 2
            && l1.threads[t].w == l.threads[t].w < 2 && l1.threads[t].bufs == l.threads[t].bufs
            && Front(l1.threads[t]).stage.Mine? && Exiting(l1.threads[t])
            && (Deciding(l1.threads[t]) <==> Front(l.threads[t]).lines != [])
  {
    assert ThreadOk(l.threads[t]);
    SizeOfWhole(Front(l.threads[t]).lines);
    hide Inv, Size;
  }
}
