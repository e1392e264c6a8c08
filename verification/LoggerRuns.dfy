/**
  Runs of a logger with one thread, written out step by step, in which lines that were
  accepted do not reach a file: deleted by the exit guard, or dropped because no file is open.
 */
module LoggerRuns {
  import opened LoggerHandOff

  lemma Unrolled(l: Logger, es: seq<Event>)
    requires Inv(l) && es != []
    ensures Shape(l) && Inv(Next(l, es[0]))
    ensures Exec(l, es) == if |es| == 1 then Next(l, es[0]) else Exec(Next(l, es[0]), es[1..])
  {
    hide Inv, Next;
    NextInv(l, es[0]);
  }

  lemma {:induction false} ExecConcat(l: Logger, a: seq<Event>, b: seq<Event>)
    requires Inv(l)
    ensures Exec(l, a + b) == Exec(Exec(l, a), b)
    decreases |a|
  {
    hide Inv, Next;
    if a == [] {
      assert a + b == b;
    } else {
      assert (a + b)[0] == a[0] && (a + b)[1..] == a[1..] + b;
      NextInv(l, a[0]);
      ExecConcat(Next(l, a[0]), a[1..], b);
    }
  }

  /** A step of the only thread. */
  lemma Steps(l: Logger, e: Event)
    requires Shape(l) && |l.threads| == 1
    requires !e.Dequeue? && !e.Land? && !e.Reset? && !e.NewDay? && !e.Reopen? && !e.Enqueue? && e.t == 0
    ensures Next(l, e) == l.(threads := [ThreadStep(l.threads[0], e)])
  {
  }

  /** The queue takes the only thread's front buffer. */
  lemma Takes(l: Logger)
    requires Shape(l) && |l.threads| == 1 && l.threads[0].pc.Enqueueing? && l.queue == []
    ensures Next(l, Enqueue(0, true))
            == l.(threads := [ThreadEnqueued(l.threads[0], l.threads[0].pc.why)], queue := [Ref(0, l.threads[0].w)])
  {
    assert [] + [Ref(0, l.threads[0].w)] == [Ref(0, l.threads[0].w)];
  }

  lemma SizeOfOne(a: Line)
    ensures Size([a]) == |a| && Size([]) == 0
  {
  }

  lemma Updated(x: Buffer, y: Buffer, z: Buffer)
    ensures [x, y][0 := z] == [z, y] && [x, y][1 := z] == [x, z]
  {
  }

  predicate LineOk(a: Line) {
    0 < |a| <= LINE_MAX
  }

  const EMPTY: Buffer := Buffer([], false, Mine)

  // ---------- Threads ----------

  /** The thread while it works on its first buffer. */
  ghost function First(lines: seq<Line>, flag: bool, stage: Stage, pc: Pc, accepted: seq<Line>): Thread {
    Thread([Buffer(lines, flag, stage), EMPTY], 0, pc, accepted)
  }

  /** The thread with a line in its second buffer. */
  ghost function Second(first: Buffer, b: Line, flag: bool, stage: Stage, pc: Pc, accepted: seq<Line>): Thread {
    Thread([first, Buffer([b], flag, stage)], 1, pc, accepted)
  }

  lemma FillsFirst(a: Line)
    requires LineOk(a)
    ensures ThreadStep(NewThread(), Call(0, a, false)) == NewThread().(pc := Storing(a))
    ensures ThreadStep(NewThread().(pc := Storing(a)), Store(0)) == First([a], false, Mine, Idle, [a])
  {
    SizeOfOne(a);
    Updated(EMPTY, EMPTY, Buffer([a], false, Mine));
    assert [] + [a] == [a];
  }

  /** A second later another line comes, and the buffer is to be handed over first. */
  lemma CallsLate(a: Line, b: Line)
    requires LineOk(a) && LineOk(b)
    ensures ThreadStep(First([a], false, Mine, Idle, [a]), Call(0, b, true))
            == First([a], false, Mine, Check(Late(b)), [a])
  {
    SizeOfOne(a);
  }

  lemma ExitsFirst(a: Line)
    requires LineOk(a)
    ensures ThreadStep(First([a], false, Mine, Idle, [a]), Exit(0)) == First([a], false, Mine, Check(Leaving), [a])
  {
    SizeOfOne(a);
  }

  /** The first buffer on its way into the queue. */
  lemma HandsFirst(a: Line, why: Why)
    ensures ThreadStep(First([a], false, Mine, Check(why), [a]), LoadBack(0))
            == First([a], false, Mine, Marking(why), [a])
    ensures ThreadStep(First([a], false, Mine, Marking(why), [a]), Mark(0))
            == First([a], true, Mine, Enqueueing(why), [a])
    ensures ThreadEnqueued(First([a], true, Mine, Enqueueing(why), [a]), why)
            == First([a], true, Queued, AfterEnqueue(why), [a])
  {
    Updated(Buffer([a], false, Mine), EMPTY, Buffer([a], true, Mine));
    Updated(Buffer([a], true, Mine), EMPTY, Buffer([a], true, Queued));
  }

  /** The second line goes into the other buffer, wherever the first buffer is. */
  lemma FillsSecond(first: Buffer, a: Line, b: Line)
    ensures var th := Thread([first, EMPTY], 0, Switching(b), [a]);
            var th' := Thread([first, EMPTY], 1, Storing(b), [a]);
            && ThreadStep(th, Switch(0)) == th'
            && ThreadStep(th', Store(0)) == Second(first, b, false, Mine, Idle, [a, b])
  {
    Updated(first, EMPTY, Buffer([b], false, Mine));
    assert [] + [b] == [b] && [a] + [b] == [a, b];
  }

  lemma ExitsSecond(first: Buffer, b: Line, accepted: seq<Line>)
    requires LineOk(b)
    ensures ThreadStep(Second(first, b, false, Mine, Idle, accepted), Exit(0))
            == Second(first, b, false, Mine, Check(Leaving), accepted)
    ensures ThreadStep(Second(first, b, false, Mine, Check(Leaving), accepted), LoadBack(0))
            == Second(first, b, false, Mine, if first.inFlight then Waiting else Marking(Leaving), accepted)
  {
    SizeOfOne(b);
  }

  lemma HandsSecond(b: Line, accepted: seq<Line>)
    ensures ThreadStep(Second(EMPTY, b, false, Mine, Marking(Leaving), accepted), Mark(0))
            == Second(EMPTY, b, true, Mine, Enqueueing(Leaving), accepted)
    ensures ThreadEnqueued(Second(EMPTY, b, true, Mine, Enqueueing(Leaving), accepted), Leaving)
            == Second(EMPTY, b, true, Queued, Waiting, accepted)
  {
    Updated(EMPTY, Buffer([b], false, Mine), Buffer([b], true, Mine));
    Updated(EMPTY, Buffer([b], true, Mine), Buffer([b], true, Queued));
  }

  // ---------- The backend ----------

  /** A buffer taken from the queue, written and given back. */
  ghost function WriteOut(): seq<Event> {
    [Dequeue, Land(0), Reset]
  }

  ghost function Placing(x: Buffer, y: Buffer, b: nat, z: Buffer): seq<Buffer> {
    if b == 0 then [z, y] else [x, z]
  }

  /** One buffer of the only thread replaced. */
  lemma Replaces(l: Logger, x: Buffer, y: Buffer, b: nat, z: Buffer)
    requires b < 2 && |l.threads| == 1 && l.threads[0].bufs == [x, y]
    ensures RefIn(l, Ref(0, b)) && At(l, Ref(0, b)) == if b == 0 then x else y
    ensures SetAt(l, Ref(0, b), z) == l.(threads := [l.threads[0].(bufs := Placing(x, y, b, z))])
    ensures Placing(x, y, b, z) == if b == 0 then [z, y] else [x, z]
  {
    Updated(x, y, z);
  }

  /** The logger while buffer `b` of its only thread is `z`. */
  ghost function With(l: Logger, x: Buffer, y: Buffer, b: nat, z: Buffer): Logger
    requires |l.threads| == 1
  {
    l.(threads := [l.threads[0].(bufs := Placing(x, y, b, z))])
  }

  /** Buffer `b` of the only thread, written to the open file. */
  lemma Writes(l: Logger, x: Buffer, y: Buffer, b: nat, a: Line)
    requires Inv(l) && l.open && l.backend == Working && l.out == [] && l.count == 0
    requires b < 2 && |l.threads| == 1 && l.threads[0].bufs == [x, y] && l.queue == [Ref(0, b)]
    requires (if b == 0 then x else y) == Buffer([a], true, Queued)
    ensures Exec(l, WriteOut())
            == With(l, x, y, b, EMPTY).(queue := [], offset := l.offset + |a|,
                                        regions := l.regions + [Region(0, l.file, true, l.offset, |a|, [a])])
  {
    InvShape(l);
    hide Inv, Exec;
    var es := WriteOut();
    var l1 := Submitted(l, x, y, b, a);
    Submits(l, x, y, b, a);
    Unrolled(l, es);
    var l2 := Completed(l, x, y, b, a);
    Lands(l, x, y, b, a);
    Unrolled(l1, es[1..]);
    GivesBack(l2, x, y, b);
    Unrolled(l2, es[2..]);
  }

  ghost function Submitted(l: Logger, x: Buffer, y: Buffer, b: nat, a: Line): Logger
    requires |l.threads| == 1
  {
    With(l, x, y, b, Buffer([a], true, Writing))
    .(queue := [], out := [Out(Ref(0, b), |l.regions|)], offset := l.offset + |a|, count := 1,
      regions := l.regions + [Region(0, l.file, true, l.offset, |a|, [])])
  }

  lemma Submits(l: Logger, x: Buffer, y: Buffer, b: nat, a: Line)
    requires Shape(l) && l.open && l.backend == Working && l.out == [] && l.count == 0
    requires b < 2 && |l.threads| == 1 && l.threads[0].bufs == [x, y] && l.queue == [Ref(0, b)]
    requires (if b == 0 then x else y) == Buffer([a], true, Queued)
    ensures Next(l, Dequeue) == Submitted(l, x, y, b, a)
  {
    SizeOfOne(a);
    hide Size, SetAt, At, RefIn;
    Replaces(l, x, y, b, Buffer([a], true, Writing));
    assert l.queue[1..] == [] && [] + [Out(Ref(0, b), |l.regions|)] == [Out(Ref(0, b), |l.regions|)];
  }

  ghost function Completed(l: Logger, x: Buffer, y: Buffer, b: nat, a: Line): Logger
    requires |l.threads| == 1
  {
    With(l, x, y, b, Buffer([], true, Cleared))
    .(queue := [], offset := l.offset + |a|, count := 1, backend := Clearing(Ref(0, b), true, false),
      regions := l.regions + [Region(0, l.file, true, l.offset, |a|, [a])])
  }

  lemma Lands(l: Logger, x: Buffer, y: Buffer, b: nat, a: Line)
    requires |l.threads| == 1 && l.backend == Working && l.out == [] && b < 2 && Shape(Submitted(l, x, y, b, a))
    ensures Next(Submitted(l, x, y, b, a), Land(0)) == Completed(l, x, y, b, a)
  {
    var l1, w := Submitted(l, x, y, b, a), Buffer([a], true, Writing);
    var x', y' := if b == 0 then w else x, if b == 0 then y else w;
    hide Size, SetAt, At, RefIn;
    Replaces(l1, x', y', b, Buffer([], true, Cleared));
    assert l1.out[..0] + l1.out[1..] == [];
    assert l1.regions[|l.regions| := l1.regions[|l.regions|].(lines := [a])]
           == l.regions + [Region(0, l.file, true, l.offset, |a|, [a])];
  }

  lemma GivesBack(l: Logger, x: Buffer, y: Buffer, b: nat)
    requires Shape(l) && |l.threads| == 1 && b < 2 && l.threads[0].bufs == Placing(x, y, b, Buffer([], true, Cleared))
    requires l.backend.Clearing? && l.backend.ref == Ref(0, b) && !l.backend.draining
    requires (l.backend.counted ==> l.count == 1)
    ensures Next(l, Reset)
            == With(l, x, y, b, EMPTY).(backend := Working, count := if l.backend.counted then 0 else l.count)
  {
    var c := Buffer([], true, Cleared);
    var x', y' := if b == 0 then c else x, if b == 0 then y else c;
    hide Size, SetAt, At, RefIn;
    Replaces(l, x', y', b, EMPTY);
  }

  /** Buffer 0 of the only thread, taken while no file is open. */
  lemma Discards(l: Logger, y: Buffer, a: Line)
    requires Inv(l) && !l.open && l.backend == Working && |l.threads| == 1
    requires l.threads[0].bufs == [Buffer([a], true, Queued), y] && l.queue == [Ref(0, 0)]
    ensures Exec(l, [Dequeue, Reset])
            == l.(threads := [l.threads[0].(bufs := [EMPTY, y])], queue := [],
                  regions := l.regions + [Region(0, l.file, false, l.offset, 0, [a])])
  {
    InvShape(l);
    var es, x := [Dequeue, Reset], Buffer([a], true, Queued);
    var l1 := With(l, x, y, 0, Buffer([], true, Cleared))
              .(queue := [], regions := l.regions + [Region(0, l.file, false, l.offset, 0, [a])],
                backend := Clearing(Ref(0, 0), false, false));
    hide Inv, Exec, Size, SetAt, At, RefIn;
    Replaces(l, x, y, 0, Buffer([], true, Cleared));
    assert l.queue[1..] == [];
    assert Next(l, es[0]) == l1;
    Unrolled(l, es);
    GivesBack(l1, x, y, 0);
    Unrolled(l1, es[1..]);
  }

  // ---------- Putting runs together ----------

  ghost predicate Reaches(l: Logger, es: seq<Event>, r: Logger) {
    Inv(l) && Exec(l, es) == r
  }

  lemma Then(l: Logger, a: seq<Event>, m: Logger, b: seq<Event>, r: Logger)
    requires Reaches(l, a, m) && Reaches(m, b, r)
    ensures Reaches(l, a + b, r)
  {
    hide Inv, Exec;
    ExecConcat(l, a, b);
  }

  lemma ThenStep(l: Logger, a: seq<Event>, m: Logger, e: Event, r: Logger)
    requires Reaches(l, a, m) && Shape(m) && Next(m, e) == r
    ensures Reaches(l, a + [e], r) && Inv(r) && Shape(r)
  {
    assert Inv(m);
    hide Inv, Exec, Next;
    NextInv(m, e);
    Unrolled(m, [e]);
    ExecConcat(l, a, [e]);
    InvShape(r);
  }

  /** The logger once the backend has tried to open its first file. */
  ghost function Opened(ok: bool, th: Thread): Logger {
    Logger([th], [], [], [], Working, ok, 1, 0, 0)
  }

  ghost function StoreOne(ok: bool, a: Line): seq<Event> {
    (([] + [Reopen(ok, 0)]) + [Call(0, a, false)]) + [Store(0)]
  }

  lemma OneStored(ok: bool, a: Line)
    requires LineOk(a)
    ensures Reaches(Start(1), StoreOne(ok, a), Opened(ok, First([a], false, Mine, Idle, [a])))
    ensures Shape(Opened(ok, First([a], false, Mine, Idle, [a])))
  {
    StartInv(1);
    InvShape(Start(1));
    var l0, l1, l2 := Start(1), Opened(ok, NewThread()), Opened(ok, NewThread().(pc := Storing(a)));
    assert Next(l0, Reopen(ok, 0)) == l1 by { assert l0.threads == [NewThread()]; }
    assert Reaches(l0, [], l0);
    hide Reaches, Inv, ThreadStep;
    FillsFirst(a);
    ThenStep(l0, [], l0, Reopen(ok, 0), l1);
    Steps(l1, Call(0, a, false));
    ThenStep(l0, [] + [Reopen(ok, 0)], l1, Call(0, a, false), l2);
    Steps(l2, Store(0));
    var l3 := Opened(ok, First([a], false, Mine, Idle, [a]));
    ThenStep(l0, ([] + [Reopen(ok, 0)]) + [Call(0, a, false)], l2, Store(0), l3);
  }

  /** The first buffer handed over, from the moment the thread wants to. */
  ghost function Hand(): seq<Event> {
    [LoadBack(0), Mark(0), Enqueue(0, true)]
  }

  lemma FirstHanded(l: Logger, a: Line, why: Why)
    requires Inv(l) && l.threads == [First([a], false, Mine, Check(why), [a])] && l.queue == []
    ensures Reaches(l, Hand(), l.(threads := [First([a], true, Queued, AfterEnqueue(why), [a])], queue := [Ref(0, 0)]))
  {
    hide Inv, Exec, ThreadStep, ThreadEnqueued;
    var es := Hand();
    var l1 := l.(threads := [First([a], false, Mine, Marking(why), [a])]);
    var l2 := l.(threads := [First([a], true, Mine, Enqueueing(why), [a])]);
    HandsFirst(a, why);
    Unrolled(l, es);
    Steps(l, es[0]);
    Unrolled(l1, es[1..]);
    Steps(l1, es[1]);
    Unrolled(l2, es[2..]);
    Takes(l2);
  }

  lemma SecondFilled(l: Logger, first: Buffer, a: Line, b: Line)
    requires Inv(l) && l.threads == [Thread([first, EMPTY], 0, Switching(b), [a])]
    ensures Reaches(l, [Switch(0), Store(0)], l.(threads := [Second(first, b, false, Mine, Idle, [a, b])]))
  {
    hide Inv, Exec, ThreadStep;
    var es := [Switch(0), Store(0)];
    FillsSecond(first, a, b);
    Unrolled(l, es);
    Steps(l, es[0]);
    var l1 := l.(threads := [Thread([first, EMPTY], 1, Storing(b), [a])]);
    Unrolled(l1, es[1..]);
    Steps(l1, es[1]);
  }

  lemma SecondExits(l: Logger, first: Buffer, b: Line, accepted: seq<Line>)
    requires Inv(l) && LineOk(b) && l.threads == [Second(first, b, false, Mine, Idle, accepted)]
    ensures var pc := if first.inFlight then Waiting else Marking(Leaving);
            Reaches(l, [Exit(0), LoadBack(0)], l.(threads := [Second(first, b, false, Mine, pc, accepted)]))
  {
    hide Inv, Exec, ThreadStep;
    var es := [Exit(0), LoadBack(0)];
    ExitsSecond(first, b, accepted);
    Unrolled(l, es);
    Steps(l, es[0]);
    var l1 := l.(threads := [Second(first, b, false, Mine, Check(Leaving), accepted)]);
    Unrolled(l1, es[1..]);
    Steps(l1, es[1]);
  }

  // ---------- Three runs that lose a line ----------

  /** Two lines stored, the second after the first buffer was handed over. */
  ghost function StoreTwo(ok: bool, a: Line, b: Line): seq<Event> {
    (StoreOne(ok, a) + [Call(0, b, true)]) + Hand()
  }

  lemma TwoCalled(ok: bool, a: Line, b: Line)
    requires LineOk(a) && LineOk(b)
    ensures Reaches(Start(1), StoreTwo(ok, a, b),
                    Opened(ok, First([a], true, Queued, Switching(b), [a])).(queue := [Ref(0, 0)]))
  {
    hide Reaches, Inv, ThreadStep;
    OneStored(ok, a);
    CallsLate(a, b);
    var l0 := Opened(ok, First([a], false, Mine, Idle, [a]));
    var l1 := Opened(ok, First([a], false, Mine, Check(Late(b)), [a]));
    Steps(l0, Call(0, b, true));
    ThenStep(Start(1), StoreOne(ok, a), l0, Call(0, b, true), l1);
    FirstHanded(l1, a, Late(b));
    Then(Start(1), StoreOne(ok, a) + [Call(0, b, true)], l1, Hand(),
         l1.(threads := [First([a], true, Queued, Switching(b), [a])], queue := [Ref(0, 0)]));
  }

  ghost function DeletedRun(a: Line, b: Line): seq<Event> {
    (((StoreTwo(true, a, b) + [Switch(0), Store(0)]) + [Exit(0), LoadBack(0)]) + WriteOut()) + [Delete(0)]
  }

  /** The thread exits while its back buffer is in flight: two lines accepted, one in the log, one deleted. */
  lemma ExitLosesLine(a: Line, b: Line)
    requires LineOk(a) && LineOk(b)
    ensures Inv(Start(1))
    ensures var l := Exec(Start(1), DeletedRun(a, b));
            && l.threads[0].pc.Gone? && l.threads[0].accepted == [a, b] && StoredOf(l.regions, 0) == [a]
  {
    var s, first := Start(1), Buffer([a], true, Queued);
    var g := Region(0, 1, true, 0, |a|, [a]);
    TwoCalled(true, a, b);
    var l0 := Opened(true, First([a], true, Queued, Switching(b), [a])).(queue := [Ref(0, 0)]);
    var l1 := l0.(threads := [Second(first, b, false, Mine, Idle, [a, b])]);
    var l2 := l0.(threads := [Second(first, b, false, Mine, Waiting, [a, b])]);
    var l3 := Opened(true, Second(EMPTY, b, false, Mine, Waiting, [a, b])).(regions := [g], offset := |a|);
    hide Inv, Exec, Reaches, ThreadStep;
    EndsInInv(s, StoreTwo(true, a, b), l0);
    SecondFilled(l0, first, a, b);
    Then(s, StoreTwo(true, a, b), l0, [Switch(0), Store(0)], l1);
    EndsInInv(s, StoreTwo(true, a, b) + [Switch(0), Store(0)], l1);
    SecondExits(l1, first, b, [a, b]);
    Then(s, StoreTwo(true, a, b) + [Switch(0), Store(0)], l1, [Exit(0), LoadBack(0)], l2);
    var upto := (StoreTwo(true, a, b) + [Switch(0), Store(0)]) + [Exit(0), LoadBack(0)];
    EndsInInv(s, upto, l2);
    Writes(l2, first, Buffer([b], false, Mine), 0, a);
    assert [] + [g] == [g];
    Reached(l2, WriteOut(), l3);
    Then(s, upto, l2, WriteOut(), l3);
    EndsInInv(s, upto + WriteOut(), l3);
    Deletes(l3, b, [a, b]);
    var l4 := l3.(threads := [Second(EMPTY, b, false, Mine, Gone, [a, b])]);
    ThenStep(s, upto + WriteOut(), l3, Delete(0), l4);
    IsReached(s, DeletedRun(a, b), l4);
    StoredAdd([], g, 0);
    assert [] + [a] == [a];
  }

  lemma EndsInInv(l: Logger, es: seq<Event>, r: Logger)
    requires Reaches(l, es, r)
    ensures Inv(r) && Shape(r)
  {
    hide Inv;
    InvShape(r);
  }

  lemma Reached(l: Logger, es: seq<Event>, r: Logger)
    requires Inv(l) && Exec(l, es) == r
    ensures Reaches(l, es, r)
  {
  }

  lemma IsReached(l: Logger, es: seq<Event>, r: Logger)
    requires Reaches(l, es, r)
    ensures Inv(l) && Exec(l, es) == r
  {
  }

  lemma Deletes(l: Logger, b: Line, accepted: seq<Line>)
    requires Shape(l) && l.threads == [Second(EMPTY, b, false, Mine, Waiting, accepted)]
    ensures Next(l, Delete(0)) == l.(threads := [Second(EMPTY, b, false, Mine, Gone, accepted)])
  {
    Steps(l, Delete(0));
  }

  ghost function DroppedRun(a: Line): seq<Event> {
    (((StoreOne(false, a) + [Exit(0)]) + Hand()) + [Dequeue, Reset]) + [Delete(0)]
  }

  /** No file could be opened: the guard hands the buffer over, the thread is gone, and the line is in no file. */
  lemma ExitDropsLine(a: Line)
    requires LineOk(a)
    ensures Inv(Start(1))
    ensures var l := Exec(Start(1), DroppedRun(a));
            && l.threads[0].pc.Gone? && l.threads[0].bufs == [EMPTY, EMPTY] && l.threads[0].accepted == [a]
            && OfThread(l.regions, 0) == [a] && StoredOf(l.regions, 0) == []
  {
    var s, g := Start(1), Region(0, 1, false, 0, 0, [a]);
    OneStored(false, a);
    var l0 := Opened(false, First([a], false, Mine, Idle, [a]));
    var l1 := Opened(false, First([a], false, Mine, Check(Leaving), [a]));
    var l2 := Opened(false, First([a], true, Queued, Waiting, [a])).(queue := [Ref(0, 0)]);
    var l3 := Opened(false, First([], false, Mine, Waiting, [a])).(regions := [g]);
    var l4 := Opened(false, First([], false, Mine, Gone, [a])).(regions := [g]);
    hide Inv, Exec, Reaches, ThreadStep;
    ExitsFirst(a);
    Steps(l0, Exit(0));
    ThenStep(s, StoreOne(false, a), l0, Exit(0), l1);
    FirstHanded(l1, a, Leaving);
    var upto := (StoreOne(false, a) + [Exit(0)]) + Hand();
    Then(s, StoreOne(false, a) + [Exit(0)], l1, Hand(), l2);
    EndsInInv(s, upto, l2);
    Discards(l2, EMPTY, a);
    assert [] + [g] == [g];
    Reached(l2, [Dequeue, Reset], l3);
    Then(s, upto, l2, [Dequeue, Reset], l3);
    EndsInInv(s, upto + [Dequeue, Reset], l3);
    DeletesFirst(l3, a);
    ThenStep(s, upto + [Dequeue, Reset], l3, Delete(0), l4);
    IsReached(s, DroppedRun(a), l4);
    StoredAdd([], g, 0);
    OfThreadAdd([], g, 0);
    assert [] + [a] == [a];
  }

  lemma DeletesFirst(l: Logger, a: Line)
    requires Shape(l) && l.threads == [First([], false, Mine, Waiting, [a])]
    ensures Next(l, Delete(0)) == l.(threads := [First([], false, Mine, Gone, [a])])
  {
    Steps(l, Delete(0));
  }

  ghost function Midnight(): seq<Event> {
    [NewDay, Reopen(true, 0)]
  }

  lemma NextDay(l: Logger)
    requires Inv(l) && l.backend == Working && l.count == 0
    ensures Reaches(l, Midnight(), l.(open := true, file := l.file + 1, offset := 0))
  {
    hide Inv, Exec;
    var es := Midnight();
    Unrolled(l, es);
    Unrolled(l.(backend := Draining), es[1..]);
  }

  /** The second buffer handed over by the exit guard. */
  lemma SecondHanded(l: Logger, b: Line, accepted: seq<Line>)
    requires Inv(l) && l.threads == [Second(EMPTY, b, false, Mine, Marking(Leaving), accepted)] && l.queue == []
    ensures Reaches(l, [Mark(0), Enqueue(0, true)],
                    l.(threads := [Second(EMPTY, b, true, Queued, Waiting, accepted)], queue := [Ref(0, 1)]))
  {
    hide Inv, Exec, ThreadStep, ThreadEnqueued;
    var es := [Mark(0), Enqueue(0, true)];
    var l1 := l.(threads := [Second(EMPTY, b, true, Mine, Enqueueing(Leaving), accepted)]);
    HandsSecond(b, accepted);
    Unrolled(l, es);
    Steps(l, es[0]);
    Unrolled(l1, es[1..]);
    Takes(l1);
  }

  ghost function DropThenStore(a: Line, b: Line): seq<Event> {
    (StoreTwo(false, a, b) + [Dequeue, Reset]) + [Switch(0), Store(0)]
  }

  /** The first line dropped while no file is open, the second in the front buffer. */
  lemma DroppedThenStored(a: Line, b: Line)
    requires LineOk(a) && LineOk(b)
    ensures var l := Opened(false, Second(EMPTY, b, false, Mine, Idle, [a, b]));
            Reaches(Start(1), DropThenStore(a, b), l.(regions := [Region(0, 1, false, 0, 0, [a])]))
  {
    var s, g := Start(1), Region(0, 1, false, 0, 0, [a]);
    TwoCalled(false, a, b);
    var l0 := Opened(false, First([a], true, Queued, Switching(b), [a])).(queue := [Ref(0, 0)]);
    var l1 := Opened(false, First([], false, Mine, Switching(b), [a])).(regions := [g]);
    hide Inv, Exec, Reaches, ThreadStep;
    EndsInInv(s, StoreTwo(false, a, b), l0);
    Discards(l0, EMPTY, a);
    assert [] + [g] == [g];
    Reached(l0, [Dequeue, Reset], l1);
    Then(s, StoreTwo(false, a, b), l0, [Dequeue, Reset], l1);
    EndsInInv(s, StoreTwo(false, a, b) + [Dequeue, Reset], l1);
    SecondFilled(l1, EMPTY, a, b);
    Then(s, StoreTwo(false, a, b) + [Dequeue, Reset], l1, [Switch(0), Store(0)],
         l1.(threads := [Second(EMPTY, b, false, Mine, Idle, [a, b])]));
  }

  ghost function SkippingRun(a: Line, b: Line): seq<Event> {
    (((DropThenStore(a, b) + Midnight()) + [Exit(0), LoadBack(0)]) + [Mark(0), Enqueue(0, true)]) + WriteOut()
  }

  /** The next day's file opens: it holds the second line and not the first, so it is no prefix of what was accepted. */
  lemma FileSkipsLine(a: Line, b: Line)
    requires LineOk(a) && LineOk(b) && a != b
    ensures Inv(Start(1))
    ensures var l := Exec(Start(1), SkippingRun(a, b));
            && l.threads[0].accepted == [a, b] && StoredOf(l.regions, 0) == [b]
            && !(StoredOf(l.regions, 0) <= l.threads[0].accepted)
  {
    var s, g, h := Start(1), Region(0, 1, false, 0, 0, [a]), Region(0, 2, true, 0, |b|, [b]);
    DroppedThenStored(a, b);
    var l0 := Opened(false, Second(EMPTY, b, false, Mine, Idle, [a, b])).(regions := [g]);
    var l1 := l0.(open := true, file := 2);
    var l2 := l1.(threads := [Second(EMPTY, b, false, Mine, Marking(Leaving), [a, b])]);
    var l3 := l1.(threads := [Second(EMPTY, b, true, Queued, Waiting, [a, b])], queue := [Ref(0, 1)]);
    hide Inv, Exec, Reaches, ThreadStep;
    EndsInInv(s, DropThenStore(a, b), l0);
    NextDay(l0);
    Then(s, DropThenStore(a, b), l0, Midnight(), l1);
    EndsInInv(s, DropThenStore(a, b) + Midnight(), l1);
    SecondExits(l1, EMPTY, b, [a, b]);
    Then(s, DropThenStore(a, b) + Midnight(), l1, [Exit(0), LoadBack(0)], l2);
    var upto := (DropThenStore(a, b) + Midnight()) + [Exit(0), LoadBack(0)];
    EndsInInv(s, upto, l2);
    SecondHanded(l2, b, [a, b]);
    Then(s, upto, l2, [Mark(0), Enqueue(0, true)], l3);
    EndsInInv(s, upto + [Mark(0), Enqueue(0, true)], l3);
    Writes(l3, EMPTY, Buffer([b], true, Queued), 1, b);
    var l4 := Exec(l3, WriteOut());
    Reached(l3, WriteOut(), l4);
    Then(s, upto + [Mark(0), Enqueue(0, true)], l3, WriteOut(), l4);
    IsReached(s, SkippingRun(a, b), l4);
    StoredAdd([], g, 0);
    StoredAdd([g], h, 0);
    assert [] + [g] == [g] && [] + [b] == [b];
  }
}
