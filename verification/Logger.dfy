/**
  The logger's hand-off: any number of threads, each with two buffers, passing full buffers
  through the flush queue to one backend that writes them to the log file.  Each atomic
  access of `append`, of the exit guard and of the backend is one step of a run.

  A buffer is kept as the whole lines in it.  `stage` and `accepted` record where a buffer is
  and which lines `append` accepted; `regions` records every stretch of file the backend
  allotted, with the lines the kernel found in the buffer when the write completed.
 */
module LoggerHandOff {
  import opened Blocks

  type Line = seq<byte>

  const BUFFER_SIZE: nat := 1024 * 1024 * 32
  const LINE_MAX: nat := 319         // log() cuts a formatted line to this
  const FLUSH_QUEUE_CAPACITY: nat := 128

  datatype Stage = Mine | Queued | Writing | Cleared

  datatype Buffer = Buffer(lines: seq<Line>, inFlight: bool, stage: Stage)

  /** Why a thread wants to hand over its front buffer. */
  datatype Why = Full(line: Line) | Late(line: Line) | Leaving

  datatype Pc =
    | Idle
    | Check(why: Why)        // about to load the back buffer's in_flight_
    | Marking(why: Why)      // about to set the front buffer's in_flight_
    | Enqueueing(why: Why)
    | Unmarking(why: Why)    // enqueue failed; about to clear the flag again
    | Switching(line: Line)  // enqueue succeeded; about to change write_idx
    | Storing(line: Line)    // about to copy the line
    | Waiting                // the exit guard, spinning until neither buffer is in flight
    | Gone                   // ThreadState deleted

  datatype Thread = Thread(bufs: seq<Buffer>, w: nat, pc: Pc, accepted: seq<Line>)

  datatype Ref = Ref(t: nat, b: nat)

  /** A stretch of file number `file`; `stored` is false when no file was open and the buffer was dropped. */
  datatype Region = Region(t: nat, file: nat, stored: bool, at: nat, size: nat, lines: seq<Line>)

  /** An outstanding write. */
  datatype Out = Out(ref: Ref, region: nat)

  datatype Backend =
    | Working
    | Draining                                             // the date changed: waiting for outstanding writes
    | Clearing(ref: Ref, counted: bool, draining: bool)    // cleared; about to reset in_flight_ (and then the counter)

  datatype Logger = Logger(
    threads: seq<Thread>, queue: seq<Ref>, out: seq<Out>, regions: seq<Region>,
    backend: Backend, open: bool, file: nat, offset: nat, count: nat)

  datatype Event =
    | Call(t: nat, line: Line, late: bool)   // late: a second has passed since the last flush
    | Exit(t: nat)
    | LoadBack(t: nat)
    | Mark(t: nat)
    | Enqueue(t: nat, ok: bool)
    | Unmark(t: nat)
    | Switch(t: nat)
    | Store(t: nat)
    | Delete(t: nat)
    | Dequeue
    | Land(k: nat)                           // the k-th outstanding write completed in full
    | Reset
    | NewDay
    | Reopen(ok: bool, size: nat)

  // ---------- Sizes and lines ----------

  function Size(ls: seq<Line>): nat {
    if ls == [] then 0 else |ls[0]| + Size(ls[1..])
  }

  lemma {:induction false} SizeGrows(ls: seq<Line>, line: Line)
    ensures Size(ls + [line]) == Size(ls) + |line|
    decreases |ls|
  {
    if ls == [] {
      assert [] + [line] == [line];
    } else {
      assert (ls + [line])[1..] == ls[1..] + [line];
      SizeGrows(ls[1..], line);
    }
  }

  /** No line is empty: a formatted line has at least its newline. */
  ghost predicate Whole(ls: seq<Line>) {
    forall i :: 0 <= i < |ls| ==> ls[i] != []
  }

  lemma SizeOfWhole(ls: seq<Line>)
    requires Whole(ls)
    ensures Size(ls) == 0 <==> ls == []
  {
  }

  /** The lines of one thread that the backend has finished with, stored or dropped, in order. */
  ghost function OfThread(rs: seq<Region>, t: nat): seq<Line> {
    if rs == [] then []
    else
      var last := rs[|rs| - 1];
      OfThread(rs[..|rs| - 1], t) + if last.t == t then last.lines else []
  }

  lemma OfThreadAdd(rs: seq<Region>, r: Region, t: nat)
    ensures OfThread(rs + [r], t) == OfThread(rs, t) + if r.t == t then r.lines else []
  {
    assert (rs + [r])[..|rs|] == rs;
  }

  /** Filling in a region that is its thread's last adds its lines at the end. */
  lemma {:induction false} OfThreadLand(rs: seq<Region>, i: nat, ls: seq<Line>, t: nat)
    requires i < |rs| && rs[i].lines == [] && forall j :: i < j < |rs| ==> rs[j].t != rs[i].t
    ensures OfThread(rs[i := rs[i].(lines := ls)], t) == OfThread(rs, t) + if rs[i].t == t then ls else []
    decreases |rs|
  {
    var rs' := rs[i := rs[i].(lines := ls)];
    var n := |rs| - 1;
    if i == n {
      assert rs'[..n] == rs[..n];
    } else {
      assert rs'[..n] == rs[..n][i := rs[i].(lines := ls)];
      OfThreadLand(rs[..n], i, ls, t);
      if rs[i].t == t {
        assert rs[n].t != t;
      }
    }
  }

  /** The lines of one thread in the log files, in file order. */
  ghost function StoredOf(rs: seq<Region>, t: nat): seq<Line> {
    if rs == [] then []
    else
      var last := rs[|rs| - 1];
      StoredOf(rs[..|rs| - 1], t) + if last.t == t && last.stored then last.lines else []
  }

  lemma StoredAdd(rs: seq<Region>, r: Region, t: nat)
    ensures StoredOf(rs + [r], t) == StoredOf(rs, t) + if r.t == t && r.stored then r.lines else []
  {
    assert (rs + [r])[..|rs|] == rs;
  }

  lemma {:induction false} StoredLand(rs: seq<Region>, i: nat, ls: seq<Line>, t: nat)
    requires i < |rs| && rs[i].lines == [] && rs[i].stored && forall j :: i < j < |rs| ==> rs[j].t != rs[i].t
    ensures StoredOf(rs[i := rs[i].(lines := ls)], t) == StoredOf(rs, t) + if rs[i].t == t then ls else []
    decreases |rs|
  {
    var rs' := rs[i := rs[i].(lines := ls)];
    var n := |rs| - 1;
    if i == n {
      assert rs'[..n] == rs[..n];
    } else {
      assert rs'[..n] == rs[..n][i := rs[i].(lines := ls)];
      StoredLand(rs[..n], i, ls, t);
      if rs[i].t == t {
        assert rs[n].t != t;
      }
    }
  }

  /** No lines of the thread were dropped for want of a file. */
  ghost predicate AllStored(rs: seq<Region>, t: nat) {
    forall i :: 0 <= i < |rs| && rs[i].t == t && rs[i].lines != [] ==> rs[i].stored
  }

  /** The files hold everything the backend finished with if and only if nothing was dropped. */
  lemma {:induction false} StoredIff(rs: seq<Region>, t: nat)
    ensures |StoredOf(rs, t)| <= |OfThread(rs, t)|
    ensures |StoredOf(rs, t)| == |OfThread(rs, t)| <==> AllStored(rs, t)
    ensures StoredOf(rs, t) == OfThread(rs, t) <==> AllStored(rs, t)
    decreases |rs|
  {
    if rs != [] {
      var init, last := rs[..|rs| - 1], rs[|rs| - 1];
      StoredIff(init, t);
      assert AllStored(rs, t) <==> AllStored(init, t) && (last.t == t && last.lines != [] ==> last.stored) by {
        assert forall i :: 0 <= i < |init| ==> rs[i] == init[i];
      }
    }
  }

  // ---------- Threads ----------

  function Front(th: Thread): Buffer
    requires |th.bufs| == 2 && th.w < 2
  {
    th.bufs[th.w]
  }

  function Back(th: Thread): Buffer
    requires |th.bufs| == 2 && th.w < 2
  {
    th.bufs[1 - th.w]
  }

  ghost predicate WhyOk(why: Why, front: Buffer) {
    match why
    case Full(line) => 0 < |line| <= LINE_MAX
    case Late(line) => 0 < |line| <= LINE_MAX && Size(front.lines) + |line| <= BUFFER_SIZE
    case Leaving => front.lines != []
  }

  /** A buffer that may be filled or refilled by its thread. */
  predicate Private(b: Buffer) { b.stage.Mine? && !b.inFlight }

  ghost predicate BufferOk(b: Buffer) {
    && Size(b.lines) <= BUFFER_SIZE && Whole(b.lines)
    && (!b.stage.Mine? ==> b.inFlight) && (b.stage.Cleared? ==> b.lines == [])
  }

  /** What holds of a thread wherever it is and whatever the backend has done with the buffer it was given. */
  ghost predicate ThreadOk(th: Thread) {
    && |th.bufs| == 2 && th.w < 2 && BufferOk(th.bufs[0]) && BufferOk(th.bufs[1])
    && (Back(th).stage.Mine? ==> !Back(th).inFlight && Back(th).lines == [])
    && match th.pc
       case Idle => Private(Front(th))
       case Check(why) => Private(Front(th)) && WhyOk(why, Front(th))
       case Marking(why) => Private(Front(th)) && Private(Back(th)) && WhyOk(why, Front(th))
       case Enqueueing(why) => Front(th).stage.Mine? && Front(th).inFlight && Private(Back(th)) && WhyOk(why, Front(th))
       case Unmarking(why) => Front(th).stage.Mine? && Front(th).inFlight && Private(Back(th)) && WhyOk(why, Front(th))
       case Switching(line) =>
         && Private(Back(th)) && 0 < |line| <= LINE_MAX
         && (Front(th).stage.Mine? ==> !Front(th).inFlight && Front(th).lines == [])
       case Storing(line) => Private(Front(th)) && line != [] && Size(Front(th).lines) + |line| <= BUFFER_SIZE
       case Waiting => (Front(th).stage.Mine? ==> !Front(th).inFlight) && (Private(Front(th)) || Private(Back(th)))
       case Gone => Private(Front(th)) && Private(Back(th))
  }

  function SetFront(th: Thread, b: Buffer): Thread
    requires |th.bufs| == 2 && th.w < 2
  {
    th.(bufs := th.bufs[th.w := b])
  }

  /** Where a thread goes when its buffer cannot be handed over. */
  function GiveUp(why: Why): Pc {
    match why
    case Full(_) => Idle
    case Late(line) => Storing(line)
    case Leaving => Waiting
  }

  /** A thread's own steps, except `enqueue`. */
  function ThreadStep(th: Thread, e: Event): Thread
    requires |th.bufs| == 2 && th.w < 2
  {
    match (e, th.pc)
    case (Call(_, line, late), Idle) =>
      if line == [] || |line| > LINE_MAX then th
      else if Size(Front(th).lines) + |line| > BUFFER_SIZE then th.(pc := Check(Full(line)))
      else if late && Size(Front(th).lines) != 0 then th.(pc := Check(Late(line)))
      else th.(pc := Storing(line))
    case (Exit(_), Idle) => th.(pc := if Size(Front(th).lines) == 0 then Waiting else Check(Leaving))
    case (LoadBack(_), Check(why)) => th.(pc := if Back(th).inFlight then GiveUp(why) else Marking(why))
    case (Mark(_), Marking(why)) => SetFront(th, Front(th).(inFlight := true)).(pc := Enqueueing(why))
    case (Unmark(_), Unmarking(why)) => SetFront(th, Front(th).(inFlight := false)).(pc := GiveUp(why))
    case (Switch(_), Switching(line)) => th.(w := 1 - th.w, pc := Storing(line))
    case (Store(_), Storing(line)) =>
      SetFront(th, Front(th).(lines := Front(th).lines + [line])).(pc := Idle, accepted := th.accepted + [line])
    case (Delete(_), Waiting) => if Front(th).inFlight || Back(th).inFlight then th else th.(pc := Gone)
    case _ => th
  }

  function AfterEnqueue(why: Why): Pc {
    match why
    case Full(line) => Switching(line)
    case Late(line) => Switching(line)
    case Leaving => Waiting
  }

  function ThreadEnqueued(th: Thread, why: Why): Thread
    requires |th.bufs| == 2 && th.w < 2
  {
    SetFront(th, Front(th).(stage := Queued)).(pc := AfterEnqueue(why))
  }

  /** What a thread's lines amount to: handed over, then in the back buffer, then in the front buffer. */
  ghost predicate Accounted(th: Thread, over: seq<Line>)
    requires |th.bufs| == 2 && th.w < 2
  {
    th.accepted == (over + Back(th).lines) + Front(th).lines
  }

  /** No step of a thread touches a buffer that is queued, being written or being cleared. */
  ghost predicate HandsOff(th: Thread, th': Thread)
    requires |th.bufs| == 2 && |th'.bufs| == 2
  {
    forall b :: 0 <= b < 2 ==>
      && th'.bufs[b].stage == th.bufs[b].stage && (!th.bufs[b].stage.Mine? ==> th'.bufs[b] == th.bufs[b])
  }

  /** A step keeps the thread's invariant and its account, and keeps its hands off buffers it gave away. */
  ghost predicate StepOk(th: Thread, th': Thread, over: seq<Line>)
    requires |th.bufs| == 2
  {
    ThreadOk(th') && Accounted(th', over) && HandsOff(th, th')
  }

  lemma ThreadStepOk(th: Thread, e: Event, over: seq<Line>)
    requires ThreadOk(th) && Accounted(th, over)
    ensures StepOk(th, ThreadStep(th, e), over)
  {
    hide Size;
    match (e, th.pc)
    case (Call(_, line, late), Idle) => CallOk(th, line, late, over);
    case (Exit(_), Idle) => SizeOfWhole(Front(th).lines);
    case (Mark(_), Marking(why)) => FlagOk(th, true, Enqueueing(why), over);
    case (Unmark(_), Unmarking(why)) => FlagOk(th, false, GiveUp(why), over);
    case (Store(_), Storing(line)) => StoreOk(th, line, over);
    case (Switch(_), Switching(line)) => SwitchOk(th, line, over);
    case _ =>
  }

  lemma CallOk(th: Thread, line: Line, late: bool, over: seq<Line>)
    requires ThreadOk(th) && Accounted(th, over) && th.pc.Idle?
    ensures StepOk(th, ThreadStep(th, Call(0, line, late)), over)
    ensures forall t :: ThreadStep(th, Call(t, line, late)) == ThreadStep(th, Call(0, line, late))
  {
    hide Size;
  }

  lemma FlagOk(th: Thread, flag: bool, pc: Pc, over: seq<Line>)
    requires ThreadOk(th) && Accounted(th, over)
    requires || (th.pc.Marking? && flag && pc == Enqueueing(th.pc.why))
             || (th.pc.Unmarking? && !flag && pc == GiveUp(th.pc.why))
    ensures StepOk(th, SetFront(th, Front(th).(inFlight := flag)).(pc := pc), over)
  {
    hide Size;
  }

  lemma StoreOk(th: Thread, line: Line, over: seq<Line>)
    requires ThreadOk(th) && Accounted(th, over) && th.pc == Storing(line)
    ensures StepOk(th, ThreadStep(th, Store(0)), over)
    ensures forall t :: ThreadStep(th, Store(t)) == ThreadStep(th, Store(0))
  {
    hide Size;
    SizeGrows(Front(th).lines, line);
    assert (over + Back(th).lines) + (Front(th).lines + [line]) == ((over + Back(th).lines) + Front(th).lines) + [line];
  }

  lemma SwitchOk(th: Thread, line: Line, over: seq<Line>)
    requires ThreadOk(th) && Accounted(th, over) && th.pc == Switching(line)
    ensures StepOk(th, th.(w := 1 - th.w, pc := Storing(line)), over)
  {
    assert Size([]) == 0;
    hide Size;
    assert (over + []) + Front(th).lines == (over + Front(th).lines) + [];
  }

  // ---------- The system ----------

  ghost predicate Shape(l: Logger) {
    forall t :: 0 <= t < |l.threads| ==> |l.threads[t].bufs| == 2 && l.threads[t].w < 2
  }

  predicate RefIn(l: Logger, r: Ref) {
    r.t < |l.threads| && r.b < |l.threads[r.t].bufs|
  }

  function At(l: Logger, r: Ref): Buffer
    requires RefIn(l, r)
  {
    l.threads[r.t].bufs[r.b]
  }

  function SetAt(l: Logger, r: Ref, b: Buffer): Logger
    requires RefIn(l, r)
  {
    l.(threads := l.threads[r.t := l.threads[r.t].(bufs := l.threads[r.t].bufs[r.b := b])])
  }

  ghost function RefsOf(out: seq<Out>): (r: seq<Ref>)
    ensures |r| == |out| && forall i :: 0 <= i < |out| ==> r[i] == out[i].ref
  {
    seq(|out|, i requires 0 <= i < |out| => out[i].ref)
  }

  ghost predicate Distinct<T(!new)>(s: seq<T>) {
    forall i, j :: 0 <= i < j < |s| ==> s[i] != s[j]
  }

  ghost function EnqueueStep(l: Logger, t: nat, ok: bool): Logger
    requires Shape(l) && t < |l.threads|
  {
    var th := l.threads[t];
    if !th.pc.Enqueueing? || (ok && |l.queue| >= FLUSH_QUEUE_CAPACITY) then l
    else if ok then l.(threads := l.threads[t := ThreadEnqueued(th, th.pc.why)], queue := l.queue + [Ref(t, th.w)])
    else l.(threads := l.threads[t := th.(pc := Unmarking(th.pc.why))])
  }

  /** `submit_buf` for the next buffer of the queue. */
  ghost function DequeueStep(l: Logger): Logger {
    if !l.backend.Working? || l.queue == [] || !RefIn(l, l.queue[0]) then l
    else
      var r, b := l.queue[0], At(l, l.queue[0]);
      if l.open then
        SetAt(l, r, b.(stage := Writing))
        .(queue := l.queue[1..], out := l.out + [Out(r, |l.regions|)],
          regions := l.regions + [Region(r.t, l.file, true, l.offset, Size(b.lines), [])],
          offset := l.offset + Size(b.lines), count := l.count + 1)
      else
        SetAt(l, r, b.(stage := Cleared, lines := []))
        .(queue := l.queue[1..], backend := Clearing(r, false, false),
          regions := l.regions + [Region(r.t, l.file, false, l.offset, 0, b.lines)])
  }

  /** The first half of `handle_cqe`; the region gets what the kernel read from the buffer. */
  ghost function LandStep(l: Logger, k: nat): Logger {
    if l.backend.Clearing? || k >= |l.out| || !RefIn(l, l.out[k].ref) || l.out[k].region >= |l.regions| then l
    else
      var r, i := l.out[k].ref, l.out[k].region;
      var b := At(l, r);
      SetAt(l, r, b.(stage := Cleared, lines := []))
      .(out := l.out[..k] + l.out[k + 1..], regions := l.regions[i := l.regions[i].(lines := b.lines)],
        backend := Clearing(r, true, l.backend.Draining?))
  }

  /** The second half: the flag, then the counter. */
  ghost function ResetStep(l: Logger): Logger {
    if !l.backend.Clearing? || !RefIn(l, l.backend.ref) then l
    else
      var r, c := l.backend.ref, l.backend;
      SetAt(l, r, At(l, r).(inFlight := false, stage := Mine))
      .(backend := if c.draining then Draining else Working,
        count := if c.counted && l.count > 0 then l.count - 1 else l.count)
  }

  ghost function Next(l: Logger, e: Event): Logger
    requires Shape(l)
  {
    match e
    case Dequeue => DequeueStep(l)
    case Land(k) => LandStep(l, k)
    case Reset => ResetStep(l)
    case NewDay => if l.backend.Working? then l.(backend := Draining) else l
    case Reopen(ok, size) =>
      if !l.backend.Draining? || l.count != 0 then l
      else l.(backend := Working, open := ok, file := l.file + 1, offset := if ok then size else l.offset)
    case Enqueue(t, ok) => if t < |l.threads| then EnqueueStep(l, t, ok) else l
    case _ => if e.t < |l.threads| then l.(threads := l.threads[e.t := ThreadStep(l.threads[e.t], e)]) else l
  }

  // ---------- The invariant ----------

  ghost predicate QueueOk(l: Logger) {
    && |l.queue| <= FLUSH_QUEUE_CAPACITY && Distinct(l.queue)
    && forall i :: 0 <= i < |l.queue| ==> RefIn(l, l.queue[i]) && At(l, l.queue[i]).stage.Queued?
  }

  /** An outstanding write is its thread's last region, in the current file, as long as the buffer's contents. */
  ghost predicate OutOk(l: Logger, o: Out) {
    && RefIn(l, o.ref) && At(l, o.ref).stage.Writing? && o.region < |l.regions|
    && var g := l.regions[o.region];
       && g.t == o.ref.t && g.lines == [] && g.stored && g.file == l.file && g.size == Size(At(l, o.ref).lines)
       && forall j :: o.region < j < |l.regions| ==> l.regions[j].t != o.ref.t
  }

  ghost predicate OutsOk(l: Logger) {
    Distinct(RefsOf(l.out)) && forall i :: 0 <= i < |l.out| ==> OutOk(l, l.out[i])
  }

  ghost predicate ClearingOk(l: Logger) {
    l.backend.Clearing? ==> RefIn(l, l.backend.ref) && At(l, l.backend.ref).stage.Cleared?
  }

  /** No buffer is lost on its way: whatever stage it is in, the backend will find it. */
  ghost predicate Placed(l: Logger) {
    forall r :: RefIn(l, r) ==> PlaceOk(l, r)
  }

  ghost predicate PlaceOk(l: Logger, r: Ref)
    requires RefIn(l, r)
  {
    match At(l, r).stage
    case Mine => true
    case Queued => r in l.queue
    case Writing => r in RefsOf(l.out)
    case Cleared => l.backend.Clearing? && l.backend.ref == r
  }

  ghost predicate CountOk(l: Logger) {
    l.count == |l.out| + if l.backend.Clearing? && l.backend.counted then 1 else 0
  }

  /** Regions are allotted without gaps or overlaps, file by file. */
  ghost predicate LayoutOk(l: Logger) {
    && (forall i :: 0 <= i < |l.regions| ==>
          l.regions[i].file <= l.file && (l.regions[i].file == l.file ==> l.regions[i].stored == l.open))
    && (forall i :: 0 < i < |l.regions| ==> Follows(l.regions[i - 1], l.regions[i]))
    && (|l.regions| > 0 ==>
          var g := l.regions[|l.regions| - 1];
          g.file == l.file && g.stored ==> g.at + g.size == l.offset)
  }

  ghost predicate Follows(a: Region, b: Region) {
    a.file <= b.file && (a.file == b.file ==> a.stored == b.stored && (a.stored ==> a.at + a.size == b.at))
  }

  ghost function RegionsOf(out: seq<Out>): (r: seq<nat>)
    ensures |r| == |out| && forall i :: 0 <= i < |out| ==> r[i] == out[i].region
  {
    seq(|out|, i requires 0 <= i < |out| => out[i].region)
  }

  /** A region whose write has completed is exactly filled by the lines it got. */
  ghost predicate FilledOk(l: Logger) {
    forall i :: 0 <= i < |l.regions| && l.regions[i].stored && i !in RegionsOf(l.out) ==>
      l.regions[i].size == Size(l.regions[i].lines)
  }

  ghost predicate ThreadsOk(l: Logger) {
    forall t :: 0 <= t < |l.threads| ==> ThreadOk(l.threads[t]) && Accounted(l.threads[t], OfThread(l.regions, t))
  }

  ghost predicate Inv(l: Logger) {
    ThreadsOk(l) && QueueOk(l) && OutsOk(l) && ClearingOk(l) && Placed(l) && CountOk(l) && LayoutOk(l) && FilledOk(l)
  }

  // ---------- Steps of threads ----------

  lemma ThreadStepInv(l: Logger, t: nat, th': Thread)
    requires Inv(l) && t < |l.threads| && StepOk(l.threads[t], th', OfThread(l.regions, t))
    ensures Inv(l.(threads := l.threads[t := th']))
  {
    var l' := l.(threads := l.threads[t := th']);
    assert ThreadOk(l.threads[t]) && ThreadOk(th') && |l.threads[t].bufs| == 2 && |th'.bufs| == 2;
    hide Size, OfThread, ThreadOk, Accounted, QueueOk, OutsOk, ClearingOk, Placed, LayoutOk, FilledOk;
    assert ThreadsOk(l');
    hide ThreadsOk;
    Untouched(l, l', t);
    SameWay(l, l');
  }

  /** Neither list of the backend notices a change of buffers it was not given. */
  ghost predicate GivenSame(l: Logger, l': Logger) {
    && (forall r :: RefIn(l, r) <==> RefIn(l', r))
    && (forall r :: RefIn(l, r) ==>
          && At(l', r).stage == At(l, r).stage && (!At(l, r).stage.Mine? ==> At(l', r) == At(l, r)))
  }

  lemma Untouched(l: Logger, l': Logger, t: nat)
    requires t < |l.threads| && |l.threads[t].bufs| == 2 && |l'.threads| == |l.threads|
    requires forall d :: 0 <= d < |l.threads| && d != t ==> l'.threads[d] == l.threads[d]
    requires |l'.threads[t].bufs| == 2 && HandsOff(l.threads[t], l'.threads[t])
    ensures GivenSame(l, l')
  {
  }

  lemma SameWay(l: Logger, l': Logger)
    requires GivenSame(l, l') && l' == l.(threads := l'.threads)
    requires QueueOk(l) && OutsOk(l) && ClearingOk(l) && Placed(l) && LayoutOk(l) && FilledOk(l)
    ensures QueueOk(l') && OutsOk(l') && ClearingOk(l') && Placed(l') && LayoutOk(l') && FilledOk(l')
  {
    hide Size;
    assert OutsOk(l') by {
      forall i | 0 <= i < |l.out| ensures OutOk(l', l.out[i]) {
        assert OutOk(l, l.out[i]);
      }
    }
    assert Placed(l') by {
      forall r | RefIn(l', r) ensures PlaceOk(l', r) {
        assert PlaceOk(l, r);
      }
    }
  }

  lemma EnqueuedOk(th: Thread, over: seq<Line>)
    requires ThreadOk(th) && Accounted(th, over) && th.pc.Enqueueing?
    ensures var th' := ThreadEnqueued(th, th.pc.why);
            ThreadOk(th') && Accounted(th', over) && Front(th).stage.Mine? && th'.w == th.w
            && th'.bufs[th.w].stage.Queued? && th'.bufs[1 - th.w] == th.bufs[1 - th.w]
  {
    hide Size;
  }

  lemma EnqueueInv(l: Logger, t: nat, ok: bool)
    requires Inv(l) && Shape(l) && t < |l.threads|
    ensures Inv(EnqueueStep(l, t, ok))
  {
    var th, l' := l.threads[t], EnqueueStep(l, t, ok);
    if th.pc.Enqueueing? && !ok {
      UnmarkNext(th, OfThread(l.regions, t));
      ThreadStepInv(l, t, th.(pc := Unmarking(th.pc.why)));
    } else if th.pc.Enqueueing? && |l.queue| < FLUSH_QUEUE_CAPACITY {
      EnqueueRuns(l, t);
    }
  }

  lemma EnqueueRuns(l: Logger, t: nat)
    requires Inv(l) && Shape(l) && t < |l.threads| && l.threads[t].pc.Enqueueing? && |l.queue| < FLUSH_QUEUE_CAPACITY
    ensures Inv(EnqueueStep(l, t, true))
  {
    var th, l' := l.threads[t], EnqueueStep(l, t, true);
    var r := Ref(t, th.w);
    EnqueuedOk(th, OfThread(l.regions, t));
    hide Size, OfThread, ThreadOk, Accounted, QueueOk, OutsOk, Placed, LayoutOk, FilledOk;
    assert ThreadsOk(l');
    hide ThreadsOk;
    OneBuffer(l, l', r);
    QueueGrows(l, l', r);
    OutsElsewhere(l, l', r);
    LayoutSame(l, l');
    FilledSame(l, l');
    PlacedAfter(l, l', r);
  }

  lemma QueueGrows(l: Logger, l': Logger, r: Ref)
    requires QueueOk(l) && |l.queue| < FLUSH_QUEUE_CAPACITY && RefIn(l, r) && At(l, r).stage.Mine?
    requires RefIn(l', r) && At(l', r).stage.Queued? && l'.queue == l.queue + [r]
    requires forall q :: RefIn(l, q) <==> RefIn(l', q)
    requires forall q :: RefIn(l, q) && q != r ==> At(l', q) == At(l, q)
    ensures QueueOk(l')
  {
    assert r !in l.queue;
  }

  lemma FilledSame(l: Logger, l': Logger)
    requires FilledOk(l) && l'.regions == l.regions && l'.out == l.out
    ensures FilledOk(l')
  {
  }

  lemma UnmarkNext(th: Thread, over: seq<Line>)
    requires ThreadOk(th) && Accounted(th, over) && th.pc.Enqueueing?
    ensures StepOk(th, th.(pc := Unmarking(th.pc.why)), over)
  {
  }

  // ---------- Steps of the backend ----------

  /** `l'` differs from `l`, as far as buffers go, at `r` only. */
  lemma OneBuffer(l: Logger, l': Logger, r: Ref)
    requires RefIn(l, r) && |l'.threads| == |l.threads|
    requires forall d :: 0 <= d < |l.threads| && d != r.t ==> l'.threads[d] == l.threads[d]
    requires |l'.threads[r.t].bufs| == |l.threads[r.t].bufs|
    requires forall b :: 0 <= b < |l.threads[r.t].bufs| && b != r.b ==>
               l'.threads[r.t].bufs[b] == l.threads[r.t].bufs[b]
    ensures forall q :: RefIn(l, q) <==> RefIn(l', q)
    ensures forall q :: RefIn(l, q) && q != r ==> At(l', q) == At(l, q)
  {
  }

  /** The other buffers are still where the backend will find them. */
  lemma PlacedAfter(l: Logger, l': Logger, r: Ref)
    requires Placed(l) && RefIn(l, r) && RefIn(l', r) && PlaceOk(l', r)
    requires forall q :: RefIn(l, q) <==> RefIn(l', q)
    requires forall q :: RefIn(l, q) && q != r ==> At(l', q) == At(l, q)
    requires forall q :: q in l.queue && q != r ==> q in l'.queue
    requires forall q :: q in RefsOf(l.out) && q != r ==> q in RefsOf(l'.out)
    requires l.backend.Clearing? && l.backend.ref != r ==> l'.backend == l.backend
    ensures Placed(l')
  {
    forall q | RefIn(l', q) ensures PlaceOk(l', q) {
      if q != r {
        assert PlaceOk(l, q);
      }
    }
  }

  /** Outstanding writes of other buffers, when no region was changed. */
  lemma OutsElsewhere(l: Logger, l': Logger, r: Ref)
    requires OutsOk(l) && RefIn(l, r) && !At(l, r).stage.Writing?
    requires l'.out == l.out && l'.regions == l.regions && l'.file == l.file
    requires forall q :: RefIn(l, q) <==> RefIn(l', q)
    requires forall q :: RefIn(l, q) && q != r ==> At(l', q) == At(l, q)
    ensures OutsOk(l')
  {
    forall i | 0 <= i < |l.out| ensures OutOk(l', l.out[i]) {
      assert OutOk(l, l.out[i]);
    }
  }

  /** The thread's view of what the backend does to the buffer it was given; `moved` lines went to the log. */
  lemma GivenAway(th: Thread, b: nat, nb: Buffer, over: seq<Line>, moved: seq<Line>)
    requires ThreadOk(th) && Accounted(th, over) && b < 2 && !th.bufs[b].stage.Mine?
    requires moved + nb.lines == th.bufs[b].lines && (moved == [] || nb.lines == [])
    requires BufferOk(nb) && (nb.stage.Mine? ==> !nb.inFlight && nb.lines == [])
    ensures var th' := th.(bufs := th.bufs[b := nb]);
            ThreadOk(th') && Accounted(th', over + moved) && th.bufs[1 - b].stage.Mine?
  {
    hide Size;
    var th' := th.(bufs := th.bufs[b := nb]);
    if b == th.w {
      assert Back(th).lines == [];
      assert ((over + moved) + []) + nb.lines == (over + []) + (moved + nb.lines);
    } else {
      assert ((over + moved) + nb.lines) + Front(th).lines == (over + (moved + nb.lines)) + Front(th).lines;
    }
  }

  lemma LogExtended(l: Logger, l': Logger, r: Ref, nb: Buffer, g: Region)
    requires ThreadsOk(l) && RefIn(l, r) && !At(l, r).stage.Mine?
    requires l'.threads == SetAt(l, r, nb).threads && l'.regions == l.regions + [g] && g.t == r.t
    requires g.lines + nb.lines == At(l, r).lines && (g.lines == [] || nb.lines == [])
    requires BufferOk(nb) && !nb.stage.Mine?
    ensures ThreadsOk(l') && |l.threads[r.t].bufs| == 2 && l.threads[r.t].bufs[1 - r.b].stage.Mine?
  {
    assert ThreadOk(l.threads[r.t]) && Accounted(l.threads[r.t], OfThread(l.regions, r.t));
    GivenAway(l.threads[r.t], r.b, nb, OfThread(l.regions, r.t), g.lines);
    hide Size, OfThread, ThreadOk, Accounted, BufferOk;
    forall t | 0 <= t < |l.threads|
      ensures ThreadOk(l'.threads[t]) && Accounted(l'.threads[t], OfThread(l'.regions, t))
    {
      OfThreadAdd(l.regions, g, t);
      if t != r.t {
        assert OfThread(l.regions, t) + [] == OfThread(l.regions, t);
      }
    }
  }

  /** A thread has no two buffers on their way. */
  lemma NoOtherOut(l: Logger, r: Ref, o: Out)
    requires RefIn(l, r) && |l.threads[r.t].bufs| == 2 && l.threads[r.t].bufs[1 - r.b].stage.Mine?
    requires OutOk(l, o) && o.ref != r
    ensures o.ref.t != r.t
  {
    assert o.ref.t == r.t && o.ref.b == r.b ==> o.ref == r;
  }

  lemma QueueElsewhere(l: Logger, l': Logger, r: Ref)
    requires QueueOk(l) && RefIn(l, r) && !At(l, r).stage.Queued? && l'.queue == l.queue
    requires forall q :: RefIn(l, q) <==> RefIn(l', q)
    requires forall q :: RefIn(l, q) && q != r ==> At(l', q) == At(l, q)
    ensures QueueOk(l')
  {
  }

  lemma QueueShrinks(l: Logger, l': Logger)
    requires QueueOk(l) && l.queue != [] && l'.queue == l.queue[1..]
    requires forall q :: RefIn(l, q) <==> RefIn(l', q)
    requires forall q :: RefIn(l, q) && q != l.queue[0] ==> At(l', q) == At(l, q)
    ensures QueueOk(l') && forall q :: q in l.queue ==> q == l.queue[0] || q in l'.queue
  {
    forall i | 0 <= i < |l'.queue| ensures l'.queue[i] == l.queue[i + 1] && l'.queue[i] != l.queue[0] {
    }
  }

  lemma LayoutGrows(l: Logger, l': Logger, g: Region)
    requires LayoutOk(l) && l'.regions == l.regions + [g] && l'.file == l.file && l'.open == l.open
    requires g.file == l.file && g.stored == l.open && g.at == l.offset && (g.stored ==> l'.offset == l.offset + g.size)
    ensures LayoutOk(l')
  {
    forall i | 0 < i < |l'.regions| ensures Follows(l'.regions[i - 1], l'.regions[i]) {
      if i < |l.regions| {
        assert Follows(l.regions[i - 1], l.regions[i]);
      }
    }
  }

  lemma SubmitInv(l: Logger)
    requires Inv(l) && l.backend.Working? && l.queue != [] && l.open
    ensures Inv(DequeueStep(l))
  {
    var r, l' := l.queue[0], DequeueStep(l);
    var b, nb := At(l, r), At(l, r).(stage := Writing);
    var g := Region(r.t, l.file, true, l.offset, Size(b.lines), []);
    assert [] + b.lines == b.lines;
    assert BufferOk(b) by { assert ThreadOk(l.threads[r.t]); }
    LogExtended(l, l', r, nb, g);
    hide ThreadsOk, Size, BufferOk;
    OneBuffer(l, l', r);
    QueueShrinks(l, l');
    LayoutGrows(l, l', g);
    SubmitOuts(l, l', r, g);
    SubmitFilled(l, l', g);
    hide FilledOk, QueueOk, OutsOk, LayoutOk;
    PlacedAfter(l, l', r);
  }

  lemma SubmitFilled(l: Logger, l': Logger, g: Region)
    requires FilledOk(l) && l'.regions == l.regions + [g] && |l'.out| == |l.out| + 1 && l'.out[..|l.out|] == l.out
    requires l'.out[|l.out|].region == |l.regions|
    ensures FilledOk(l')
  {
    hide Size;
    forall i | 0 <= i < |l'.regions| && i !in RegionsOf(l'.out) ensures i < |l.regions| && i !in RegionsOf(l.out) {
      assert RegionsOf(l'.out)[|l.out|] == |l.regions|;
      forall j | 0 <= j < |l.out| ensures RegionsOf(l.out)[j] != i {
        assert l'.out[j] == l'.out[..|l.out|][j] == l.out[j];
        assert RegionsOf(l'.out)[j] == l.out[j].region;
      }
    }
  }

  lemma SubmitOuts(l: Logger, l': Logger, r: Ref, g: Region)
    requires OutsOk(l) && RefIn(l, r) && |l.threads[r.t].bufs| == 2 && At(l, r).stage.Queued?
    requires l.threads[r.t].bufs[1 - r.b].stage.Mine?
    requires forall q :: RefIn(l, q) <==> RefIn(l', q)
    requires forall q :: RefIn(l, q) && q != r ==> At(l', q) == At(l, q)
    requires At(l', r) == At(l, r).(stage := Writing)
    requires l'.out == l.out + [Out(r, |l.regions|)] && l'.regions == l.regions + [g] && l'.file == l.file
    requires g.t == r.t && g.file == l.file && g.stored && g.size == Size(At(l, r).lines) && g.lines == []
    ensures OutsOk(l') && RefsOf(l'.out) == RefsOf(l.out) + [r]
  {
    assert RefsOf(l'.out) == RefsOf(l.out) + [r];
    forall i | 0 <= i < |l.out| ensures OutOk(l', l.out[i]) && l.out[i].ref != r {
      assert OutOk(l, l.out[i]);
      assert l.out[i].ref != r;
      NoOtherOut(l, r, l.out[i]);
    }
  }

  lemma DropInv(l: Logger)
    requires Inv(l) && l.backend.Working? && l.queue != [] && !l.open
    ensures Inv(DequeueStep(l))
  {
    var r, l' := l.queue[0], DequeueStep(l);
    var b := At(l, r);
    var nb, g := b.(stage := Cleared, lines := []), Region(r.t, l.file, false, l.offset, 0, b.lines);
    assert b.lines + [] == b.lines;
    assert BufferOk(b) && BufferOk(nb) by { assert ThreadOk(l.threads[r.t]); }
    LogExtended(l, l', r, nb, g);
    hide ThreadsOk, Size, BufferOk;
    OneBuffer(l, l', r);
    QueueShrinks(l, l');
    LayoutGrows(l, l', g);
    WritesNeedFile(l);
    assert OutsOk(l');
    assert FilledOk(l');
    hide FilledOk, QueueOk, OutsOk, LayoutOk;
    PlacedAfter(l, l', r);
  }

  lemma WritesNeedFile(l: Logger)
    requires OutsOk(l) && LayoutOk(l)
    ensures l.open || l.out == []
  {
    if l.out != [] {
      assert OutOk(l, l.out[0]);
    }
  }

  lemma LandInv(l: Logger, k: nat)
    requires Inv(l) && !l.backend.Clearing? && k < |l.out|
    ensures Inv(LandStep(l, k))
  {
    assert OutOk(l, l.out[k]);
    var r, i, l' := l.out[k].ref, l.out[k].region, LandStep(l, k);
    LandThreads(l, k);
    LandFilled(l, k);
    hide ThreadsOk, Size, QueueOk, LayoutOk, Placed, FilledOk;
    OneBuffer(l, l', r);
    LandOuts(l, l', k);
    hide OutsOk, OutOk;
    QueueElsewhere(l, l', r);
    LandLayout(l, l', i);
    PlacedAfter(l, l', r);
  }

  lemma LandFilled(l: Logger, k: nat)
    requires FilledOk(l) && !l.backend.Clearing? && k < |l.out| && OutOk(l, l.out[k])
    ensures FilledOk(LandStep(l, k))
  {
    var i, l' := l.out[k].region, LandStep(l, k);
    hide Size;
    forall j | 0 <= j < |l.regions| && j !in RegionsOf(l'.out) && j != i ensures j !in RegionsOf(l.out) {
      forall o | 0 <= o < |l.out| ensures RegionsOf(l.out)[o] != j {
        if o != k {
          var o' := if o < k then o else o - 1;
          assert l'.out[o'] == l.out[o];
          assert RegionsOf(l'.out)[o'] == l.out[o].region;
        }
      }
    }
  }

  lemma LandLayout(l: Logger, l': Logger, i: nat)
    requires LayoutOk(l) && i < |l.regions| == |l'.regions|
    requires l'.regions == l.regions[i := l.regions[i].(lines := l'.regions[i].lines)]
    requires l'.file == l.file && l'.open == l.open && l'.offset == l.offset
    ensures LayoutOk(l')
  {
    forall j | 0 < j < |l.regions| ensures Follows(l'.regions[j - 1], l'.regions[j]) {
      assert Follows(l.regions[j - 1], l.regions[j]);
    }
  }

  lemma LandThreads(l: Logger, k: nat)
    requires ThreadsOk(l) && !l.backend.Clearing? && k < |l.out| && OutOk(l, l.out[k])
    ensures ThreadsOk(LandStep(l, k))
    ensures var r := l.out[k].ref;
            |l.threads[r.t].bufs| == 2 && l.threads[r.t].bufs[1 - r.b].stage.Mine?
  {
    var r, i, l' := l.out[k].ref, l.out[k].region, LandStep(l, k);
    var b := At(l, r);
    var nb := b.(stage := Cleared, lines := []);
    assert ThreadOk(l.threads[r.t]) && Accounted(l.threads[r.t], OfThread(l.regions, r.t));
    assert b.lines + [] == b.lines;
    GivenAway(l.threads[r.t], r.b, nb, OfThread(l.regions, r.t), b.lines);
    hide Size, OfThread, ThreadOk, Accounted, BufferOk;
    forall t | 0 <= t < |l.threads|
      ensures ThreadOk(l'.threads[t]) && Accounted(l'.threads[t], OfThread(l'.regions, t))
    {
      OfThreadLand(l.regions, i, b.lines, t);
      if t != r.t {
        assert OfThread(l.regions, t) + [] == OfThread(l.regions, t);
      }
    }
  }

  lemma LandOuts(l: Logger, l': Logger, k: nat)
    requires OutsOk(l) && k < |l.out| && l.out[k].region < |l.regions| && RefIn(l, l.out[k].ref)
    requires var r := l.out[k].ref;
             |l.threads[r.t].bufs| == 2 && l.threads[r.t].bufs[1 - r.b].stage.Mine?
    requires forall q :: RefIn(l, q) <==> RefIn(l', q)
    requires forall q :: RefIn(l, q) && q != l.out[k].ref ==> At(l', q) == At(l, q)
    requires l'.out == l.out[..k] + l.out[k + 1..] && l'.file == l.file && |l'.regions| == |l.regions|
    requires forall j :: 0 <= j < |l.regions| ==> l'.regions[j].t == l.regions[j].t
    requires forall j :: 0 <= j < |l.regions| && j != l.out[k].region ==> l'.regions[j] == l.regions[j]
    ensures OutsOk(l') && forall q :: q in RefsOf(l.out) ==> q == l.out[k].ref || q in RefsOf(l'.out)
  {
    OneLanded(l.out, k);
    forall i | 0 <= i < |l'.out| ensures OutOk(l', l'.out[i]) {
      var o := if i < k then i else i + 1;
      assert l'.out[i] == l.out[o];
      assert RefsOf(l.out)[o] != RefsOf(l.out)[k];
      NoOtherOut(l, l.out[k].ref, l.out[o]);
      OtherOut(l, l', k, o);
    }
  }

  lemma OtherOut(l: Logger, l': Logger, k: nat, o: nat)
    requires k < |l.out| && o < |l.out| && l.out[o].ref.t != l.out[k].ref.t && OutOk(l, l.out[o]) && OutOk(l, l.out[k])
    requires RefIn(l', l.out[o].ref) && At(l', l.out[o].ref) == At(l, l.out[o].ref)
    requires l'.file == l.file && |l'.regions| == |l.regions|
    requires forall j :: 0 <= j < |l.regions| ==> l'.regions[j].t == l.regions[j].t
    requires forall j :: 0 <= j < |l.regions| && j != l.out[k].region ==> l'.regions[j] == l.regions[j]
    ensures OutOk(l', l.out[o])
  {
    hide Size;
  }

  lemma OneLanded(out: seq<Out>, k: nat)
    requires k < |out| && Distinct(RefsOf(out))
    ensures var rest := out[..k] + out[k + 1..];
            Distinct(RefsOf(rest)) && forall q :: q in RefsOf(out) ==> q == out[k].ref || q in RefsOf(rest)
  {
    var refs, rest := RefsOf(out), out[..k] + out[k + 1..];
    assert RefsOf(rest) == refs[..k] + refs[k + 1..];
    forall q | q in refs && q != refs[k] ensures q in RefsOf(rest) {
      var o :| 0 <= o < |refs| && refs[o] == q;
      assert RefsOf(rest)[if o < k then o else o - 1] == q;
    }
    forall i, j | 0 <= i < j < |rest| ensures RefsOf(rest)[i] != RefsOf(rest)[j] {
      var a, b := if i < k then i else i + 1, if j < k then j else j + 1;
      assert RefsOf(rest)[i] == refs[a] && RefsOf(rest)[j] == refs[b];
    }
  }

  lemma LayoutSame(l: Logger, l': Logger)
    requires LayoutOk(l) && l'.regions == l.regions && l'.file == l.file && l'.open == l.open && l'.offset == l.offset
    ensures LayoutOk(l')
  {
  }

  lemma ResetInv(l: Logger)
    requires Inv(l) && l.backend.Clearing?
    ensures Inv(ResetStep(l))
  {
    var r, l' := l.backend.ref, ResetStep(l);
    var b, nb := At(l, r), At(l, r).(inFlight := false, stage := Mine);
    assert ThreadOk(l.threads[r.t]) && Accounted(l.threads[r.t], OfThread(l.regions, r.t));
    assert OfThread(l.regions, r.t) + [] == OfThread(l.regions, r.t);
    GivenAway(l.threads[r.t], r.b, nb, OfThread(l.regions, r.t), []);
    hide Size, OfThread, ThreadOk, Accounted, BufferOk, QueueOk, OutsOk, LayoutOk, Placed;
    assert ThreadsOk(l');
    hide ThreadsOk;
    OneBuffer(l, l', r);
    OutsElsewhere(l, l', r);
    QueueElsewhere(l, l', r);
    LayoutSame(l, l');
    PlacedAfter(l, l', r);
  }

  lemma ReopenInv(l: Logger, ok: bool, size: nat)
    requires Inv(l) && Shape(l)
    ensures Inv(Next(l, Reopen(ok, size)))
  {
    hide Size, OfThread, ThreadOk, Accounted, QueueOk;
    var l' := Next(l, Reopen(ok, size));
    if l.backend.Draining? && l.count == 0 {
      assert l.out == [];
      assert OutsOk(l') && FilledOk(l') && LayoutOk(l');
      forall r | RefIn(l', r) ensures PlaceOk(l', r) {
        assert PlaceOk(l, r);
      }
      QueueSame(l, l');
    }
  }

  lemma QueueSame(l: Logger, l': Logger)
    requires QueueOk(l) && l'.queue == l.queue && l'.threads == l.threads
    ensures QueueOk(l')
  {
  }

  lemma NewDayInv(l: Logger)
    requires Inv(l) && Shape(l) && l.backend.Working?
    ensures Inv(Next(l, NewDay))
  {
    hide Size, OfThread, ThreadOk, Accounted, QueueOk;
    var l' := Next(l, NewDay);
    assert OutsOk(l') by {
      forall i | 0 <= i < |l.out| ensures OutOk(l', l.out[i]) {
        assert OutOk(l, l.out[i]);
      }
    }
    LayoutSame(l, l');
    QueueSame(l, l');
    forall r | RefIn(l', r) ensures PlaceOk(l', r) {
      assert PlaceOk(l, r);
    }
  }

  lemma InvShape(l: Logger)
    requires Inv(l)
    ensures Shape(l)
  {
    forall t | 0 <= t < |l.threads| ensures |l.threads[t].bufs| == 2 && l.threads[t].w < 2 {
      assert ThreadOk(l.threads[t]);
    }
  }

  lemma DequeueInv(l: Logger)
    requires Inv(l)
    ensures Inv(DequeueStep(l)) && |DequeueStep(l).threads| == |l.threads|
  {
    if l.backend.Working? && l.queue != [] {
      if l.open {
        SubmitInv(l);
      } else {
        DropInv(l);
      }
      hide Inv;
    }
  }

  lemma CompletionInv(l: Logger, k: nat)
    requires Inv(l)
    ensures Inv(LandStep(l, k)) && |LandStep(l, k).threads| == |l.threads|
    ensures Inv(ResetStep(l)) && |ResetStep(l).threads| == |l.threads|
  {
    if l.backend.Clearing? {
      ResetInv(l);
    } else if k < |l.out| {
      LandInv(l, k);
    }
    hide Inv;
  }

  lemma OwnStepInv(l: Logger, e: Event)
    requires Inv(l) && !e.Dequeue? && !e.Land? && !e.Reset? && !e.NewDay? && !e.Reopen? && !e.Enqueue?
    requires e.t < |l.threads|
    ensures Shape(l) && Inv(l.(threads := l.threads[e.t := ThreadStep(l.threads[e.t], e)]))
  {
    InvShape(l);
    var t := e.t;
    assert ThreadOk(l.threads[t]) && Accounted(l.threads[t], OfThread(l.regions, t));
    hide Inv, ThreadOk, Accounted, OfThread, ThreadStep, StepOk;
    ThreadStepOk(l.threads[t], e, OfThread(l.regions, t));
    ThreadStepInv(l, t, ThreadStep(l.threads[t], e));
  }

  /** Every step of every thread and of the backend keeps the invariant. */
  lemma NextInv(l: Logger, e: Event)
    requires Inv(l)
    ensures Shape(l) && Inv(Next(l, e)) && |Next(l, e).threads| == |l.threads|
  {
    hide Inv, Shape, DequeueStep, LandStep, ResetStep, ThreadStep;
    InvShape(l);
    match e
    case Dequeue => DequeueInv(l);
    case Land(k) => CompletionInv(l, k);
    case Reset => CompletionInv(l, 0);
    case NewDay =>
      if l.backend.Working? {
        NewDayInv(l);
      }
    case Reopen(ok, size) => ReopenInv(l, ok, size);
    case Enqueue(t, ok) =>
      if t < |l.threads| {
        EnqueueInv(l, t, ok);
      }
    case _ =>
      if e.t < |l.threads| {
        OwnStepInv(l, e);
      }
  }

  // ---------- Runs ----------

  ghost function Exec(l: Logger, es: seq<Event>): (r: Logger)
    requires Inv(l)
    ensures Inv(r) && |r.threads| == |l.threads|
    decreases |es|
  {
    if es == [] then l
    else
      NextInv(l, es[0]);
      Exec(Next(l, es[0]), es[1..])
  }

  function NewThread(): Thread {
    Thread([Buffer([], false, Mine), Buffer([], false, Mine)], 0, Idle, [])
  }

  /** Before the backend has opened its first file. */
  ghost function Start(n: nat): Logger {
    Logger(seq(n, i => NewThread()), [], [], [], Draining, false, 0, 0, 0)
  }

  lemma StartInv(n: nat)
    ensures Inv(Start(n))
  {
    var l := Start(n);
    assert Size([]) == 0;
    var none: seq<Line> := [];
    assert (none + none) + none == none;
    assert ThreadOk(NewThread()) && Accounted(NewThread(), none);
    assert forall t :: 0 <= t < n ==> l.threads[t] == NewThread();
  }

  /** Regions of one file do not overlap and come in the order in which they were allotted. */
  lemma {:induction false} RegionsApart(l: Logger, i: nat, j: nat)
    requires LayoutOk(l) && i < j < |l.regions| && l.regions[i].file == l.regions[j].file && l.regions[i].stored
    ensures l.regions[j].stored && l.regions[i].at + l.regions[i].size <= l.regions[j].at
    decreases j
  {
    assert Follows(l.regions[j - 1], l.regions[j]);
    if i < j - 1 {
      FilesAscend(l, i, j - 1);
      RegionsApart(l, i, j - 1);
    }
  }

  lemma {:induction false} FilesAscend(l: Logger, i: nat, j: nat)
    requires LayoutOk(l) && i <= j < |l.regions|
    ensures l.regions[i].file <= l.regions[j].file
    decreases j
  {
    if i < j {
      assert Follows(l.regions[j - 1], l.regions[j]);
      FilesAscend(l, i, j - 1);
    }
  }

  /** What the backend may rely on, and what it must not touch. */
  ghost predicate Safe(l: Logger, t: nat)
    requires Shape(l) && t < |l.threads|
  {
    var th := l.threads[t];
    var front := Ref(t, th.w);
    && !(th.bufs[0].inFlight && th.bufs[1].inFlight)
    && (!Back(th).inFlight ==> Back(th).lines == [])
    && (th.pc.Storing? ==>
          && NotOnItsWay(l, front)
          && Size(Front(th).lines) + |th.pc.line| <= BUFFER_SIZE)
    && (th.pc.Gone? ==> NotOnItsWay(l, Ref(t, 0)) && NotOnItsWay(l, Ref(t, 1)))
  }

  lemma InvSafe(l: Logger, t: nat)
    requires Inv(l) && t < |l.threads|
    ensures Shape(l) && Safe(l, t)
  {
    InvShape(l);
    assert ThreadOk(l.threads[t]);
    forall b: nat | b < 2 && l.threads[t].bufs[b].stage.Mine? ensures NotOnItsWay(l, Ref(t, b)) {
      MineIsNowhere(l, Ref(t, b));
    }
    hide QueueOk, OutsOk, LayoutOk, Placed, ThreadsOk, Size;
  }

  ghost predicate NotOnItsWay(l: Logger, r: Ref) {
    r !in l.queue && r !in RefsOf(l.out) && !(l.backend.Clearing? && l.backend.ref == r)
  }

  lemma MineIsNowhere(l: Logger, r: Ref)
    requires Inv(l) && RefIn(l, r) && At(l, r).stage.Mine?
    ensures NotOnItsWay(l, r)
  {
    forall i | 0 <= i < |l.out| ensures RefsOf(l.out)[i] != r {
      assert OutOk(l, l.out[i]);
    }
  }

  /** The regions of the log as a reader of the files sees them. */
  ghost predicate LogOk(l: Logger) {
    && (forall i, j :: 0 <= i < j < |l.regions| && l.regions[i].file == l.regions[j].file && l.regions[i].stored ==>
          l.regions[i].at + l.regions[i].size <= l.regions[j].at)
    && (forall i :: 0 < i < |l.regions| && l.regions[i - 1].file == l.regions[i].file && l.regions[i].stored ==>
          l.regions[i - 1].at + l.regions[i - 1].size == l.regions[i].at)
    && FilledOk(l)
  }

  lemma InvLog(l: Logger)
    requires Inv(l)
    ensures LogOk(l)
  {
    hide Size;
    forall i, j | 0 <= i < j < |l.regions| && l.regions[i].file == l.regions[j].file && l.regions[i].stored
      ensures l.regions[i].at + l.regions[i].size <= l.regions[j].at
    {
      RegionsApart(l, i, j);
    }
    forall i | 0 < i < |l.regions| && l.regions[i - 1].file == l.regions[i].file && l.regions[i].stored
      ensures l.regions[i - 1].at + l.regions[i - 1].size == l.regions[i].at
    {
      assert Follows(l.regions[i - 1], l.regions[i]);
    }
  }

  // ---------- Buffers dropped for want of a file ----------

  /** The step takes a buffer with lines of thread `t` from the queue while no file is open. */
  ghost predicate Drops(l: Logger, e: Event, t: nat) {
    && e.Dequeue? && l.backend.Working? && !l.open
    && l.queue != [] && RefIn(l, l.queue[0]) && l.queue[0].t == t && At(l, l.queue[0]).lines != []
  }

  ghost predicate NeverDrops(l: Logger, es: seq<Event>, t: nat)
    requires Inv(l)
    decreases |es|
  {
    es == [] ||
    (NextInv(l, es[0]);
     !Drops(l, es[0], t) && NeverDrops(Next(l, es[0]), es[1..], t))
  }

  lemma StepDrops(l: Logger, e: Event, t: nat)
    requires Inv(l)
    ensures Shape(l) && (AllStored(Next(l, e).regions, t) <==> AllStored(l.regions, t) && !Drops(l, e, t))
  {
    hide Inv, Shape, AllStored, DequeueStep, LandStep, ThreadStep, Drops;
    InvShape(l);
    NoDequeueNoDrop(l, e, t);
    match e
    case Dequeue => DequeueDrops(l, t);
    case Land(k) => LandDrops(l, k, t);
    case _ =>
  }

  lemma NoDequeueNoDrop(l: Logger, e: Event, t: nat)
    ensures !e.Dequeue? ==> !Drops(l, e, t)
  {
  }

  lemma DequeueDrops(l: Logger, t: nat)
    ensures AllStored(DequeueStep(l).regions, t) <==> AllStored(l.regions, t) && !Drops(l, Dequeue, t)
  {
    if l.backend.Working? && l.queue != [] && RefIn(l, l.queue[0]) {
      var b := At(l, l.queue[0]);
      var g := if l.open then Region(l.queue[0].t, l.file, true, l.offset, Size(b.lines), [])
               else Region(l.queue[0].t, l.file, false, l.offset, 0, b.lines);
      hide Size, AllStored;
      OneMoreStored(l.regions, g, t);
    }
  }

  lemma LandDrops(l: Logger, k: nat, t: nat)
    requires Inv(l)
    ensures AllStored(LandStep(l, k).regions, t) <==> AllStored(l.regions, t)
  {
    if !l.backend.Clearing? && k < |l.out| {
      assert OutOk(l, l.out[k]);
      hide Inv, AllStored;
      FilledStored(l.regions, l.out[k].region, At(l, l.out[k].ref).lines, t);
    }
  }

  lemma FilledStored(rs: seq<Region>, i: nat, ls: seq<Line>, t: nat)
    requires i < |rs| && rs[i].stored
    ensures AllStored(rs[i := rs[i].(lines := ls)], t) <==> AllStored(rs, t)
  {
    var rs' := rs[i := rs[i].(lines := ls)];
    assert forall j :: 0 <= j < |rs| && j != i ==> rs'[j] == rs[j];
    assert rs'[i].stored;
  }

  lemma OneMoreStored(rs: seq<Region>, g: Region, t: nat)
    ensures AllStored(rs + [g], t) <==> AllStored(rs, t) && (g.t == t && g.lines != [] ==> g.stored)
  {
    assert forall i :: 0 <= i < |rs| ==> (rs + [g])[i] == rs[i];
    assert (rs + [g])[|rs|] == g;
  }

  lemma {:induction false} RunDrops(l: Logger, es: seq<Event>, t: nat)
    requires Inv(l)
    ensures AllStored(Exec(l, es).regions, t) <==> AllStored(l.regions, t) && NeverDrops(l, es, t)
    decreases |es|
  {
    if es != [] {
      hide Inv, Next, Drops, AllStored;
      NextInv(l, es[0]);
      StepDrops(l, es[0], t);
      RunDrops(Next(l, es[0]), es[1..], t);
    }
  }

  /**
    In every interleaving of any number of threads with the backend: a thread never copies a line into a buffer that is
    queued, being written or being cleared, nor past the buffer's end; at most one of its buffers is in flight; a back
    buffer that is not in flight is empty; a deleted thread state is nowhere in use; the lines the backend has finished
    with are a prefix of the lines the thread was promised, whole and in order, and the rest are in its back buffer,
    then its front buffer; all of the former are in the files if and only if none of the thread's buffers was taken from
    the queue while no file was open; the regions of a file are contiguous, disjoint and exactly filled.
   */
  lemma EveryRun(n: nat, es: seq<Event>, t: nat)
    requires t < n
    ensures Inv(Start(n))
    ensures var l := Exec(Start(n), es);
            && Shape(l) && Safe(l, t) && LogOk(l)
            && OfThread(l.regions, t) <= l.threads[t].accepted
            && l.threads[t].accepted == (OfThread(l.regions, t) + Back(l.threads[t]).lines) + Front(l.threads[t]).lines
            && (StoredOf(l.regions, t) == OfThread(l.regions, t) <==> NeverDrops(Start(n), es, t))
            && (NeverDrops(Start(n), es, t) ==> StoredOf(l.regions, t) <= l.threads[t].accepted)
  {
    StartInv(n);
    var l := Exec(Start(n), es);
    RunDrops(Start(n), es, t);
    StoredIff(l.regions, t);
    hide Exec, NeverDrops, AllStored;
    InvSafe(l, t);
    InvLog(l);
    assert Accounted(l.threads[t], OfThread(l.regions, t));
  }

  /**
    Nothing is written through a closed or replaced descriptor: the file is changed only when no write is outstanding.
   */
  lemma SwitchIsQuiet(l: Logger, ok: bool, size: nat)
    requires Inv(l)
    ensures Shape(l) && (Next(l, Reopen(ok, size)).file != l.file ==> l.out == [] && !l.backend.Clearing?)
  {
    InvShape(l);
  }

  /**
    A handed-over buffer is still on its way with the same lines, or it is being cleared: after a completed write its
    lines are now the last of its thread's in the files; taken from the queue while no file was open, they are dropped.
   */
  ghost predicate Stable(l: Logger, l': Logger, r: Ref)
    requires RefIn(l, r)
  {
    && RefIn(l', r)
    && ((OnTheWay(l', r) && At(l', r).lines == At(l, r).lines)
        || (At(l', r).stage.Cleared? && if At(l, r).stage.Writing? then Landed(l, l', r) else Dropped(l, l', r)))
  }

  ghost predicate Landed(l: Logger, l': Logger, r: Ref)
    requires RefIn(l, r)
  {
    StoredOf(l'.regions, r.t) == StoredOf(l.regions, r.t) + At(l, r).lines
  }

  ghost predicate Dropped(l: Logger, l': Logger, r: Ref)
    requires RefIn(l, r)
  {
    && !l.open && StoredOf(l'.regions, r.t) == StoredOf(l.regions, r.t)
    && OfThread(l'.regions, r.t) == OfThread(l.regions, r.t) + At(l, r).lines
  }

  ghost predicate OnTheWay(l: Logger, r: Ref) {
    RefIn(l, r) && (At(l, r).stage.Queued? || At(l, r).stage.Writing?) && At(l, r).inFlight
  }

  /** A buffer of `r`'s is not cleared at any step of the run. */
  ghost predicate NotCleared(l: Logger, es: seq<Event>, r: Ref)
    requires Inv(l)
    decreases |es|
  {
    es == [] ||
    (NextInv(l, es[0]);
     && RefIn(Next(l, es[0]), r) && !At(Next(l, es[0]), r).stage.Cleared?
     && NotCleared(Next(l, es[0]), es[1..], r))
  }

  /**
    From hand-over to completion, in every run: the buffer stays on its way, flagged, and the lines in it do not change,
    whatever its thread and the others do.
   */
  lemma {:induction false} HandedOverIsStable(l: Logger, es: seq<Event>, r: Ref)
    requires Inv(l) && OnTheWay(l, r) && NotCleared(l, es, r)
    ensures var l' := Exec(l, es);
            OnTheWay(l', r) && At(l', r).lines == At(l, r).lines
    decreases |es|
  {
    if es != [] {
      hide Inv, Next;
      NextInv(l, es[0]);
      StepIsStable(l, es[0], r);
      HandedOverIsStable(Next(l, es[0]), es[1..], r);
    }
  }

  /** One step: the buffer goes on unchanged, or its lines become the last of its thread in the files or are dropped. */
  lemma StepIsStable(l: Logger, e: Event, r: Ref)
    requires Inv(l) && RefIn(l, r) && (At(l, r).stage.Queued? || At(l, r).stage.Writing?)
    ensures Shape(l) && Stable(l, Next(l, e), r)
  {
    hide Inv, Shape, DequeueStep, LandStep, ResetStep, ThreadStep, EnqueueStep, OnTheWay, Stable, RefIn, At, QueueOk;
    InvShape(l);
    Flagged(l, r);
    match e
    case Dequeue =>
      QueueOfInv(l);
      StableDequeue(l, r);
    case Land(k) => StableLand(l, k, r);
    case Reset => StableReset(l, r);
    case NewDay => StableSame(l, Next(l, e), r);
    case Reopen(_, _) => StableSame(l, Next(l, e), r);
    case Enqueue(t, ok) =>
      if t < |l.threads| {
        StableEnqueue(l, t, ok, r);
      } else {
        StableSame(l, l, r);
      }
    case _ =>
      if e.t < |l.threads| {
        StableOwn(l, e, r);
      } else {
        StableSame(l, l, r);
      }
  }

  lemma Flagged(l: Logger, r: Ref)
    requires Inv(l) && RefIn(l, r) && (At(l, r).stage.Queued? || At(l, r).stage.Writing?)
    ensures OnTheWay(l, r)
  {
    assert ThreadOk(l.threads[r.t]);
  }

  lemma QueueOfInv(l: Logger)
    requires Inv(l)
    ensures QueueOk(l)
  {
  }

  lemma StableSame(l: Logger, l': Logger, r: Ref)
    requires OnTheWay(l, r) && l'.threads == l.threads
    ensures Stable(l, l', r)
  {
  }

  lemma StableDequeue(l: Logger, r: Ref)
    requires QueueOk(l) && OnTheWay(l, r)
    ensures Stable(l, DequeueStep(l), r)
  {
    if l.backend.Working? && l.queue != [] && RefIn(l, l.queue[0]) {
      var q := l.queue[0];
      var l' := DequeueStep(l);
      hide OfThread, StoredOf, Size;
      if !l.open && q == r {
        var g := Region(q.t, l.file, false, l.offset, 0, At(l, q).lines);
        OfThreadAdd(l.regions, g, r.t);
        StoredAdd(l.regions, g, r.t);
        assert StoredOf(l.regions, r.t) + [] == StoredOf(l.regions, r.t);
      } else {
        assert At(l', r).lines == At(l, r).lines;
      }
    }
  }

  lemma StableLand(l: Logger, k: nat, r: Ref)
    requires Inv(l) && OnTheWay(l, r)
    ensures Stable(l, LandStep(l, k), r)
  {
    if !l.backend.Clearing? && k < |l.out| {
      assert OutOk(l, l.out[k]);
      hide ThreadsOk, OfThread, StoredOf, Size;
      StoredLand(l.regions, l.out[k].region, At(l, l.out[k].ref).lines, r.t);
    }
  }

  lemma StableReset(l: Logger, r: Ref)
    requires Inv(l) && OnTheWay(l, r)
    ensures Stable(l, ResetStep(l), r)
  {
  }

  lemma StableEnqueue(l: Logger, t: nat, ok: bool, r: Ref)
    requires Inv(l) && Shape(l) && t < |l.threads| && OnTheWay(l, r)
    ensures Stable(l, EnqueueStep(l, t, ok), r)
  {
    assert ThreadOk(l.threads[t]);
    hide ThreadsOk, OfThread, Size;
  }

  lemma StableOwn(l: Logger, e: Event, r: Ref)
    requires Inv(l) && Shape(l) && OnTheWay(l, r)
    requires !e.Dequeue? && !e.Land? && !e.Reset? && !e.NewDay? && !e.Reopen? && !e.Enqueue? && e.t < |l.threads|
    ensures Stable(l, l.(threads := l.threads[e.t := ThreadStep(l.threads[e.t], e)]), r)
  {
    var th, th' := l.threads[e.t], ThreadStep(l.threads[e.t], e);
    assert ThreadOk(th) && Accounted(th, OfThread(l.regions, e.t));
    hide ThreadStep, OfThread, Size, Inv, ThreadOk, Accounted;
    ThreadStepOk(th, e, OfThread(l.regions, e.t));
    HasTwo(th');
    Untouched(l, l.(threads := l.threads[e.t := th']), e.t);
  }

  lemma HasTwo(th: Thread)
    requires ThreadOk(th)
    ensures |th.bufs| == 2
  {
  }
}
