/**
  The files of the log: where each begins, how it is filled, in which order buffers get there,
  and that the backend gets through everything it was given.
 */
module LoggerFiles {
  import opened LoggerHandOff
  import opened LoggerExit

  // ---------- Where a file begins ----------

  function Bytes(rs: seq<Region>): nat {
    if rs == [] then 0 else Bytes(rs[..|rs| - 1]) + rs[|rs| - 1].size
  }

  lemma BytesAdd(rs: seq<Region>, g: Region)
    ensures Bytes(rs + [g]) == Bytes(rs) + g.size
  {
    assert (rs + [g])[..|rs|] == rs;
  }

  /** The bytes allotted since the first `n` regions, up to region `i`. */
  ghost function Between(rs: seq<Region>, n: nat, i: nat): nat
    requires n <= i <= |rs|
  {
    Bytes(rs[n..i])
  }

  lemma {:induction false} SameBytes(rs: seq<Region>, rs': seq<Region>)
    requires |rs'| == |rs| && forall i :: 0 <= i < |rs| ==> rs'[i].size == rs[i].size
    ensures Bytes(rs') == Bytes(rs)
    decreases |rs|
  {
    if rs != [] {
      SameBytes(rs[..|rs| - 1], rs'[..|rs| - 1]);
    }
  }

  /** The region lies where file `f`, opened with `size` bytes after the first `n` regions, has room for it. */
  ghost predicate Lies(rs: seq<Region>, n: nat, i: nat, ok: bool, size: nat)
    requires n <= i < |rs|
  {
    rs[i].stored == ok && (ok ==> rs[i].at == size + Between(rs, n, i))
  }

  /** All that holds of file `f` from the moment it was opened, or could not be. */
  ghost predicate Laid(l: Logger, n: nat, f: nat, ok: bool, size: nat) {
    && n <= |l.regions| && f <= l.file
    && (forall i :: n <= i < |l.regions| && l.regions[i].file == f ==> Lies(l.regions, n, i, ok, size))
    && (l.file == f ==> l.open == ok && (ok ==> l.offset == size + Between(l.regions, n, |l.regions|)))
  }

  lemma BetweenGrows(rs: seq<Region>, g: Region, n: nat, i: nat)
    requires n <= i <= |rs|
    ensures Between(rs + [g], n, i) == Between(rs, n, i)
    ensures Between(rs + [g], n, |rs| + 1) == Between(rs, n, |rs|) + g.size
  {
    assert (rs + [g])[n..i] == rs[n..i];
    assert (rs + [g])[n..|rs| + 1] == rs[n..|rs|] + [g];
    BytesAdd(rs[n..|rs|], g);
  }

  lemma LaidGrows(l: Logger, l': Logger, g: Region, n: nat, f: nat, ok: bool, size: nat)
    requires Laid(l, n, f, ok, size) && l'.regions == l.regions + [g] && l'.file == l.file && l'.open == l.open
    requires g.file == l.file && g.stored == l.open && g.at == l.offset && (l.open ==> l'.offset == l.offset + g.size)
    ensures Laid(l', n, f, ok, size)
  {
    hide Between;
    BetweenGrows(l.regions, g, n, |l.regions|);
    forall i | n <= i < |l'.regions| && l'.regions[i].file == f ensures Lies(l'.regions, n, i, ok, size) {
      if i < |l.regions| {
        BetweenGrows(l.regions, g, n, i);
        assert Lies(l.regions, n, i, ok, size);
      }
    }
  }

  lemma LaidDequeue(l: Logger, n: nat, f: nat, ok: bool, size: nat)
    requires Laid(l, n, f, ok, size)
    ensures Laid(DequeueStep(l), n, f, ok, size)
  {
    hide Size, Lies, Between;
    var l' := DequeueStep(l);
    if l'.regions != l.regions {
      hide Laid;
      LaidGrows(l, l', l'.regions[|l.regions|], n, f, ok, size);
    }
  }

  lemma LaidLand(l: Logger, k: nat, n: nat, f: nat, ok: bool, size: nat)
    requires Laid(l, n, f, ok, size)
    ensures Laid(LandStep(l, k), n, f, ok, size)
  {
    var l' := LandStep(l, k);
    hide Size, LandStep, Between, Bytes;
    LandSizes(l, k);
    forall i | n <= i <= |l.regions| ensures Between(l'.regions, n, i) == Between(l.regions, n, i) {
      BetweenSame(l.regions, l'.regions, n, i);
    }
    forall i | n <= i < |l'.regions| && l'.regions[i].file == f ensures Lies(l'.regions, n, i, ok, size) {
      assert Lies(l.regions, n, i, ok, size);
    }
  }

  lemma LandSizes(l: Logger, k: nat)
    ensures var l' := LandStep(l, k);
            && |l'.regions| == |l.regions| && l'.file == l.file && l'.open == l.open && l'.offset == l.offset
            && forall i :: 0 <= i < |l.regions| ==> l'.regions[i] == l.regions[i].(lines := l'.regions[i].lines)
  {
  }

  lemma BetweenSame(rs: seq<Region>, rs': seq<Region>, n: nat, i: nat)
    requires n <= i <= |rs| == |rs'| && forall j :: 0 <= j < |rs| ==> rs'[j].size == rs[j].size
    ensures Between(rs', n, i) == Between(rs, n, i)
  {
    SameBytes(rs[n..i], rs'[n..i]);
  }

  lemma LaidStep(l: Logger, e: Event, n: nat, f: nat, ok: bool, size: nat)
    requires Shape(l) && Laid(l, n, f, ok, size)
    ensures Laid(Next(l, e), n, f, ok, size)
  {
    hide Size, ThreadStep, ThreadEnqueued, DequeueStep, LandStep, Lies, Between;
    if e.Dequeue? {
      LaidDequeue(l, n, f, ok, size);
    } else if e.Land? {
      LaidLand(l, e.k, n, f, ok, size);
    }
  }

  lemma {:induction false} RunLaid(l: Logger, es: seq<Event>, n: nat, f: nat, ok: bool, size: nat)
    requires Inv(l) && Laid(l, n, f, ok, size)
    ensures Laid(Exec(l, es), n, f, ok, size)
    decreases |es|
  {
    if es != [] {
      hide Inv, Next, Laid;
      InvShape(l);
      NextInv(l, es[0]);
      LaidStep(l, es[0], n, f, ok, size);
      RunLaid(Next(l, es[0]), es[1..], n, f, ok, size);
    }
  }

  /**
    A file that is opened with `size` bytes in it keeps them: in every run from there, the first buffer written to it
    goes right after those bytes and each later one right after the one before; if it could not be opened, no buffer is
    written.
   */
  lemma FileBeginsAtItsEnd(l: Logger, ok: bool, size: nat, es: seq<Event>)
    requires Inv(l) && l.backend.Draining? && l.count == 0
    ensures Shape(l) && Inv(Next(l, Reopen(ok, size))) && Next(l, Reopen(ok, size)).file == l.file + 1
    ensures var n, rs := |l.regions|, Exec(Next(l, Reopen(ok, size)), es).regions;
            && n <= |rs|
            && forall i :: n <= i < |rs| && rs[i].file == l.file + 1 ==> Lies(rs, n, i, ok, size)
  {
    InvShape(l);
    NextInv(l, Reopen(ok, size));
    var l1 := Next(l, Reopen(ok, size));
    assert l1.regions[|l.regions|..|l.regions|] == [];
    assert Laid(l1, |l.regions|, l.file + 1, ok, size);
    hide Inv, Next, Exec, Lies;
    RunLaid(l1, es, |l.regions|, l.file + 1, ok, size);
  }

  // ---------- The order of buffers ----------

  ghost function OwnersOf(rs: seq<Region>): (r: seq<nat>)
    ensures |r| == |rs| && forall i :: 0 <= i < |rs| ==> r[i] == rs[i].t
  {
    seq(|rs|, i requires 0 <= i < |rs| => rs[i].t)
  }

  ghost function ThreadsOf(q: seq<Ref>): (r: seq<nat>)
    ensures |r| == |q| && forall i :: 0 <= i < |q| ==> r[i] == q[i].t
  {
    seq(|q|, i requires 0 <= i < |q| => q[i].t)
  }

  /** Whose buffers were given a place in the log, and then whose wait for one. */
  ghost function InLine(l: Logger): seq<nat> {
    OwnersOf(l.regions) + ThreadsOf(l.queue)
  }

  /** The thread whose buffer the queue takes in this step, if any. */
  ghost function Joins(l: Logger, e: Event): seq<nat> {
    if e.Enqueue? && e.t < |l.threads| && l.threads[e.t].pc.Enqueueing? && e.ok && |l.queue| < FLUSH_QUEUE_CAPACITY
    then [e.t] else []
  }

  lemma OwnersAdd(rs: seq<Region>, g: Region)
    ensures OwnersOf(rs + [g]) == OwnersOf(rs) + [g.t]
  {
  }

  lemma ThreadsFirst(q: seq<Ref>)
    requires q != []
    ensures ThreadsOf(q) == [q[0].t] + ThreadsOf(q[1..])
  {
  }

  lemma Shift(a: seq<nat>, x: nat, b: seq<nat>)
    ensures (a + [x]) + b == a + ([x] + b)
  {
  }

  lemma LineMoves(rs: seq<Region>, g: Region, q: seq<Ref>)
    requires q != [] && g.t == q[0].t
    ensures OwnersOf(rs + [g]) + ThreadsOf(q[1..]) == OwnersOf(rs) + ThreadsOf(q)
  {
    hide *;
    OwnersAdd(rs, g);
    ThreadsFirst(q);
    Shift(OwnersOf(rs), g.t, ThreadsOf(q[1..]));
  }

  lemma LineDequeue(l: Logger)
    ensures InLine(DequeueStep(l)) == InLine(l)
  {
    hide Size, SetAt, OwnersOf, ThreadsOf;
    var l' := DequeueStep(l);
    if l.backend.Working? && l.queue != [] && RefIn(l, l.queue[0]) {
      LineMoves(l.regions, l'.regions[|l.regions|], l.queue);
    }
  }

  lemma LineEnqueue(l: Logger, t: nat, ok: bool)
    requires Shape(l) && t < |l.threads|
    ensures InLine(EnqueueStep(l, t, ok)) == InLine(l) + Joins(l, Enqueue(t, ok))
  {
    hide ThreadEnqueued;
    var l' := EnqueueStep(l, t, ok);
    assert ThreadsOf(l'.queue) == ThreadsOf(l.queue) + Joins(l, Enqueue(t, ok));
  }

  lemma LineStep(l: Logger, e: Event)
    requires Shape(l)
    ensures InLine(Next(l, e)) == InLine(l) + Joins(l, e)
  {
    hide Size, ThreadStep, DequeueStep, EnqueueStep, InLine;
    assert InLine(l) + [] == InLine(l);
    if e.Dequeue? {
      LineDequeue(l);
    } else if e.Enqueue? && e.t < |l.threads| {
      LineEnqueue(l, e.t, e.ok);
    } else if e.Land? {
      LineLand(l, e.k);
    } else {
      SameLine(l, Next(l, e));
    }
  }

  lemma LineLand(l: Logger, k: nat)
    ensures InLine(LandStep(l, k)) == InLine(l)
  {
    assert OwnersOf(LandStep(l, k).regions) == OwnersOf(l.regions);
  }

  lemma SameLine(l: Logger, l': Logger)
    requires l'.regions == l.regions && l'.queue == l.queue
    ensures InLine(l') == InLine(l)
  {
  }

  ghost function Joined(l: Logger, es: seq<Event>): seq<nat>
    requires Inv(l)
    decreases |es|
  {
    if es == [] then []
    else
      NextInv(l, es[0]);
      Joins(l, es[0]) + Joined(Next(l, es[0]), es[1..])
  }

  /** In every run buffers are given their place in the log in the order in which the queue took them, one by one. */
  lemma {:induction false} FirstHandedFirstPlaced(l: Logger, es: seq<Event>)
    requires Inv(l)
    ensures InLine(Exec(l, es)) == InLine(l) + Joined(l, es)
    decreases |es|
  {
    hide Inv, Next, InLine, Joins;
    assert InLine(l) + [] == InLine(l);
    if es != [] {
      InvShape(l);
      NextInv(l, es[0]);
      LineStep(l, es[0]);
      FirstHandedFirstPlaced(Next(l, es[0]), es[1..]);
      assert (InLine(l) + Joins(l, es[0])) + Joined(Next(l, es[0]), es[1..])
             == InLine(l) + (Joins(l, es[0]) + Joined(Next(l, es[0]), es[1..]));
    }
  }

  // ---------- The backend gets through ----------

  /** Nothing left to do: the queue is empty, no write is outstanding and no buffer is being cleared. */
  ghost predicate Done(l: Logger) {
    l.queue == [] && l.out == [] && l.backend.Working?
  }

  /** What the backend does next; `ok` and `size` are what it finds if it opens a file. */
  ghost function Job(l: Logger, ok: bool, size: nat): Event {
    if l.backend.Clearing? then Reset
    else if l.out != [] then Land(0)
    else if l.backend.Draining? then Reopen(ok, size)
    else Dequeue
  }

  ghost function JobsLeft(l: Logger): nat {
    4 * |l.queue| + 2 * |l.out| + (if l.backend.Working? then 0 else if l.backend.Draining? then 1
                                   else if l.backend.draining then 2 else 1)
  }

  lemma JobsFewer(l: Logger, ok: bool, size: nat)
    requires Inv(l) && !Done(l)
    ensures Shape(l) && JobsLeft(Next(l, Job(l, ok, size))) < JobsLeft(l)
  {
    InvShape(l);
    assert CountOk(l) && ClearingOk(l);
    if !l.backend.Clearing? && l.out != [] {
      assert OutOk(l, l.out[0]);
    }
    hide Size, ThreadsOk, Placed, LayoutOk, FilledOk;
  }

  ghost function Jobs(l: Logger, ok: bool, size: nat): seq<Event>
    requires Inv(l)
    decreases JobsLeft(l)
  {
    if Done(l) then []
    else
      JobsFewer(l, ok, size);
      NextInv(l, Job(l, ok, size));
      [Job(l, ok, size)] + Jobs(Next(l, Job(l, ok, size)), ok, size)
  }

  /** The date has changed and the next file is not open yet. */
  ghost predicate Changing(l: Logger) {
    l.backend.Draining? || (l.backend.Clearing? && l.backend.draining)
  }

  /** The file the backend will be writing to, and whether it is open. */
  ghost predicate FileAfter(l: Logger, r: Logger, ok: bool) {
    if Changing(l) then r.file == l.file + 1 && r.open == ok else r.file == l.file && r.open == l.open
  }

  /** A job other than opening the file leaves the file alone; opening it is the end of a change of date. */
  lemma JobChanges(l: Logger, ok: bool, size: nat)
    requires Inv(l) && !Done(l) && Shape(l)
    ensures var l' := Next(l, Job(l, ok, size));
            if l.backend.Draining? && l.out == [] then !Changing(l') && l'.file == l.file + 1 && l'.open == ok
            else Changing(l') == Changing(l) && l'.file == l.file && l'.open == l.open
  {
    assert CountOk(l) && ClearingOk(l);
    if !l.backend.Clearing? && l.out != [] {
      assert OutOk(l, l.out[0]);
    }
    hide Inv, Size, SetAt, RefsOf, ThreadStep, EnqueueStep;
  }

  lemma JobFile(l: Logger, r: Logger, ok: bool, size: nat)
    requires Inv(l) && !Done(l) && Shape(l) && FileAfter(Next(l, Job(l, ok, size)), r, ok)
    ensures FileAfter(l, r, ok)
    ensures forall t :: r.open ==> !Drops(l, Job(l, ok, size), t)
  {
    JobChanges(l, ok, size);
    hide Inv, Next;
  }

  /** The thread is where it was, but for the buffers it gave away. */
  ghost predicate SameThread(th: Thread, th': Thread) {
    th'.pc == th.pc && th'.w == th.w && th'.accepted == th.accepted
  }

  lemma JobThread(l: Logger, ok: bool, size: nat, t: nat)
    requires Inv(l) && Shape(l) && t < |l.threads|
    ensures var l' := Next(l, Job(l, ok, size));
            |l'.threads| == |l.threads| && SameThread(l.threads[t], l'.threads[t])
  {
    hide Inv, Next;
    BackendMoves(l, Job(l, ok, size), t);
  }

  lemma {:induction false} JobsRun(l: Logger, ok: bool, size: nat, t: nat)
    requires Inv(l) && t < |l.threads|
    ensures var r := Exec(l, Jobs(l, ok, size));
            && Done(r) && FileAfter(l, r, ok)
            && |r.threads| == |l.threads| && SameThread(l.threads[t], r.threads[t])
            && (r.open ==> (AllStored(r.regions, t) <==> AllStored(l.regions, t)))
    decreases JobsLeft(l)
  {
    hide Inv, Next, Job, AllStored, Drops, FileAfter;
    if Done(l) {
      FileStays(l, ok);
    } else {
      var e := Job(l, ok, size);
      JobsFewer(l, ok, size);
      NextInv(l, e);
      JobThread(l, ok, size, t);
      var l' := Next(l, e);
      JobsRun(l', ok, size, t);
      var es := Jobs(l, ok, size);
      assert es[0] == e && es[1..] == Jobs(l', ok, size);
      var r := Exec(l', Jobs(l', ok, size));
      JobFile(l, r, ok, size);
      StepDrops(l, e, t);
    }
  }

  lemma FileStays(l: Logger, ok: bool)
    requires Done(l)
    ensures FileAfter(l, l, ok)
  {
  }

  /** With nothing left to do, no buffer is away, and a thread waiting to exit can go. */
  lemma DoneMeansHome(l: Logger, t: nat)
    requires Inv(l) && Done(l) && t < |l.threads|
    ensures Shape(l)
    ensures l.threads[t].bufs[0].stage.Mine? && l.threads[t].bufs[1].stage.Mine?
    ensures l.threads[t].accepted == OfThread(l.regions, t) + Front(l.threads[t]).lines
    ensures l.threads[t].pc.Waiting? ==> Next(l, Delete(t)).threads[t].pc.Gone?
  {
    InvShape(l);
    assert ThreadOk(l.threads[t]) && Accounted(l.threads[t], OfThread(l.regions, t));
    assert PlaceOk(l, Ref(t, 0)) && PlaceOk(l, Ref(t, 1));
    hide Inv, Size, OfThread;
    assert OfThread(l.regions, t) + [] == OfThread(l.regions, t);
  }

  /**
    From every reachable state the backend, left to itself, finishes: the queue and the list of outstanding writes
    become empty, a new day's file is opened if the date had changed, every buffer goes back to its thread, every line
    handed over is finished with, in the files if a file is open, and every thread waiting to exit can go.
   */
  lemma BackendFinishes(l: Logger, ok: bool, size: nat, t: nat)
    requires Inv(l) && t < |l.threads|
    ensures var r := Exec(l, Jobs(l, ok, size));
            && Done(r) && FileAfter(l, r, ok) && Shape(r)
            && |r.threads| == |l.threads| && SameThread(l.threads[t], r.threads[t])
            && r.threads[t].bufs[0].stage.Mine? && r.threads[t].bufs[1].stage.Mine?
            && r.threads[t].accepted == OfThread(r.regions, t) + Front(r.threads[t]).lines
            && (r.open && AllStored(l.regions, t) ==> StoredOf(r.regions, t) == OfThread(r.regions, t))
            && (l.threads[t].pc.Waiting? ==> Next(r, Delete(t)).threads[t].pc.Gone?)
  {
    hide Inv, Next, Exec, Jobs, Done, AllStored, OfThread, StoredOf, FileAfter;
    JobsRun(l, ok, size, t);
    var r := Exec(l, Jobs(l, ok, size));
    DoneMeansHome(r, t);
    StoredIff(r.regions, t);
  }

  /** A new date noticed at any time takes the backend, left to itself, to the next file. */
  lemma NewDayNewFile(l: Logger, ok: bool, size: nat, t: nat)
    requires Inv(l) && l.backend.Working? && t < |l.threads|
    ensures Shape(l) && Inv(Next(l, NewDay))
    ensures var r := Exec(Next(l, NewDay), Jobs(Next(l, NewDay), ok, size));
            Done(r) && r.file == l.file + 1 && r.open == ok
  {
    InvShape(l);
    NextInv(l, NewDay);
    var l1 := Next(l, NewDay);
    assert Changing(l1) && l1.file == l.file && |l1.threads| == |l.threads|;
    hide Inv, Next, Exec, Jobs, Done;
    JobsRun(l1, ok, size, t);
  }
}
