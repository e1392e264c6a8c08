/**
  The calls of `MPSCQueue` from beginning to end: what `enqueue` and `dequeue` return, and what
  has become of the item by then.
 */
module MpscCalls {
  import opened Bits
  import opened MpscQueue

  // ---------- A ticket that is not published is being worked on ----------

  ghost predicate WorkedOn<T>(q: Queue<T>, t: nat) {
    exists i :: 0 <= i < |q.producers| && Working(q.producers[i]) && q.producers[i].pos == t
  }

  /** The ticket's slot carries its item for the consumer. */
  ghost predicate Published<T>(q: Queue<T>, t: nat)
    requires Shape(q)
  {
    q.seqs[t % q.cap] == t + 1
  }

  /** Every ticket between head and tail is published or some producer is inside the call that will publish it. */
  ghost predicate Attended<T>(q: Queue<T>)
    requires Shape(q)
  {
    forall t :: q.head <= t < q.tail ==> Published(q, t) || WorkedOn(q, t)
  }

  /** A step that changes neither the slots nor the positions of producers at work. */
  lemma StillAttended<T>(q: Queue<T>, q': Queue<T>)
    requires Shape(q) && Shape(q') && Attended(q)
    requires q'.cap == q.cap && q'.seqs == q.seqs && q'.head == q.head && q'.tail == q.tail
    requires |q'.producers| == |q.producers|
    requires forall i :: 0 <= i < |q.producers| && Working(q.producers[i]) ==>
                           Working(q'.producers[i]) && q'.producers[i].pos == q.producers[i].pos
    ensures Attended(q')
  {
    forall t | q'.head <= t < q'.tail ensures Published(q', t) || WorkedOn(q', t) {
      if !Published(q, t) {
        var i :| 0 <= i < |q.producers| && Working(q.producers[i]) && q.producers[i].pos == t;
        assert Working(q'.producers[i]) && q'.producers[i].pos == t;
      }
    }
  }

  lemma ClaimAttended<T>(q: Queue<T>, i: nat, spurious: bool)
    requires Inv(q) && Prompt(q) && Attended(q) && i < |q.producers| && q.producers[i].Ready?
    ensures Attended(Next(q, Cas(i, spurious)))
  {
    var q' := Next(q, Cas(i, spurious));
    CasKept(q, i, spurious);
    if q'.tail == q.tail {
      StillAttended(q, q');
    } else {
      forall t | q'.head <= t < q'.tail ensures Published(q', t) || WorkedOn(q', t) {
        if t == q.tail {
          assert Working(q'.producers[i]) && q'.producers[i].pos == t;
        } else if !Published(q, t) {
          var j :| 0 <= j < |q.producers| && Working(q.producers[j]) && q.producers[j].pos == t;
          assert Working(q'.producers[j]) && q'.producers[j].pos == t;
        }
      }
    }
  }

  lemma PublishAttended<T>(q: Queue<T>, i: nat)
    requires Inv(q) && Attended(q) && i < |q.producers| && q.producers[i].Written?
    ensures Attended(Next(q, Publish(i)))
  {
    var q', pos := Next(q, Publish(i)), q.producers[i].pos;
    assert ProducerOk(q, q.producers[i]);
    SlotIs(q.cap, pos);
    forall t | q'.head <= t < q'.tail ensures Published(q', t) || WorkedOn(q', t) {
      if t != pos {
        OwnSlot(q, t, pos);
        if !Published(q, t) {
          var j :| 0 <= j < |q.producers| && Working(q.producers[j]) && q.producers[j].pos == t;
          assert Working(q'.producers[j]) && q'.producers[j].pos == t;
        }
      }
    }
  }

  lemma FreeAttended<T>(q: Queue<T>)
    requires Inv(q) && Attended(q) && q.consumer.Read?
    ensures Attended(Next(q, FreeSlot))
  {
    var q' := Next(q, FreeSlot);
    SlotIs(q.cap, q.head);
    forall t | q'.head <= t < q'.tail ensures Published(q', t) || WorkedOn(q', t) {
      OwnSlot(q, t, q.head);
      if !Published(q, t) {
        var j :| 0 <= j < |q.producers| && Working(q.producers[j]) && q.producers[j].pos == t;
        assert Working(q'.producers[j]) && q'.producers[j].pos == t;
      }
    }
  }

  lemma NextAttended<T>(q: Queue<T>, e: Event<T>)
    requires Inv(q) && Prompt(q) && Attended(q)
    ensures Attended(Next(q, e))
  {
    if e.FreeSlot? && q.consumer.Read? {
      FreeAttended(q);
    } else if e.Cas? && e.i < |q.producers| && q.producers[e.i].Ready? {
      ClaimAttended(q, e.i, e.spurious);
    } else if e.Publish? && e.i < |q.producers| && q.producers[e.i].Written? {
      PublishAttended(q, e.i);
    } else {
      StillAttended(q, Next(q, e));
    }
  }

  lemma {:induction false} RunAttended<T>(q: Queue<T>, es: seq<Event<T>>)
    requires Inv(q) && PromptRun(q, es) && Attended(q)
    ensures Inv(Exec(q, es)) && Attended(Exec(q, es))
    decreases |es|
  {
    if es != [] {
      NextInv(q, es[0]);
      NextAttended(q, es[0]);
      RunAttended(Next(q, es[0]), es[1..]);
    }
  }

  // ---------- One call of enqueue ----------

  /** Between the call and the claim. */
  ghost predicate Searching<T>(p: Producer<T>) { p.Begin? || p.Loaded? || p.Ready? }

  /** The step claims a ticket for producer `i`. */
  ghost predicate Claims<T>(q: Queue<T>, e: Event<T>, i: nat)
    requires Shape(q)
  {
    e.Cas? && e.i == i && Next(q, e).tail != q.tail
  }

  ghost function ClaimCount<T>(q: Queue<T>, es: seq<Event<T>>, i: nat): nat
    requires Shape(q)
    decreases |es|
  {
    if es == [] then 0 else (if Claims(q, es[0], i) then 1 else 0) + ClaimCount(Next(q, es[0]), es[1..], i)
  }

  /** Producer `i` is inside one call of `enqueue` until the end of the run, where it may have returned. */
  ghost predicate InOneCall<T>(q: Queue<T>, es: seq<Event<T>>, i: nat)
    requires Shape(q)
    decreases |es|
  {
    && i < |q.producers|
    && (es != [] ==> !q.producers[i].Idle? && InOneCall(Next(q, es[0]), es[1..], i))
  }

  /** The step looks at the sequence number while every slot is occupied. */
  ghost predicate Refuses<T>(q: Queue<T>, e: Event<T>, i: nat) {
    e == LoadSequence(i) && q.tail - q.head == q.cap
  }

  /** The last step of the run is such a look. */
  ghost predicate RefusedAtEnd<T>(q: Queue<T>, es: seq<Event<T>>, i: nat)
    requires Shape(q)
    decreases |es|
  {
    if es == [] then false
    else if |es| == 1 then Refuses(q, es[0], i)
    else RefusedAtEnd(Next(q, es[0]), es[1..], i)
  }

  lemma SearchStep<T>(q: Queue<T>, e: Event<T>, i: nat)
    requires Inv(q) && Prompt(q) && i < |q.producers| && Searching(q.producers[i])
    ensures var x, q' := q.producers[i].item, Next(q, e);
            && |q'.producers| == |q.producers|
            && var p := q'.producers[i];
               if Claims(q, e, i) then p == Claimed(x, q.tail) && q'.claimed == q.claimed + [x]
               else (p == Idle(false) && Refuses(q, e, i)) || (Searching(p) && p.item == x)
  {
    if e == LoadSequence(i) && q.producers[i].Loaded? {
      EnqueueFailsIffFull(q, i);
    }
    if e.Cas? && e.i == i && q.producers[i].Ready? {
      CasKept(q, i, e.spurious);
    }
  }

  lemma WorkStep<T>(q: Queue<T>, e: Event<T>, i: nat)
    requires Inv(q) && i < |q.producers| && Working(q.producers[i])
    ensures var p, q' := q.producers[i], Next(q, e);
            && |q'.producers| == |q.producers| && !Claims(q, e, i)
            && var p' := q'.producers[i];
               || (Working(p') && p'.pos == p.pos && p'.item == p.item)
               || (p' == Idle(true) && Published(q', p.pos) && q'.head <= p.pos < q'.tail && q'.claimed == q.claimed)
  {
    assert ProducerOk(q, q.producers[i]);
    SlotIs(q.cap, q.producers[i].pos);
  }

  /** A ticket claimed at or after `since` has the item and is published. */
  ghost predicate Delivered<T>(q: Queue<T>, item: T, since: nat)
    requires Shape(q)
  {
    exists t :: since <= t < |q.claimed| && q.head <= t < q.tail && q.claimed[t] == item && Published(q, t)
  }

  /** What a call has come to. */
  ghost predicate Outcome<T>(q: Queue<T>, i: nat, item: T, since: nat, claims: nat)
    requires Shape(q) && i < |q.producers|
  {
    var p := q.producers[i];
    if p.Idle? then claims == (if p.result then 1 else 0) && (p.result ==> Delivered(q, item, since))
    else p.item == item && (if Working(p) then claims == 1 && since <= p.pos else claims == 0)
  }

  lemma {:induction false} WorkerOutcome<T>(q: Queue<T>, es: seq<Event<T>>, i: nat)
    requires Inv(q) && PromptRun(q, es) && InOneCall(q, es, i) && Working(q.producers[i])
    ensures var p, r := q.producers[i], Exec(q, es);
            && ClaimCount(q, es, i) == 0 && i < |r.producers|
            && Outcome(r, i, p.item, p.pos, 1)
    decreases |es|
  {
    if es != [] {
      var p, q' := q.producers[i], Next(q, es[0]);
      assert ProducerOk(q, p);
      NextInv(q, es[0]);
      WorkStep(q, es[0], i);
      hide Next, Inv, Exec, ClaimCount;
      if Working(q'.producers[i]) {
        WorkerOutcome(q', es[1..], i);
      }
    }
  }

  /**
    Every call of `enqueue`, in every run: it returns true if and only if it claimed a ticket, then exactly one, for its
    own item, and that ticket is published when it returns; it returns false only upon finding every slot occupied.
   */
  lemma {:induction false} CallOutcome<T>(q: Queue<T>, es: seq<Event<T>>, i: nat)
    requires Inv(q) && PromptRun(q, es) && InOneCall(q, es, i) && Searching(q.producers[i])
    ensures i < |Exec(q, es).producers|
    ensures Outcome(Exec(q, es), i, q.producers[i].item, q.tail, ClaimCount(q, es, i))
    ensures Exec(q, es).producers[i] == Idle(false) ==> RefusedAtEnd(q, es, i)
    decreases |es|
  {
    if es != [] {
      var q' := Next(q, es[0]);
      NextInv(q, es[0]);
      SearchStep(q, es[0], i);
      TailGrows(q, es[0]);
      if Claims(q, es[0], i) {
        WorkerOutcome(q', es[1..], i);
      } else if Searching(q'.producers[i]) {
        CallOutcome(q', es[1..], i);
        Earlier(Exec(q, es), i, q.producers[i].item, q'.tail, q.tail, ClaimCount(q, es, i));
      }
    }
  }

  lemma TailGrows<T>(q: Queue<T>, e: Event<T>)
    requires Shape(q)
    ensures q.tail <= Next(q, e).tail
  {
  }

  lemma Earlier<T>(q: Queue<T>, i: nat, item: T, since: nat, before: nat, claims: nat)
    requires Shape(q) && i < |q.producers| && before <= since && Outcome(q, i, item, since, claims)
    ensures Outcome(q, i, item, before, claims)
  {
  }

  // ---------- Calls without interference ----------

  lemma InvShape<T>(q: Queue<T>)
    requires Inv(q)
    ensures Shape(q) && q.head <= q.tail == |q.claimed|
  {
  }

  lemma Alone<T>(q: Queue<T>, i: nat)
    requires Inv(q) && i < |q.producers|
    ensures SlotAt(q, q.tail) == q.tail % q.cap && Diff(q.tail, q.tail) == 0
    ensures q.tail < q.head + q.cap ==> q.seqs[q.tail % q.cap] == q.tail
    ensures q.tail == q.head + q.cap ==> Diff(q.seqs[q.tail % q.cap], q.tail) < 0
  {
    SlotIs(q.cap, q.tail);
    var t := LiveTicket(q, q.tail);
    assert SlotOk(q, t);
    DiffExact(q.tail, q.tail);
    DiffExact(q.seqs[q.tail % q.cap], q.tail);
  }

  /** `enqueue` undisturbed: its item joins the end of the queue, published, unless the queue is full. */
  lemma EnqueueAlone<T>(q: Queue<T>, i: nat, item: T)
    requires Inv(q) && i < |q.producers| && q.producers[i].Idle?
    ensures q.tail < q.head + q.cap ==>
              Exec(q, Enqueue(i, item)) ==
                q.(tail := q.tail + 1, seqs := q.seqs[q.tail % q.cap := q.tail + 1],
                   data := q.data[q.tail % q.cap := item], producers := q.producers[i := Idle(true)],
                   claimed := q.claimed + [item])
    ensures q.tail == q.head + q.cap ==>
              Exec(q, Enqueue(i, item)) == q.(producers := q.producers[i := Idle(false)])
  {
    Alone(q, i);
    Looks(q, i, item);
    var a: seq<Event<T>> := [Call(i, item), LoadTail(i), LoadSequence(i)];
    var b: seq<Event<T>> := [Cas(i, false), WriteData(i), Publish(i)];
    assert a + b == Enqueue(i, item);
    hide Next, Exec;
    ExecConcat(q, a, b);
    if q.tail < q.head + q.cap {
      Stores(q, i, item);
    } else {
      NothingToDo(q.(producers := q.producers[i := Idle(false)]), i);
    }
  }

  lemma Looks<T>(q: Queue<T>, i: nat, item: T)
    requires Inv(q) && i < |q.producers| && q.producers[i].Idle?
    ensures var p := if q.tail < q.head + q.cap then Ready(item, q.tail) else Idle(false);
            Exec(q, [Call(i, item), LoadTail(i), LoadSequence(i)]) == q.(producers := q.producers[i := p])
  {
    hide Next, Exec, Inv, PromptRun;
    var q1 := q.(producers := q.producers[i := Begin(item)]);
    var q2 := q.(producers := q.producers[i := Loaded(item, q.tail)]);
    InvShape(q);
    Enters(q, i, item);
    Compares(q, i, item);
    Unroll(q2, [LoadSequence(i)]);
    Unroll(q1, [LoadTail(i), LoadSequence(i)]);
    Unroll(q, [Call(i, item), LoadTail(i), LoadSequence(i)]);
  }

  lemma Enters<T>(q: Queue<T>, i: nat, item: T)
    requires Shape(q) && i < |q.producers| && q.producers[i].Idle?
    ensures var q1 := q.(producers := q.producers[i := Begin(item)]);
            && Next(q, Call(i, item)) == q1
            && Next(q1, LoadTail(i)) == q.(producers := q.producers[i := Loaded(item, q.tail)])
  {
  }

  lemma Compares<T>(q: Queue<T>, i: nat, item: T)
    requires Inv(q) && i < |q.producers|
    ensures var p := if q.tail < q.head + q.cap then Ready(item, q.tail) else Idle(false);
            Next(q.(producers := q.producers[i := Loaded(item, q.tail)]), LoadSequence(i))
            == q.(producers := q.producers[i := p])
  {
    Alone(q, i);
    hide Diff;
  }

  lemma Stores<T>(q: Queue<T>, i: nat, item: T)
    requires Inv(q) && i < |q.producers| && q.tail < q.head + q.cap
    ensures Exec(q.(producers := q.producers[i := Ready(item, q.tail)]), [Cas(i, false), WriteData(i), Publish(i)]) ==
              q.(tail := q.tail + 1, seqs := q.seqs[q.tail % q.cap := q.tail + 1],
                 data := q.data[q.tail % q.cap := item], producers := q.producers[i := Idle(true)],
                 claimed := q.claimed + [item])
  {
    Alone(q, i);
    var t := q.tail;
    var q3 := q.(producers := q.producers[i := Ready(item, t)]);
    var q4 := q.(producers := q.producers[i := Claimed(item, t)], tail := t + 1, claimed := q.claimed + [item]);
    var q5 := q4.(producers := q.producers[i := Written(item, t)], data := q.data[t % q.cap := item]);
    assert Next(q3, Cas(i, false)) == q4;
    assert Next(q4, WriteData(i)) == q5;
    assert Next(q5, Publish(i)) == q5.(producers := q.producers[i := Idle(true)], seqs := q.seqs[t % q.cap := t + 1]);
    hide Next, Exec;
    Unroll(q5, [Publish(i)]);
    Unroll(q4, [WriteData(i), Publish(i)]);
    Unroll(q3, [Cas(i, false), WriteData(i), Publish(i)]);
  }

  lemma NothingToDo<T>(q: Queue<T>, i: nat)
    requires Shape(q) && i < |q.producers| && q.producers[i].Idle?
    ensures Exec(q, [Cas(i, false), WriteData(i), Publish(i)]) == q
  {
    assert Next(q, Cas(i, false)) == q && Next(q, WriteData(i)) == q && Next(q, Publish(i)) == q;
    hide Next, Exec;
    Unroll(q, [Publish(i)]);
    Unroll(q, [WriteData(i), Publish(i)]);
    Unroll(q, [Cas(i, false), WriteData(i), Publish(i)]);
  }

  ghost function Dequeue<T>(): seq<Event<T>> {
    [LoadHeadSequence, ReadData, FreeSlot]
  }

  /** The queue with its first item gone. */
  ghost function Taken<T>(q: Queue<T>): Queue<T>
    requires Shape(q) && q.head < |q.claimed|
  {
    q.(seqs := q.seqs[q.head % q.cap := q.head + q.cap], head := q.head + 1, consumer := Resting(true),
       taken := q.taken + [q.claimed[q.head]])
  }

  ghost predicate FirstPublished<T>(q: Queue<T>)
    requires Shape(q)
  {
    q.head < q.tail && Published(q, q.head)
  }

  lemma Glance<T>(q: Queue<T>)
    requires Inv(q) && q.consumer.Resting?
    ensures var q' := q.(consumer := if FirstPublished(q) then Seen else Resting(false));
            Next(q, LoadHeadSequence) == q' && Inv(q')
  {
    LookKept(q);
  }

  lemma StaysResting<T>(q: Queue<T>)
    requires Shape(q) && q.consumer.Resting?
    ensures Exec(q, [ReadData, FreeSlot]) == q
  {
    assert Next(q, ReadData) == q && Next(q, FreeSlot) == q;
    hide Next, Exec, PromptRun;
    Unroll(q, [FreeSlot]);
    Unroll(q, [ReadData, FreeSlot]);
  }

  /** `dequeue` returns the first item of the queue if its ticket is published, and otherwise nothing changes. */
  lemma DequeueAlone<T>(q: Queue<T>)
    requires Inv(q) && q.consumer.Resting?
    ensures Shape(q) && q.head <= q.tail == |q.claimed|
    ensures Exec(q, Dequeue()) == if FirstPublished(q) then Taken(q) else q.(consumer := Resting(false))
    ensures FirstPublished(q) ==> Inv(Taken(q))
  {
    hide Next, Exec, Inv, PromptRun;
    InvShape(q);
    Glance(q);
    var q' := q.(consumer := if FirstPublished(q) then Seen else Resting(false));
    if FirstPublished(q) {
      TakesFirst(q');
    } else {
      StaysResting(q');
    }
    assert Dequeue<T>()[1..] == [ReadData, FreeSlot];
    Unroll(q, Dequeue());
  }

  lemma TakesFirst<T>(q: Queue<T>)
    requires Inv(q) && q.consumer.Seen?
    ensures Exec(q, [ReadData, FreeSlot]) == Taken(q) && Inv(Taken(q))
  {
    SlotIs(q.cap, q.head);
    assert SlotOk(q, q.head);
    var q1 := q.(consumer := Read(q.claimed[q.head]));
    assert Next(q, ReadData) == q1;
    assert Next(q1, FreeSlot) == Taken(q);
    ReadKept(q);
    FreeKept(q1);
    hide Next, Exec, Inv, PromptRun;
    Unroll(q1, [FreeSlot]);
    Unroll(q, [ReadData, FreeSlot]);
  }

  /** No producer has claimed a ticket without having published it. */
  ghost predicate NoneAtWork<T>(q: Queue<T>) {
    forall i :: 0 <= i < |q.producers| ==> !Working(q.producers[i])
  }

  ghost function Dequeues<T>(n: nat): seq<Event<T>> {
    if n == 0 then [] else Dequeue() + Dequeues(n - 1)
  }

  /** Once no producer is at work, as many calls of `dequeue` as there are items return them all, in order. */
  lemma {:induction false} QuietQueueDrains<T>(q: Queue<T>)
    requires Inv(q) && Attended(q) && NoneAtWork(q) && q.consumer.Resting?
    ensures var r := Exec(q, Dequeues(q.tail - q.head));
            && Inv(r) && r.head == r.tail == q.tail && r.taken == q.taken + Waiting(q) && r.consumer.Resting?
            && Exec(r, Dequeue()) == r.(consumer := Resting(false))
    decreases q.tail - q.head
  {
    hide Exec, Attended, Published, Inv, Waiting;
    DequeueAlone(q);
    if q.head == q.tail {
      NoneWaiting(q);
      NoEvents(q);
    } else {
      HeadPublished(q);
      var q', n := Taken(q), q.tail - q.head;
      AttendedAfter(q);
      QuietQueueDrains(q');
      ExecConcat(q, Dequeue(), Dequeues(n - 1));
      FirstThenRest(q);
    }
  }

  lemma NoEvents<T>(q: Queue<T>)
    requires Shape(q)
    ensures Exec(q, []) == q
  {
  }

  lemma NoneWaiting<T>(q: Queue<T>)
    requires Inv(q) && q.head == q.tail
    ensures q.taken + Waiting(q) == q.taken
  {
    assert Waiting(q) == [];
  }

  lemma HeadPublished<T>(q: Queue<T>)
    requires Inv(q) && Attended(q) && NoneAtWork(q) && q.head < q.tail
    ensures Published(q, q.head)
  {
    assert Published(q, q.head) || WorkedOn(q, q.head);
  }

  lemma FirstThenRest<T>(q: Queue<T>)
    requires Inv(q) && q.head < q.tail && Inv(Taken(q))
    ensures Taken(q).taken + Waiting(Taken(q)) == q.taken + Waiting(q)
  {
    assert Waiting(q) == [q.claimed[q.head]] + Waiting(Taken(q));
  }

  lemma AttendedAfter<T>(q: Queue<T>)
    requires Inv(q) && Attended(q) && NoneAtWork(q) && q.head < q.tail
    ensures Attended(Taken(q)) && NoneAtWork(Taken(q))
  {
    var q' := Taken(q);
    forall t | q'.head <= t < q'.tail ensures Published(q', t) {
      assert Published(q, t) || WorkedOn(q, t);
      OwnSlot(q, t, q.head);
    }
  }

  /**
    In every run of any number of producers and the consumer, no claimed ticket is forgotten: it is published, or its
    producer is still inside `enqueue`; so once all calls have returned, `dequeue` finds an item if there is one.
   */
  lemma NoneForgotten<T>(cap: nat, blank: T, n: nat, es: seq<Event<T>>)
    requires IsPow2(cap) && 2 <= cap < I64_LIMIT / 2 && PromptRun(Init(cap, blank, n), es)
    ensures var q := Exec(Init(cap, blank, n), es);
            && Attended(q)
            && (NoneAtWork(q) && q.consumer.Resting? ==>
                  (Next(q, LoadHeadSequence).consumer.Seen? <==> q.head < q.tail))
  {
    InitInv(cap, blank, n);
    RunAttended(Init(cap, blank, n), es);
    var q := Exec(Init(cap, blank, n), es);
    hide Exec, PromptRun;
    if NoneAtWork(q) && q.consumer.Resting? {
      if q.head < q.tail {
        HeadPublished(q);
      }
      LookKept(q);
    }
  }
}
