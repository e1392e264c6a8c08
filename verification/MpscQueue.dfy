/**
  `MPSCQueue`: the bounded queue of tickets and sequence numbers, as interleaved atomic steps
  of any number of producers and one consumer.

  Positions are kept as unbounded numbers; every comparison the code makes is made on their
  64-bit images, with the signed difference taken in two's complement.  `claimed` records the
  item of each ticket in the order the tickets were claimed, `taken` what was dequeued.
 */
module MpscQueue {
  import opened Bits

  // ---------- 64-bit comparisons ----------

  const I64_LIMIT: nat := 0x8000_0000_0000_0000

  function Word(x: nat): nat { x % U64 }

  /** `static_cast<intptr_t>(a) - static_cast<intptr_t>(b)` on the words of `a` and `b`. */
  function Diff(a: nat, b: nat): int {
    var d := (Word(a) - Word(b)) % U64;
    if d < I64_LIMIT then d else d - U64
  }

  /** The signed difference of the words is the true difference of positions less than half the range apart. */
  lemma DiffExact(a: nat, b: nat)
    requires a < b + I64_LIMIT && b < a + I64_LIMIT
    ensures Diff(a, b) == a - b
  {
    var k := a / U64 - b / U64;
    assert Word(a) - Word(b) == (a - b) - k * U64;
    ModAddMultiple(a - b, -k, U64);
    assert (Word(a) - Word(b)) % U64 == (a - b) % U64;
    if a >= b {
      ModUnique(a - b, 0, a - b, U64);
    } else {
      ModUnique(a - b, -1, a - b + U64, U64);
    }
  }

  lemma SameWord(a: nat, b: nat)
    requires b <= a < b + U64
    ensures Word(a) == Word(b) <==> a == b
  {
    var q := b / U64;
    var r := b % U64;
    assert b == q * U64 + r;
    var d := a - b;
    if r + d < U64 {
      ModUnique(a, q, r + d, U64);
    } else {
      ModUnique(a, q + 1, r + d - U64, U64);
    }
  }

  // ---------- State ----------

  datatype Producer<T> =
    | Idle(result: bool)               // outside enqueue; what the last call returned
    | Begin(item: T)                   // top of the retry loop
    | Loaded(item: T, pos: nat)        // tail_ was read
    | Ready(item: T, pos: nat)         // the slot's sequence was seen equal to pos
    | Claimed(item: T, pos: nat)       // the CAS succeeded; about to write the slot's data
    | Written(item: T, pos: nat)       // data written; about to publish

  datatype Consumer<T> =
    | Resting(result: bool)            // outside dequeue; what the last call returned
    | Seen                             // the head slot's sequence was seen published; about to read its data
    | Read(item: T)                    // data read; about to free the slot

  datatype Queue<T> = Queue(
    cap: nat, head: nat, tail: nat,
    seqs: seq<nat>, data: seq<T>,
    producers: seq<Producer<T>>, consumer: Consumer<T>,
    claimed: seq<T>, taken: seq<T>)

  datatype Event<T> =
    | Call(i: nat, item: T)
    | LoadTail(i: nat)
    | LoadSequence(i: nat)
    | Cas(i: nat, spurious: bool)      // compare_exchange_weak may fail for no reason
    | WriteData(i: nat)
    | Publish(i: nat)
    | LoadHeadSequence
    | ReadData
    | FreeSlot

  function SlotAt(q: Queue, pos: nat): nat
    requires q.cap > 0
  {
    Word(pos) % q.cap
  }

  ghost predicate Shape(q: Queue) {
    q.cap > 0 && |q.seqs| == q.cap && |q.data| == q.cap
  }

  function WithProducer<T>(q: Queue<T>, i: nat, p: Producer<T>): Queue<T>
    requires i < |q.producers|
  {
    q.(producers := q.producers[i := p])
  }

  /** One atomic step; an event that does not apply changes nothing. */
  ghost function Next<T>(q: Queue<T>, e: Event<T>): (r: Queue<T>)
    requires Shape(q)
    ensures Shape(r) && r.cap == q.cap
  {
    match e
    case LoadHeadSequence => if q.consumer.Resting? then ConsumerLooks(q) else q
    case ReadData => if q.consumer.Seen? then q.(consumer := Read(q.data[SlotAt(q, q.head)])) else q
    case FreeSlot => if q.consumer.Read? then ConsumerFrees(q) else q
    case _ => if e.i < |q.producers| then ProducerNext(q, e) else q
  }

  ghost function ProducerNext<T>(q: Queue<T>, e: Event<T>): Queue<T>
    requires Shape(q) && !e.LoadHeadSequence? && !e.ReadData? && !e.FreeSlot? && e.i < |q.producers|
  {
    match (e, q.producers[e.i])
    case (Call(i, item), Idle(_)) => WithProducer(q, i, Begin(item))
    case (LoadTail(i), Begin(item)) => WithProducer(q, i, Loaded(item, q.tail))
    case (LoadSequence(i), Loaded(item, pos)) =>
      var diff := Diff(q.seqs[SlotAt(q, pos)], pos);
      if diff == 0 then WithProducer(q, i, Ready(item, pos))
      else if diff < 0 then WithProducer(q, i, Idle(false))
      else WithProducer(q, i, Begin(item))
    case (Cas(i, spurious), Ready(item, pos)) =>
      if Word(q.tail) == Word(pos) && !spurious
      then WithProducer(q, i, Claimed(item, pos)).(tail := q.tail + 1, claimed := q.claimed + [item])
      else WithProducer(q, i, Begin(item))
    case (WriteData(i), Claimed(item, pos)) =>
      WithProducer(q, i, Written(item, pos)).(data := q.data[SlotAt(q, pos) := item])
    case (Publish(i), Written(item, pos)) =>
      WithProducer(q, i, Idle(true)).(seqs := q.seqs[SlotAt(q, pos) := pos + 1])
    case _ => q
  }

  ghost function ConsumerLooks<T>(q: Queue<T>): Queue<T>
    requires Shape(q)
  {
    if Diff(q.seqs[SlotAt(q, q.head)], q.head + 1) == 0 then q.(consumer := Seen)
    else q.(consumer := Resting(false))
  }

  /** `sequence.store(head_ + Capacity); head_++`: head_ belongs to the consumer alone. */
  ghost function ConsumerFrees<T>(q: Queue<T>): Queue<T>
    requires Shape(q) && q.consumer.Read?
  {
    q.(seqs := q.seqs[SlotAt(q, q.head) := q.head + q.cap], head := q.head + 1,
       consumer := Resting(true), taken := q.taken + [q.consumer.item])
  }

  // ---------- The invariant ----------

  ghost predicate Working<T>(p: Producer<T>) { p.Claimed? || p.Written? }

  /** The sequence number of each ticket's slot tells the ticket's stage. */
  ghost predicate SlotsOk(q: Queue)
    requires Shape(q)
  {
    forall t :: q.head <= t < q.head + q.cap ==> SlotOk(q, t)
  }

  ghost predicate SlotOk(q: Queue, t: nat)
    requires Shape(q)
  {
    if t < q.tail && t < |q.claimed|
    then q.seqs[t % q.cap] == t || (q.seqs[t % q.cap] == t + 1 && q.data[t % q.cap] == q.claimed[t])
    else q.seqs[t % q.cap] == t
  }

  ghost predicate ProducerOk<T>(q: Queue<T>, p: Producer<T>)
    requires Shape(q)
  {
    match p
    case Idle(_) => true
    case Begin(_) => true
    case Loaded(_, pos) => pos <= q.tail
    case Ready(_, pos) => pos <= q.tail && (pos == q.tail ==> q.tail < q.head + q.cap)
    case Claimed(item, pos) =>
      q.head <= pos < q.tail && pos < |q.claimed| && q.claimed[pos] == item && q.seqs[pos % q.cap] == pos
    case Written(item, pos) =>
      q.head <= pos < q.tail && pos < |q.claimed| && q.claimed[pos] == item && q.seqs[pos % q.cap] == pos
      && q.data[pos % q.cap] == item
  }

  ghost predicate ConsumerOk<T>(q: Queue<T>)
    requires Shape(q)
  {
    match q.consumer
    case Resting(_) => true
    case Seen => q.head < q.tail && q.seqs[q.head % q.cap] == q.head + 1
    case Read(item) =>
      q.head < q.tail && q.head < |q.claimed| && q.seqs[q.head % q.cap] == q.head + 1 && item == q.claimed[q.head]
  }

  ghost predicate Inv<T>(q: Queue<T>) {
    && IsPow2(q.cap) && 2 <= q.cap < I64_LIMIT / 2 && Shape(q)
    && q.head <= q.tail <= q.head + q.cap && |q.claimed| == q.tail
    && q.taken == q.claimed[..q.head]
    && SlotsOk(q)
    && (forall i :: 0 <= i < |q.producers| ==> ProducerOk(q, q.producers[i]))
    && (forall i, j :: 0 <= i < j < |q.producers| && Working(q.producers[i]) && Working(q.producers[j]) ==>
          q.producers[i].pos != q.producers[j].pos)
    && ConsumerOk(q)
  }

  /** No producer that has read the tail is left behind by half the counter's range before its CAS. */
  ghost predicate Prompt<T>(q: Queue<T>) {
    forall i :: 0 <= i < |q.producers| && (q.producers[i].Loaded? || q.producers[i].Ready?) ==>
      q.tail < q.producers[i].pos + I64_LIMIT / 2
  }

  // ---------- Slots ----------

  lemma SlotIs(cap: nat, pos: nat)
    requires IsPow2(cap) && 0 < cap < U64
    ensures Word(pos) % cap == pos % cap
  {
    WordsArePow2();
    CapacityDivides(cap, U64);
    WrapKeepsSlot(pos, 0, U64, cap);
  }

  /** Tickets of one window own distinct slots. */
  lemma OwnSlot(q: Queue, t: nat, u: nat)
    requires q.cap > 0 && q.head <= t < q.head + q.cap && q.head <= u < q.head + q.cap && t != u
    ensures t % q.cap != u % q.cap
  {
    if t < u {
      SlotsDistinct(0, t, u, q.cap);
    } else {
      SlotsDistinct(0, u, t, q.cap);
    }
  }

  /** The ticket of the current window that shares the slot of `pos`. */
  lemma LiveTicket(q: Queue, pos: nat) returns (t: nat)
    requires q.cap > 0
    ensures q.head <= t < q.head + q.cap && t % q.cap == pos % q.cap
    ensures q.head <= pos < q.head + q.cap ==> t == pos
    ensures pos == q.head + q.cap ==> t == q.head
  {
    var d := pos - q.head;
    t := q.head + d % q.cap;
    var k := d / q.cap;
    assert d == k * q.cap + d % q.cap;
    assert pos == t + k * q.cap;
    ModAddMultiple(t, k, q.cap);
    if 0 <= d < q.cap {
      ModUnique(d, 0, d, q.cap);
    } else if d == q.cap {
      ModUnique(d, 1, 0, q.cap);
    }
  }

  // ---------- Steps keep the invariant ----------

  lemma PlainProducer<T>(q: Queue<T>, i: nat, p: Producer<T>)
    requires Inv(q) && i < |q.producers| && ProducerOk(q, p) && !Working(p)
    ensures Inv(WithProducer(q, i, p))
  {
    var q' := WithProducer(q, i, p);
    forall t | q'.head <= t < q'.head + q'.cap ensures SlotOk(q', t) {
      assert SlotOk(q, t);
    }
    forall j | 0 <= j < |q'.producers| ensures ProducerOk(q', q'.producers[j]) {
      assert j != i ==> ProducerOk(q, q.producers[j]);
    }
  }

  /** What a producer can find in the slot of a position it loaded, however old. */
  lemma SequenceSeen<T>(q: Queue<T>, pos: nat)
    requires Inv(q) && pos <= q.tail < pos + I64_LIMIT / 2
    ensures var s := q.seqs[pos % q.cap];
            && Diff(s, pos) == s - pos
            && (s == pos && pos == q.tail ==> q.tail < q.head + q.cap)
            && (s < pos ==> pos == q.tail == q.head + q.cap)
  {
    var t := LiveTicket(q, pos);
    assert SlotOk(q, t);
    var s := q.seqs[pos % q.cap];
    assert s == t || s == t + 1;
    DiffExact(s, pos);
  }

  lemma LoadSequenceKept<T>(q: Queue<T>, i: nat)
    requires Inv(q) && Prompt(q) && i < |q.producers| && q.producers[i].Loaded?
    ensures Inv(Next(q, LoadSequence(i)))
  {
    var item, pos := q.producers[i].item, q.producers[i].pos;
    assert ProducerOk(q, q.producers[i]);
    SlotIs(q.cap, pos);
    SequenceSeen(q, pos);
    var s := q.seqs[pos % q.cap];
    if s == pos {
      PlainProducer(q, i, Ready(item, pos));
    } else if s < pos {
      PlainProducer(q, i, Idle(false));
    } else {
      PlainProducer(q, i, Begin(item));
    }
  }

  /** A successful CAS finds the position still current, so the sequence seen earlier is too, and the ticket is free. */
  lemma CasKept<T>(q: Queue<T>, i: nat, spurious: bool)
    requires Inv(q) && Prompt(q) && i < |q.producers| && q.producers[i].Ready?
    ensures Inv(Next(q, Cas(i, spurious)))
    ensures Next(q, Cas(i, spurious)).tail != q.tail ==>
              q.producers[i].pos == q.tail < q.head + q.cap && q.seqs[q.tail % q.cap] == q.tail
  {
    var item, pos := q.producers[i].item, q.producers[i].pos;
    assert ProducerOk(q, q.producers[i]);
    SameWord(q.tail, pos);
    if q.tail == pos && !spurious {
      assert SlotOk(q, q.tail);
      ClaimKept(q, i, item);
    } else {
      PlainProducer(q, i, Begin(item));
    }
  }

  lemma ClaimKept<T>(q: Queue<T>, i: nat, item: T)
    requires Inv(q) && i < |q.producers| && q.tail < q.head + q.cap && q.seqs[q.tail % q.cap] == q.tail
    ensures Inv(WithProducer(q, i, Claimed(item, q.tail)).(tail := q.tail + 1, claimed := q.claimed + [item]))
  {
    var q' := WithProducer(q, i, Claimed(item, q.tail)).(tail := q.tail + 1, claimed := q.claimed + [item]);
    forall t | q'.head <= t < q'.head + q'.cap ensures SlotOk(q', t) {
      assert SlotOk(q, t);
    }
    forall j | 0 <= j < |q'.producers| ensures ProducerOk(q', q'.producers[j]) {
      assert j != i ==> ProducerOk(q, q.producers[j]);
    }
    assert q'.taken == q'.claimed[..q'.head];
  }

  lemma WriteKept<T>(q: Queue<T>, i: nat)
    requires Inv(q) && i < |q.producers| && q.producers[i].Claimed?
    ensures Inv(Next(q, WriteData(i)))
  {
    var item, pos := q.producers[i].item, q.producers[i].pos;
    assert ProducerOk(q, q.producers[i]);
    SlotIs(q.cap, pos);
    var q' := Next(q, WriteData(i));
    forall t | q'.head <= t < q'.head + q'.cap ensures SlotOk(q', t) {
      assert SlotOk(q, t);
      if t != pos {
        OwnSlot(q, t, pos);
      }
    }
    forall j | 0 <= j < |q'.producers| ensures ProducerOk(q', q'.producers[j]) {
      var p := q.producers[j];
      assert ProducerOk(q, p);
      if j != i && p.Written? {
        assert p.pos != pos;
        OwnSlot(q, p.pos, pos);
      }
    }
  }

  lemma PublishKept<T>(q: Queue<T>, i: nat)
    requires Inv(q) && i < |q.producers| && q.producers[i].Written?
    ensures Inv(Next(q, Publish(i)))
  {
    var item, pos := q.producers[i].item, q.producers[i].pos;
    assert ProducerOk(q, q.producers[i]);
    SlotIs(q.cap, pos);
    var q' := Next(q, Publish(i));
    forall t | q'.head <= t < q'.head + q'.cap ensures SlotOk(q', t) {
      assert SlotOk(q, t);
      if t != pos {
        OwnSlot(q, t, pos);
      }
    }
    forall j | 0 <= j < |q'.producers| ensures ProducerOk(q', q'.producers[j]) {
      var p := q.producers[j];
      assert ProducerOk(q, p);
      if j != i && Working(p) {
        assert p.pos != pos;
        OwnSlot(q, p.pos, pos);
      }
    }
    if q.head != pos {
      OwnSlot(q, q.head, pos);
    }
  }

  lemma LookKept<T>(q: Queue<T>)
    requires Inv(q) && q.consumer.Resting?
    ensures Inv(Next(q, LoadHeadSequence))
    ensures Next(q, LoadHeadSequence).consumer.Seen? <==> q.head < q.tail && q.seqs[q.head % q.cap] == q.head + 1
  {
    SlotIs(q.cap, q.head);
    assert SlotOk(q, q.head);
    var s := q.seqs[q.head % q.cap];
    DiffExact(s, q.head + 1);
    var q' := Next(q, LoadHeadSequence);
    SameSlots(q, q');
  }

  lemma SameSlots<T>(q: Queue<T>, q': Queue<T>)
    requires Inv(q) && q' == q.(consumer := q'.consumer)
    ensures SlotsOk(q') && forall i :: 0 <= i < |q'.producers| ==> ProducerOk(q', q'.producers[i])
  {
    forall t | q'.head <= t < q'.head + q'.cap ensures SlotOk(q', t) {
      assert SlotOk(q, t);
    }
    forall j | 0 <= j < |q'.producers| ensures ProducerOk(q', q'.producers[j]) {
      assert ProducerOk(q, q.producers[j]);
    }
  }

  lemma ReadKept<T>(q: Queue<T>)
    requires Inv(q) && q.consumer.Seen?
    ensures Inv(Next(q, ReadData))
  {
    SlotIs(q.cap, q.head);
    assert SlotOk(q, q.head);
    SameSlots(q, Next(q, ReadData));
  }

  lemma FreeKept<T>(q: Queue<T>)
    requires Inv(q) && q.consumer.Read?
    ensures Inv(Next(q, FreeSlot))
  {
    SlotIs(q.cap, q.head);
    var q' := Next(q, FreeSlot);
    forall t | q'.head <= t < q'.head + q'.cap ensures SlotOk(q', t) {
      if t == q.head + q.cap {
        ModAddMultiple(q.head, 1, q.cap);
      } else {
        assert SlotOk(q, t);
        OwnSlot(q, t, q.head);
      }
    }
    forall j | 0 <= j < |q'.producers| ensures ProducerOk(q', q'.producers[j]) {
      var p := q.producers[j];
      assert ProducerOk(q, p);
      if Working(p) {
        assert p.pos != q.head;
        OwnSlot(q, p.pos, q.head);
      }
    }
    assert q'.taken == q'.claimed[..q'.head];
  }

  /** Every atomic step of every party keeps the invariant. */
  lemma NextInv<T>(q: Queue<T>, e: Event<T>)
    requires Inv(q) && Prompt(q)
    ensures Inv(Next(q, e))
  {
    match e
    case LoadHeadSequence => if q.consumer.Resting? { LookKept(q); }
    case ReadData => if q.consumer.Seen? { ReadKept(q); }
    case FreeSlot => if q.consumer.Read? { FreeKept(q); }
    case Call(i, item) => if i < |q.producers| && q.producers[i].Idle? { PlainProducer(q, i, Begin(item)); }
    case LoadTail(i) =>
      if i < |q.producers| && q.producers[i].Begin? {
        PlainProducer(q, i, Loaded(q.producers[i].item, q.tail));
      }
    case LoadSequence(i) => if i < |q.producers| && q.producers[i].Loaded? { LoadSequenceKept(q, i); }
    case Cas(i, spurious) => if i < |q.producers| && q.producers[i].Ready? { CasKept(q, i, spurious); }
    case WriteData(i) => if i < |q.producers| && q.producers[i].Claimed? { WriteKept(q, i); }
    case Publish(i) => if i < |q.producers| && q.producers[i].Written? { PublishKept(q, i); }
  }

  // ---------- Runs ----------

  ghost function Init<T>(cap: nat, blank: T, n: nat): Queue<T> {
    Queue(cap, 0, 0, seq(cap, i requires 0 <= i < cap => i), seq(cap, i => blank),
          seq(n, i => Idle(true)), Resting(true), [], [])
  }

  lemma InitInv<T>(cap: nat, blank: T, n: nat)
    requires IsPow2(cap) && 2 <= cap < I64_LIMIT / 2
    ensures Inv(Init(cap, blank, n))
  {
    var q := Init(cap, blank, n);
    forall t | q.head <= t < q.head + q.cap ensures SlotOk(q, t) {
      ModUnique(t, 0, t, cap);
    }
  }

  ghost function Exec<T>(q: Queue<T>, es: seq<Event<T>>): (r: Queue<T>)
    requires Shape(q)
    ensures Shape(r) && r.cap == q.cap
    decreases |es|
  {
    if es == [] then q else Exec(Next(q, es[0]), es[1..])
  }

  ghost predicate PromptRun<T>(q: Queue<T>, es: seq<Event<T>>)
    requires Shape(q)
    decreases |es|
  {
    Prompt(q) && (es != [] ==> PromptRun(Next(q, es[0]), es[1..]))
  }

  lemma {:induction false} RunInv<T>(q: Queue<T>, es: seq<Event<T>>)
    requires Inv(q) && PromptRun(q, es)
    ensures Inv(Exec(q, es))
    decreases |es|
  {
    if es != [] {
      NextInv(q, es[0]);
      RunInv(Next(q, es[0]), es[1..]);
    }
  }

  /** No two parties are inside one slot's data at the same time. */
  ghost predicate Exclusive<T>(q: Queue<T>)
    requires Shape(q)
  {
    && (forall i, j :: 0 <= i < j < |q.producers| && q.producers[i].Claimed? && q.producers[j].Claimed? ==>
          SlotAt(q, q.producers[i].pos) != SlotAt(q, q.producers[j].pos))
    && (forall i :: 0 <= i < |q.producers| && q.producers[i].Claimed? && q.consumer.Seen? ==>
          SlotAt(q, q.producers[i].pos) != SlotAt(q, q.head))
  }

  lemma InvExclusive<T>(q: Queue<T>)
    requires Inv(q)
    ensures Exclusive(q)
  {
    SlotIs(q.cap, q.head);
    forall i | 0 <= i < |q.producers| && q.producers[i].Claimed?
      ensures SlotAt(q, q.producers[i].pos) == q.producers[i].pos % q.cap
      ensures q.head <= q.producers[i].pos < q.head + q.cap
      ensures q.consumer.Seen? ==> q.producers[i].pos % q.cap != q.head % q.cap
    {
      assert ProducerOk(q, q.producers[i]);
      SlotIs(q.cap, q.producers[i].pos);
      if q.consumer.Seen? {
        OwnSlot(q, q.producers[i].pos, q.head);
      }
    }
    forall i, j | 0 <= i < j < |q.producers| && q.producers[i].Claimed? && q.producers[j].Claimed?
      ensures SlotAt(q, q.producers[i].pos) != SlotAt(q, q.producers[j].pos)
    {
      OwnSlot(q, q.producers[i].pos, q.producers[j].pos);
    }
  }

  /**
    In every run of any number of producers and the consumer: at most `cap` tickets are outstanding, slots are accessed
    exclusively, and the items dequeued are the items of tickets 0, 1, 2, ... in the order they were claimed, each once.
   */
  lemma EveryRun<T>(cap: nat, blank: T, n: nat, es: seq<Event<T>>)
    requires IsPow2(cap) && 2 <= cap < I64_LIMIT / 2 && PromptRun(Init(cap, blank, n), es)
    ensures var q := Exec(Init(cap, blank, n), es);
            && q.head <= q.tail <= q.head + q.cap && |q.claimed| == q.tail
            && q.taken == q.claimed[..q.head]
            && Exclusive(q) && SlotsApart(q)
  {
    InitInv(cap, blank, n);
    RunInv(Init(cap, blank, n), es);
    InvExclusive(Exec(Init(cap, blank, n), es));
    InvSlotsApart(Exec(Init(cap, blank, n), es));
  }

  /** The tickets between head and tail own distinct slots. */
  ghost predicate SlotsApart<T>(q: Queue<T>)
    requires Shape(q)
  {
    forall t, u :: q.head <= t < u < q.tail ==> SlotAt(q, t) != SlotAt(q, u)
  }

  lemma InvSlotsApart<T>(q: Queue<T>)
    requires Inv(q)
    ensures SlotsApart(q)
  {
    forall t, u | q.head <= t < u < q.tail ensures SlotAt(q, t) != SlotAt(q, u) {
      OwnSlot(q, t, u);
      SlotIs(q.cap, t);
      SlotIs(q.cap, u);
    }
  }

  // ---------- The queue as its users see it ----------

  /** Items claimed and not yet dequeued, first to last. */
  ghost function Waiting<T>(q: Queue<T>): seq<T>
    requires Inv(q)
  {
    q.claimed[q.head..]
  }

  /**
    The queue is a FIFO: an item joins the end at the step that claims its ticket, the first item leaves at the step
    that frees its slot, as the item then returned, and no other step of anybody changes the queue.
   */
  lemma QueueIsFifo<T>(q: Queue<T>, e: Event<T>)
    requires Inv(q) && Prompt(q)
    ensures Inv(Next(q, e))
    ensures var r := Next(q, e);
            if e.Cas? && r.tail != q.tail then
              e.i < |q.producers| && q.producers[e.i].Ready? && Waiting(r) == Waiting(q) + [q.producers[e.i].item]
            else if e.FreeSlot? && q.consumer.Read? then
              Waiting(q) == [q.consumer.item] + Waiting(r) && r.taken == q.taken + [q.consumer.item]
            else
              Waiting(r) == Waiting(q) && r.taken == q.taken
  {
    NextInv(q, e);
  }

  /** Nothing recorded is ever rewritten: claims and dequeues only extend. */
  lemma {:induction false} HistoryGrows<T>(q: Queue<T>, es: seq<Event<T>>)
    requires Shape(q)
    ensures q.claimed <= Exec(q, es).claimed && q.taken <= Exec(q, es).taken
    decreases |es|
  {
    if es != [] {
      HistoryGrows(Next(q, es[0]), es[1..]);
    }
  }

  /** `enqueue` gives up exactly when its position is current and every slot is occupied at that instant. */
  lemma EnqueueFailsIffFull<T>(q: Queue<T>, i: nat)
    requires Inv(q) && Prompt(q) && i < |q.producers| && q.producers[i].Loaded?
    ensures Next(q, LoadSequence(i)).producers[i] == Idle(false)
            <==> q.producers[i].pos == q.tail && q.tail - q.head == q.cap
  {
    var pos := q.producers[i].pos;
    assert ProducerOk(q, q.producers[i]);
    SlotIs(q.cap, pos);
    SequenceSeen(q, pos);
    if pos == q.tail && q.tail - q.head == q.cap {
      var t := LiveTicket(q, pos);
      assert SlotOk(q, t);
    }
  }

  /** `dequeue` returns false exactly when the head ticket is unclaimed or not yet published at that instant. */
  lemma DequeueFailsIffUnpublished<T>(q: Queue<T>)
    requires Inv(q) && q.consumer.Resting?
    ensures Next(q, LoadHeadSequence).consumer == Resting(false)
            <==> q.head == q.tail || q.seqs[q.head % q.cap] == q.head
  {
    LookKept(q);
    assert SlotOk(q, q.head);
  }

  // ---------- Capacity one ----------

  ghost function Enqueue<T>(i: nat, item: T): seq<Event<T>> {
    [Call(i, item), LoadTail(i), LoadSequence(i), Cas(i, false), WriteData(i), Publish(i)]
  }

  /**
    With one slot, "published" and "free for the next ticket" are the same number: the second item overwrites the first.
   */
  lemma CapacityOneOverwrites<T>(blank: T, a: T, b: T)
    ensures var q := Init(1, blank, 1);
            var es := Enqueue(0, a) + Enqueue(0, b);
            var r := Exec(q, es);
            && PromptRun(q, es)
            && r.tail == 2 && r.head == 0 && r.data == [b] && r.producers == [Idle(true)]
            && Next(r, LoadHeadSequence).consumer == Resting(false)
  {
    var q0 := Init(1, blank, 1);
    assert q0 == Queue(1, 0, 0, [0], [blank], [Idle(true)], Resting(true), [], []);
    OneEnqueue(q0, a);
    var q1 := Exec(q0, Enqueue(0, a));
    assert q1 == Queue(1, 0, 1, [1], [a], [Idle(true)], Resting(true), [a], []);
    OneEnqueue(q1, b);
    ExecConcat(q0, Enqueue(0, a), Enqueue(0, b));
  }

  lemma OneEnqueue<T>(q: Queue<T>, x: T)
    requires q.cap == 1 && q.tail < 2 && q.seqs == [q.tail] && |q.data| == 1 && |q.producers| == 1
    requires q.producers[0].Idle?
    ensures PromptRun(q, Enqueue(0, x))
    ensures Exec(q, Enqueue(0, x)) ==
              q.(tail := q.tail + 1, seqs := [q.tail + 1], data := [x], producers := [Idle(true)],
                 claimed := q.claimed + [x])
  {
    var a: seq<Event<T>> := [Call(0, x), LoadTail(0), LoadSequence(0)];
    var b: seq<Event<T>> := [Cas(0, false), WriteData(0), Publish(0)];
    assert a + b == Enqueue(0, x);
    OneReads(q, x);
    OneStores(q, x);
    hide Next, Prompt, Exec, PromptRun;
    ExecConcat(q, a, b);
  }

  lemma OneReads<T>(q: Queue<T>, x: T)
    requires q.cap == 1 && q.tail < 2 && q.seqs == [q.tail] && |q.data| == 1 && |q.producers| == 1
    requires q.producers[0].Idle?
    ensures PromptRun(q, [Call(0, x), LoadTail(0), LoadSequence(0)])
    ensures Exec(q, [Call(0, x), LoadTail(0), LoadSequence(0)]) == q.(producers := [Ready(x, q.tail)])
  {
    var q1 := q.(producers := [Begin(x)]);
    var q2 := q.(producers := [Loaded(x, q.tail)]);
    assert Next(q, Call(0, x)) == q1;
    assert Next(q1, LoadTail(0)) == q2;
    assert Next(q2, LoadSequence(0)) == q.(producers := [Ready(x, q.tail)]) by { DiffExact(q.tail, q.tail); }
    hide Next, Exec, PromptRun;
    Unroll(q2, [LoadSequence(0)]);
    Unroll(q1, [LoadTail(0), LoadSequence(0)]);
    Unroll(q, [Call(0, x), LoadTail(0), LoadSequence(0)]);
  }

  lemma OneStores<T>(q: Queue<T>, x: T)
    requires q.cap == 1 && q.tail < 2 && q.seqs == [q.tail] && |q.data| == 1
    ensures var q3 := q.(producers := [Ready(x, q.tail)]);
            && PromptRun(q3, [Cas(0, false), WriteData(0), Publish(0)])
            && Exec(q3, [Cas(0, false), WriteData(0), Publish(0)]) ==
                 q.(tail := q.tail + 1, seqs := [q.tail + 1], data := [x], producers := [Idle(true)],
                    claimed := q.claimed + [x])
  {
    var t := q.tail;
    var q3 := q.(producers := [Ready(x, t)]);
    var q4 := q.(producers := [Claimed(x, t)], tail := t + 1, claimed := q.claimed + [x]);
    var q5 := q4.(producers := [Written(x, t)], data := [x]);
    assert Next(q3, Cas(0, false)) == q4;
    assert Next(q4, WriteData(0)) == q5;
    assert Next(q5, Publish(0)) == q5.(producers := [Idle(true)], seqs := [t + 1]);
    hide Next, Exec, PromptRun;
    Unroll(q5, [Publish(0)]);
    Unroll(q4, [WriteData(0), Publish(0)]);
    Unroll(q3, [Cas(0, false), WriteData(0), Publish(0)]);
  }

  lemma Unroll<T>(q: Queue<T>, es: seq<Event<T>>)
    requires Shape(q) && es != []
    ensures Exec(q, es) == Exec(Next(q, es[0]), es[1..])
    ensures PromptRun(q, es) <==> Prompt(q) && PromptRun(Next(q, es[0]), es[1..])
    ensures |es| == 1 ==> Exec(q, es) == Next(q, es[0]) && (PromptRun(q, es) <==> Prompt(q) && Prompt(Next(q, es[0])))
  {
  }

  lemma {:induction false} ExecConcat<T>(q: Queue<T>, a: seq<Event<T>>, b: seq<Event<T>>)
    requires Shape(q)
    ensures Exec(q, a + b) == Exec(Exec(q, a), b)
    ensures PromptRun(q, a) && PromptRun(Exec(q, a), b) ==> PromptRun(q, a + b)
    decreases |a|
  {
    if a == [] {
      assert a + b == b;
    } else {
      assert (a + b)[1..] == a[1..] + b;
      ExecConcat(Next(q, a[0]), a[1..], b);
    }
  }

  /**
    For a positive power of two: the queue never holds more than its capacity, in every run, if and only if the capacity
    is at least two.
   */
  lemma BoundedIffTwo<T(!new)>(cap: nat, blank: T)
    requires IsPow2(cap) && cap < I64_LIMIT / 2
    ensures cap >= 2 <==>
            forall n: nat, es: seq<Event<T>> {:trigger Exec(Init(cap, blank, n), es)} ::
              cap > 0 && PromptRun(Init(cap, blank, n), es) ==>
                Exec(Init(cap, blank, n), es).tail <= Exec(Init(cap, blank, n), es).head + cap
  {
    if cap >= 2 {
      forall n: nat, es: seq<Event<T>> {:trigger Exec(Init(cap, blank, n), es)} | PromptRun(Init(cap, blank, n), es)
        ensures Exec(Init(cap, blank, n), es).tail <= Exec(Init(cap, blank, n), es).head + cap
      {
        EveryRun(cap, blank, n, es);
      }
    } else {
      var k: nat :| Pow2(k) == cap;
      CapacityOneOverwrites(blank, blank, blank);
      var es := Enqueue(0, blank) + Enqueue(0, blank);
      assert PromptRun(Init(1, blank, 1), es) && Exec(Init(1, blank, 1), es).tail == 2;
    }
  }
}
