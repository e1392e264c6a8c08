/**
  One TCP worker: any number of channels over one buffer pool, each with its write loop
  suspended somewhere, under every interleaving of application calls and kernel completions.

  A run is a list of events.  `draft`, `submitted`, `carried` and `acked` record, as plain
  byte strings, what the application asked for and what the kernel acknowledged; they are
  the reference against which the blocks and rings are compared.
 */
module TcpWorker {
  import opened Bits
  import opened Blocks
  import opened WriteSpec

  /** Where the write coroutine is: waiting for a notification, for a `writev`, in `on_write`, or finished. */
  datatype Where = Parked | Writing(vec: seq<Iovec>) | InCallback | Ended

  datatype Channel = Channel(
    pending: seq<nat>, send: seq<nat>, offset: nat,
    flag: bool, closed: bool,          // NotifyToken: pending_ and closed_; handle_ is set exactly when Parked
    at: Where,
    draft: seq<byte>,                  // appended and prepended since the last submit
    submitted: seq<byte>,              // drafts submitted on this connection
    carried: seq<byte>,                // bytes found in the send ring when the connection was assigned
    acked: seq<byte>)                  // acknowledged by the kernel on this connection

  datatype Worker = Worker(pool: Pool, cap: nat, chans: seq<Channel>)

  /** `busy` is what `has_in_flight()` answers if the write loop asks for it. */
  datatype Event =
    | Append(c: nat, bytes: seq<byte>)
    | Prepend(c: nat, bytes: seq<byte>)
    | Submit(c: nat, busy: bool)
    | Complete(c: nat, res: int)       // the outstanding writev of channel c completed with res
    | Continue(c: nat, busy: bool)     // on_write of channel c returned
    | Close(c: nat, busy: bool)
    | Drained(c: nat, busy: bool)      // on_drained of a closing channel
    | Assign(c: nat, busy: bool)       // a finished channel gets a new connection

  /** The part of a worker that one event touches. */
  type Part = (Pool, Channel)

  // ---------- The write loop between two suspension points ----------

  function NewChannel(): Channel {
    Channel([], [], 0, false, false, Ended, [], [], [], [])
  }

  ghost predicate Sound(p: Pool, ch: Channel) {
    HeadOk(p.data, ch.send, ch.offset) && InRange(p.data, ch.send + ch.pending)
  }

  /** Leaving the loop: `write_buf_.reset()`. */
  ghost function End(p: Pool, ch: Channel): Part
    requires Sound(p, ch)
  {
    (ReleaseAll(p, ch.send + ch.pending),
     ch.(pending := [], send := [], offset := 0, at := Ended, draft := [], submitted := [], carried := [], acked := []))
  }

  /** From the top of the loop to the next suspension point. */
  ghost function LoopTop(p: Pool, ch: Channel, busy: bool): Part
    requires Sound(p, ch)
  {
    if ch.send != [] then Proceed(p, ch, busy)
    else if !ch.flag then (p, ch.(at := Parked))
    else Proceed(p, ch.(flag := false), busy)
  }

  /** From just after the wait. */
  ghost function Proceed(p: Pool, ch: Channel, busy: bool): Part
    requires Sound(p, ch)
  {
    if ch.closed && !busy then End(p, ch)
    else if ch.send == [] then (p, ch.(at := Parked, flag := false))
    else (p, ch.(at := Writing(Iovecs(p.data, ch.send, ch.offset))))
  }

  /** `NotifyToken::notify`: resume the loop if it is parked, otherwise leave a note. */
  ghost function Notify(p: Pool, ch: Channel, busy: bool): Part
    requires Sound(p, ch)
  {
    if ch.at.Parked? then Proceed(p, ch, busy) else (p, ch.(flag := true))
  }

  // ---------- Events ----------

  ghost predicate SubmitFits(ch: Channel, cap: nat) {
    ch.pending != [] && |ch.pending| + |ch.send| <= cap
  }

  ghost function SubmitStep(p: Pool, cap: nat, ch: Channel, busy: bool): Part
    requires Sound(p, ch)
  {
    if !SubmitFits(ch, cap) then (p, ch)
    else
      SubmitSound(p, ch);
      Notify(p, Submitted(ch), busy)
  }

  ghost function Submitted(ch: Channel): Channel {
    ch.(send := ch.send + ch.pending, pending := [], submitted := ch.submitted + ch.draft, draft := [])
  }

  lemma SubmitSound(p: Pool, ch: Channel)
    requires Sound(p, ch)
    ensures Sound(p, Submitted(ch))
  {
    assert Submitted(ch).send + [] == ch.send + ch.pending;
  }

  ghost function CompleteStep(p: Pool, ch: Channel, res: int): Part
    requires Sound(p, ch) && Apart(ch.send)
  {
    var s := Sending(p, ch.send, ch.offset);
    if !ch.at.Writing? || !Readable(p.data, ch.at.vec) then (p, ch)
    else if res <= 0 then End(p, ch.(closed := true, flag := ch.flag || !ch.closed))
    else if res > |ReadVec(p.data, ch.at.vec)| || res > |UnsentOf(s)| then (p, ch)
    else
      var r := Consume(s, res);
      (r.pool, ch.(send := r.send, offset := r.offset, at := InCallback,
                   acked := ch.acked + ReadVec(p.data, ch.at.vec)[..res]))
  }

  ghost function AssignStep(p: Pool, ch: Channel, busy: bool): Part
    requires Sound(p, ch)
  {
    if !ch.at.Ended? then (p, ch)
    else LoopTop(p, ch.(flag := false, closed := false, carried := ch.carried + ch.submitted, submitted := []), busy)
  }

  ghost function Step(p: Pool, cap: nat, ch: Channel, e: Event): Part
    requires Sound(p, ch) && Holds(p, multiset(ch.pending) + multiset(ch.send)) && |ch.pending| <= cap && Apart(ch.send)
  {
    HoldsPart(p, multiset(ch.pending), multiset(ch.pending) + multiset(ch.send));
    match e
    case Append(_, bytes) =>
      var o := AppendSpec(p, ch.pending, cap, bytes);
      (o.pool, ch.(pending := o.pending, draft := if o.ok then ch.draft + bytes else ch.draft))
    case Prepend(_, bytes) =>
      var o := PrependSpec(p, ch.pending, cap, bytes);
      (o.pool, ch.(pending := o.pending, draft := if o.ok then bytes + ch.draft else ch.draft))
    case Submit(_, busy) => SubmitStep(p, cap, ch, busy)
    case Complete(_, res) => CompleteStep(p, ch, res)
    case Continue(_, busy) => if ch.at.InCallback? then LoopTop(p, ch, busy) else (p, ch)
    case Close(_, busy) => Notify(p, ch.(closed := true), busy)
    case Drained(_, busy) => if ch.closed then Notify(p, ch, busy) else (p, ch)
    case Assign(_, busy) => AssignStep(p, ch, busy)
  }

  // ---------- The invariant of one channel ----------

  ghost function Mine(ch: Channel): multiset<nat> {
    multiset(ch.pending) + multiset(ch.send)
  }

  ghost predicate ChanOk(p: Pool, cap: nat, ch: Channel) {
    && |ch.pending| <= cap && |ch.send| <= cap
    && Sound(p, ch) && InRange(p.data, ch.pending)
    && StreamOk(p, ch)
    && LoopOk(p, ch)
  }

  /** Nothing lost, duplicated or reordered. */
  ghost predicate StreamOk(p: Pool, ch: Channel)
    requires Sound(p, ch) && InRange(p.data, ch.pending)
  {
    && Gather(p.data, ch.pending) == ch.draft
    && ch.acked + Unsent(p.data, ch.send, ch.offset) == ch.carried + ch.submitted
  }

  /** No lost wakeup, and the outstanding `writev` covers a prefix of the send ring. */
  ghost predicate LoopOk(p: Pool, ch: Channel)
    requires Sound(p, ch)
  {
    match ch.at
    case Parked => ch.send == [] && !ch.flag
    case Writing(vec) => vec != [] && |vec| <= |ch.send| && vec == Iovecs(p.data, ch.send, ch.offset)[..|vec|]
    case InCallback => true
    case Ended => ch.acked == [] && ch.offset == 0
  }

  ghost predicate Sane(e: Event, size: nat) {
    (e.Append? ==> |e.bytes| < U32) && (e.Prepend? ==> |e.bytes| + size <= U32)
  }

  /** What every step on a channel guarantees to that channel and to everybody else. */
  ghost predicate Kept(p: Pool, cap: nat, ch: Channel, r: Part, others: multiset<nat>) {
    && |r.0.data| == |p.data| && r.0.blockSize == p.blockSize
    && multiset(r.0.free) + Mine(r.1) == multiset(p.free) + Mine(ch)
    && Holds(r.0, Mine(r.1) + others)
    && (forall i :: 0 <= i < |p.data| && i !in p.free && i !in Mine(ch) ==> r.0.data[i] == p.data[i])
    && ChanOk(r.0, cap, r.1)
  }

  lemma Indices(p: Pool, ch: Channel, others: multiset<nat>)
    requires Holds(p, Mine(ch) + others)
    ensures Holds(p, Mine(ch)) && Holds(p, multiset(ch.pending)) && Holds(p, multiset(ch.send))
    ensures InRange(p.data, ch.pending) && InRange(p.data, ch.send) && InRange(p.data, ch.send + ch.pending)
    ensures Apart(ch.send)
    ensures forall i :: i in ch.send ==> i !in p.free && i !in ch.pending
  {
    hide Holds, Once;
    HoldsPart(p, Mine(ch), Mine(ch) + others);
    HoldsPart(p, multiset(ch.pending), Mine(ch));
    HoldsPart(p, multiset(ch.send), Mine(ch));
    HoldsIndices(p, ch.pending);
    HoldsIndices(p, ch.send);
    var all := ch.send + ch.pending;
    assert multiset(all) == Mine(ch);
    HoldsIndices(p, all);
    assert forall i :: 0 <= i < |ch.send| ==> ch.send[i] == (all + p.free)[i];
    assert forall i :: 0 <= i < |ch.pending| ==> ch.pending[i] == (all + p.free)[|ch.send| + i];
  }

  lemma AddSame(a: multiset<nat>, b: multiset<nat>, c: multiset<nat>, d: multiset<nat>, m: multiset<nat>)
    requires a + b == c + d
    ensures a + (b + m) == c + (d + m)
  {
    assert a + (b + m) == (a + b) + m;
    assert c + (d + m) == (c + d) + m;
  }

  // ---------- Steps keep the invariant ----------

  lemma AppendKept(p: Pool, cap: nat, ch: Channel, e: Event, others: multiset<nat>)
    requires Holds(p, Mine(ch) + others) && ChanOk(p, cap, ch) && e.Append?
    ensures Holds(p, Mine(ch)) && Apart(ch.send) && Kept(p, cap, ch, Step(p, cap, ch, e), others)
  {
    Indices(p, ch, others);
    hide AppendSpec, Holds, Gather, Unsent, Iovecs, HeadOk, InRange, Apart, LoopOk;
    var o := AppendSpec(p, ch.pending, cap, e.bytes);
    var held := multiset(ch.send) + others;
    assert multiset(ch.pending) + held == Mine(ch) + others;
    AppendOwnership(p, ch.pending, cap, e.bytes, held);
    AppendContents(p, ch.pending, cap, e.bytes);
    var r := Step(p, cap, ch, e);
    assert Mine(r.1) + others == multiset(o.pending) + held;
    PendingChanged(p, cap, ch, r.0, r.1);
    AddSame(multiset(o.pool.free), multiset(o.pending), multiset(p.free), multiset(ch.pending), multiset(ch.send));
  }

  lemma PrependKept(p: Pool, cap: nat, ch: Channel, e: Event, others: multiset<nat>)
    requires Holds(p, Mine(ch) + others) && ChanOk(p, cap, ch) && e.Prepend? && p.blockSize < U32
    requires Sane(e, p.blockSize)
    ensures Holds(p, Mine(ch)) && Apart(ch.send) && Kept(p, cap, ch, Step(p, cap, ch, e), others)
  {
    Indices(p, ch, others);
    hide PrependSpec, Holds, Gather, Unsent, Iovecs, HeadOk, InRange, Apart, LoopOk;
    var o := PrependSpec(p, ch.pending, cap, e.bytes);
    var held := multiset(ch.send) + others;
    assert multiset(ch.pending) + held == Mine(ch) + others;
    PrependOwnership(p, ch.pending, cap, e.bytes, held);
    PrependContents(p, ch.pending, cap, e.bytes);
    var r := Step(p, cap, ch, e);
    assert Mine(r.1) + others == multiset(o.pending) + held;
    PendingChanged(p, cap, ch, r.0, r.1);
    AddSame(multiset(o.pool.free), multiset(o.pending), multiset(p.free), multiset(ch.pending), multiset(ch.send));
  }

  /** A step that only worked on the pending list leaves the send side, and an outstanding `writev`, as they were. */
  lemma PendingChanged(p: Pool, cap: nat, ch: Channel, p': Pool, ch': Channel)
    requires ChanOk(p, cap, ch) && |p'.data| == |p.data|
    requires ch' == ch.(pending := ch'.pending, draft := ch'.draft) && |ch'.pending| <= cap
    requires forall i :: i in ch.send ==> p'.data[i] == p.data[i]
    requires InRange(p'.data, ch'.pending) && Gather(p'.data, ch'.pending) == ch'.draft
    ensures ChanOk(p', cap, ch')
  {
    SendFrame(p.data, p'.data, ch.send, ch.offset);
  }

  lemma SendFrame(data: seq<seq<byte>>, data': seq<seq<byte>>, send: seq<nat>, offset: nat)
    requires HeadOk(data, send, offset) && |data'| == |data|
    requires forall i :: i in send ==> data'[i] == data[i]
    ensures HeadOk(data', send, offset)
    ensures Unsent(data', send, offset) == Unsent(data, send, offset)
    ensures Iovecs(data', send, offset) == Iovecs(data, send, offset)
  {
    GatherFrame(data, data', send);
    UnsentIsSuffix(data, send, offset);
    UnsentIsSuffix(data', send, offset);
  }

  /** A change of the loop's position or the token alone. */
  lemma OnlyLoopChanged(p: Pool, cap: nat, ch: Channel, ch': Channel, others: multiset<nat>)
    requires Holds(p, Mine(ch) + others)
    requires |ch.pending| <= cap && |ch.send| <= cap && Sound(p, ch) && InRange(p.data, ch.pending) && StreamOk(p, ch)
    requires ch' == ch.(at := ch'.at, flag := ch'.flag, closed := ch'.closed)
    requires LoopOk(p, ch')
    ensures Kept(p, cap, ch, (p, ch'), others)
  {
  }

  lemma EndKept(p: Pool, cap: nat, ch: Channel, others: multiset<nat>)
    requires Holds(p, Mine(ch) + others) && Sound(p, ch)
    ensures Kept(p, cap, ch, End(p, ch), others)
  {
    var all := ch.send + ch.pending;
    var r := End(p, ch);
    assert multiset(all) == Mine(ch);
    ReleaseAllHolds(p, all, others);
    ReleaseAllEffect(p, all);
    assert forall i :: i in all <==> i in Mine(ch) by {
      assert forall i :: i in all <==> i in multiset(all);
    }
    assert Mine(r.1) == multiset{} && multiset{} + others == others;
    assert multiset(p.free + all) == multiset(p.free) + Mine(ch);
  }

  /** The part of the invariant that holds while the coroutine is running. */
  ghost predicate Running(p: Pool, cap: nat, ch: Channel) {
    |ch.pending| <= cap && |ch.send| <= cap && Sound(p, ch) && InRange(p.data, ch.pending) && StreamOk(p, ch)
  }

  lemma ProceedKept(p: Pool, cap: nat, ch: Channel, busy: bool, others: multiset<nat>)
    requires Holds(p, Mine(ch) + others) && Running(p, cap, ch)
    ensures Kept(p, cap, ch, Proceed(p, ch, busy), others)
  {
    var r := Proceed(p, ch, busy);
    if ch.closed && !busy {
      EndKept(p, cap, ch, others);
    } else {
      if ch.send != [] {
        var v := Iovecs(p.data, ch.send, ch.offset);
        assert v[..|v|] == v;
      }
      OnlyLoopChanged(p, cap, ch, r.1, others);
    }
  }

  lemma LoopTopKept(p: Pool, cap: nat, ch: Channel, busy: bool, others: multiset<nat>)
    requires Holds(p, Mine(ch) + others) && Running(p, cap, ch)
    ensures Kept(p, cap, ch, LoopTop(p, ch, busy), others)
  {
    if ch.send != [] {
      ProceedKept(p, cap, ch, busy, others);
    } else if !ch.flag {
      OnlyLoopChanged(p, cap, ch, ch.(at := Parked), others);
    } else {
      ProceedKept(p, cap, ch.(flag := false), busy, others);
    }
  }

  lemma NotifyKept(p: Pool, cap: nat, ch: Channel, busy: bool, others: multiset<nat>)
    requires Holds(p, Mine(ch) + others) && Running(p, cap, ch)
    requires !ch.at.Parked? ==> LoopOk(p, ch)
    ensures Kept(p, cap, ch, Notify(p, ch, busy), others)
  {
    if ch.at.Parked? {
      ProceedKept(p, cap, ch, busy, others);
    } else {
      OnlyLoopChanged(p, cap, ch, ch.(flag := true), others);
    }
  }

  lemma SubmitKept(p: Pool, cap: nat, ch: Channel, busy: bool, others: multiset<nat>)
    requires Holds(p, Mine(ch) + others) && ChanOk(p, cap, ch)
    ensures Kept(p, cap, ch, SubmitStep(p, cap, ch, busy), others)
  {
    if SubmitFits(ch, cap) {
      var s := Submitted(ch);
      SubmitSound(p, ch);
      UnsentConcat(p.data, ch.send, ch.offset, ch.pending);
      Assoc(ch.acked, Unsent(p.data, ch.send, ch.offset), ch.draft);
      Assoc(ch.carried, ch.submitted, ch.draft);
      assert Mine(s) == Mine(ch);
      if ch.at.Writing? {
        IovecsPrefix(p.data, ch.send, ch.offset, ch.pending);
        var n := |ch.at.vec|;
        assert Iovecs(p.data, s.send, s.offset)[..n] == Iovecs(p.data, s.send, s.offset)[..|ch.send|][..n];
      }
      NotifyKept(p, cap, s, busy, others);
    }
  }

  /** A submit extends what `writev` would be given, it does not change what it was given. */
  lemma IovecsPrefix(data: seq<seq<byte>>, send: seq<nat>, offset: nat, more: seq<nat>)
    requires HeadOk(data, send, offset) && InRange(data, more)
    ensures HeadOk(data, send + more, offset)
    ensures Iovecs(data, send + more, offset)[..|send|] == Iovecs(data, send, offset)
  {
    assert InRange(data, send + more);
    assert send != [] ==> (send + more)[0] == send[0];
  }

  lemma CompleteKept(p: Pool, cap: nat, ch: Channel, res: int, others: multiset<nat>)
    requires Holds(p, Mine(ch) + others) && ChanOk(p, cap, ch)
    ensures Apart(ch.send) && Kept(p, cap, ch, CompleteStep(p, ch, res), others)
  {
    Indices(p, ch, others);
    var s := Sending(p, ch.send, ch.offset);
    if ch.at.Writing? && Readable(p.data, ch.at.vec) {
      if res <= 0 {
        EndKept(p, cap, ch.(closed := true, flag := ch.flag || !ch.closed), others);
      } else if res <= |ReadVec(p.data, ch.at.vec)| && res <= |UnsentOf(s)| {
        AcknowledgeKept(p, cap, ch, res, others);
      }
    }
  }

  /** The kernel's bytes are the first unsent bytes, and exactly those are dropped. */
  lemma AcknowledgeKept(p: Pool, cap: nat, ch: Channel, res: nat, others: multiset<nat>)
    requires Holds(p, Mine(ch) + others) && ChanOk(p, cap, ch) && Apart(ch.send)
    requires ch.at.Writing? && Readable(p.data, ch.at.vec)
    requires forall i :: i in ch.send ==> i !in ch.pending
    requires 0 < res <= |ReadVec(p.data, ch.at.vec)| && res <= |UnsentOf(Sending(p, ch.send, ch.offset))|
    ensures Kept(p, cap, ch, CompleteStep(p, ch, res), others)
  {
    var s := Sending(p, ch.send, ch.offset);
    AcknowledgedBytes(p, ch, res);
    var k := ConsumeReleases(s, res);
    ReleasedPrefix(p, ch.pending, ch.send, k, others);
    var r := CompleteStep(p, ch, res);
    assert r.1.send == ch.send[k..] && r.0 == ReleaseAll(p, ch.send[..k]);
    assert Sound(r.0, r.1) && StreamOk(r.0, r.1);
    hide *;
    KeptIntro(p, cap, ch, r, others);
  }

  lemma KeptIntro(p: Pool, cap: nat, ch: Channel, r: Part, others: multiset<nat>)
    requires |r.0.data| == |p.data| && r.0.blockSize == p.blockSize && r.1.at.InCallback?
    requires |r.1.pending| <= cap && |r.1.send| <= cap
    requires Sound(r.0, r.1) && InRange(r.0.data, r.1.pending) && StreamOk(r.0, r.1)
    requires multiset(r.0.free) + (multiset(r.1.pending) + multiset(r.1.send))
             == multiset(p.free) + (multiset(ch.pending) + multiset(ch.send))
    requires Holds(r.0, (multiset(r.1.pending) + multiset(r.1.send)) + others)
    requires forall i :: 0 <= i < |p.data| && i !in ch.send ==> r.0.data[i] == p.data[i]
    ensures Kept(p, cap, ch, r, others)
  {
    assert forall i :: i in ch.send ==> i in multiset(ch.send);
  }

  lemma AcknowledgedBytes(p: Pool, ch: Channel, res: nat)
    requires Sound(p, ch) && InRange(p.data, ch.pending) && LoopOk(p, ch) && Apart(ch.send)
    requires ch.at.Writing? && Readable(p.data, ch.at.vec)
    requires 0 < res <= |ReadVec(p.data, ch.at.vec)| && res <= |UnsentOf(Sending(p, ch.send, ch.offset))|
    ensures var s := Sending(p, ch.send, ch.offset);
            && SendOk(Consume(s, res))
            && (ch.acked + ReadVec(p.data, ch.at.vec)[..res]) + UnsentOf(Consume(s, res)) == ch.acked + UnsentOf(s)
  {
    var s := Sending(p, ch.send, ch.offset);
    var u := UnsentOf(s);
    ConsumeBytes(s, res);
    PeekIsUnsent(p.data, ch.send, ch.offset);
    ReadVecPrefix(p.data, Iovecs(p.data, ch.send, ch.offset), |ch.at.vec|);
    hide Consume, ReadVec, Iovecs, Unsent;
    assert ReadVec(p.data, ch.at.vec)[..res] == u[..res];
    TakeDrop(ch.acked, u, res);
  }

  /** Giving back the first `k` submitted blocks touches nobody's bytes and nobody else's blocks. */
  lemma ReleasedPrefix(p: Pool, pending: seq<nat>, send: seq<nat>, k: nat, others: multiset<nat>)
    requires Holds(p, (multiset(pending) + multiset(send)) + others) && k <= |send| && InRange(p.data, send)
    requires forall i :: i in send ==> i !in pending
    requires InRange(p.data, pending)
    ensures InRange(p.data, send[..k])
    ensures var r := ReleaseAll(p, send[..k]);
            && multiset(r.free) + (multiset(pending) + multiset(send[k..]))
               == multiset(p.free) + (multiset(pending) + multiset(send))
            && Holds(r, (multiset(pending) + multiset(send[k..])) + others)
            && (forall i :: 0 <= i < |p.data| && i !in send ==> r.data[i] == p.data[i])
            && InRange(r.data, pending) && Gather(r.data, pending) == Gather(p.data, pending)
  {
    var gone, left := send[..k], send[k..];
    assert send == gone + left;
    var rest := (multiset(pending) + multiset(left)) + others;
    assert multiset(gone) + rest == (multiset(pending) + multiset(send)) + others;
    ReleaseAllHolds(p, gone, rest);
    ReleaseAllEffect(p, gone);
    var r := ReleaseAll(p, gone);
    assert multiset(p.free + gone) + (multiset(pending) + multiset(left))
           == multiset(p.free) + (multiset(pending) + multiset(send));
    GatherFrame(p.data, r.data, pending);
  }

  lemma TakeDrop(a: seq<byte>, u: seq<byte>, n: nat)
    requires n <= |u|
    ensures (a + u[..n]) + u[n..] == a + u
  {
  }

  lemma {:induction false} ReadVecPrefix(data: seq<seq<byte>>, v: seq<Iovec>, n: nat)
    requires Readable(data, v) && n <= |v|
    ensures Readable(data, v[..n]) && ReadVec(data, v[..n]) <= ReadVec(data, v)
    decreases n
  {
    if n > 0 {
      ReadVecPrefix(data, v[1..], n - 1);
      assert v[..n][1..] == v[1..][..n - 1];
    }
  }

  lemma AssignKept(p: Pool, cap: nat, ch: Channel, busy: bool, others: multiset<nat>)
    requires Holds(p, Mine(ch) + others) && ChanOk(p, cap, ch)
    ensures Kept(p, cap, ch, AssignStep(p, ch, busy), others)
  {
    if ch.at.Ended? {
      var next := ch.(flag := false, closed := false, carried := ch.carried + ch.submitted, submitted := []);
      NothingAfter(next.carried);
      LoopTopKept(p, cap, next, busy, others);
    }
  }

  /** Every event on a channel keeps its invariant, its blocks' ownership, and everything that is not its own. */
  lemma StepKept(p: Pool, cap: nat, ch: Channel, e: Event, others: multiset<nat>)
    requires Holds(p, Mine(ch) + others) && ChanOk(p, cap, ch) && p.blockSize < U32 && Sane(e, p.blockSize)
    ensures Holds(p, Mine(ch)) && Apart(ch.send)
    ensures Kept(p, cap, ch, Step(p, cap, ch, e), others)
  {
    Indices(p, ch, others);
    match e
    case Append(_, _) => AppendKept(p, cap, ch, e, others);
    case Prepend(_, _) => PrependKept(p, cap, ch, e, others);
    case Submit(_, busy) => SubmitKept(p, cap, ch, busy, others);
    case Complete(_, res) => CompleteKept(p, cap, ch, res, others);
    case Continue(_, busy) =>
      if ch.at.InCallback? {
        LoopTopKept(p, cap, ch, busy, others);
      }
    case Close(_, busy) => NotifyKept(p, cap, ch.(closed := true), busy, others);
    case Drained(_, busy) =>
      if ch.closed {
        NotifyKept(p, cap, ch, busy, others);
      }
    case Assign(_, busy) => AssignKept(p, cap, ch, busy, others);
  }

  // ---------- The worker ----------

  ghost function Holdings(chans: seq<Channel>): (hs: seq<multiset<nat>>)
    ensures |hs| == |chans| && forall c :: 0 <= c < |chans| ==> hs[c] == Mine(chans[c])
  {
    seq(|chans|, c requires 0 <= c < |chans| => Mine(chans[c]))
  }

  /** All blocks held by channels. */
  ghost function Held(chans: seq<Channel>): multiset<nat> {
    Total(Holdings(chans))
  }

  lemma HeldUpdate(chans: seq<Channel>, c: nat, ch: Channel)
    requires c < |chans|
    ensures Held(chans[c := ch]) + Mine(chans[c]) == Held(chans) + Mine(ch)
    ensures Mine(chans[c]) <= Held(chans)
  {
    hide Mine, Total;
    assert Holdings(chans[c := ch]) == Holdings(chans)[c := Mine(ch)];
    TotalUpdate(Holdings(chans), c, Mine(ch));
  }

  /** Each block is in exactly one place, and every channel is as it should be. */
  ghost predicate Inv(w: Worker) {
    && PoolOk(w.pool) && w.pool.blockSize < U32
    && multiset(w.pool.free) + Held(w.chans) == All(|w.pool.data|)
    && (forall c :: 0 <= c < |w.chans| ==> ChanOk(w.pool, w.cap, w.chans[c]))
  }

  /** The blocks held by channels other than `c`. */
  ghost function Others(w: Worker, c: nat): multiset<nat>
    requires c < |w.chans|
  {
    Held(w.chans) - Mine(w.chans[c])
  }

  /** What channel `c` may assume about ownership. */
  lemma Share(w: Worker, c: nat)
    requires Inv(w) && c < |w.chans|
    ensures Held(w.chans) == Mine(w.chans[c]) + Others(w, c)
    ensures Holds(w.pool, Mine(w.chans[c]) + Others(w, c))
    ensures Holds(w.pool, Mine(w.chans[c])) && Apart(w.chans[c].send)
    ensures forall d :: 0 <= d < |w.chans| && d != c ==> Mine(w.chans[d]) <= Others(w, c)
  {
    hide ChanOk, Mine, Once, Total;
    OneShare(w.pool, Holdings(w.chans), c);
    Indices(w.pool, w.chans[c], Others(w, c));
  }

  ghost function Next(w: Worker, e: Event): Worker
    requires Inv(w)
  {
    if e.c >= |w.chans| then w
    else
      Share(w, e.c);
      var r := Step(w.pool, w.cap, w.chans[e.c], e);
      w.(pool := r.0, chans := w.chans[e.c := r.1])
  }

  /** Another channel's step leaves this one's blocks, bytes and outstanding `writev` untouched. */
  lemma BystanderKept(p: Pool, p': Pool, cap: nat, ch: Channel)
    requires ChanOk(p, cap, ch) && |p'.data| == |p.data|
    requires forall i :: i in Mine(ch) ==> i < |p.data| && p'.data[i] == p.data[i]
    ensures ChanOk(p', cap, ch)
  {
    assert forall i :: i in ch.send ==> i in Mine(ch) by { assert forall i :: i in ch.send ==> i in multiset(ch.send); }
    assert forall i :: i in ch.pending ==> i in Mine(ch) by {
      assert forall i :: i in ch.pending ==> i in multiset(ch.pending);
    }
    GatherFrame(p.data, p'.data, ch.pending);
    SendFrame(p.data, p'.data, ch.send, ch.offset);
  }

  /** Every event keeps the worker's invariant. */
  lemma NextInv(w: Worker, e: Event)
    requires Inv(w) && Sane(e, w.pool.blockSize)
    ensures Inv(Next(w, e)) && Next(w, e).pool.blockSize == w.pool.blockSize
  {
    if e.c < |w.chans| {
      var c, ch, others := e.c, w.chans[e.c], Others(w, e.c);
      Share(w, c);
      StepKept(w.pool, w.cap, ch, e, others);
      var r := Step(w.pool, w.cap, ch, e);
      var w' := Next(w, e);
      HeldUpdate(w.chans, c, r.1);
      assert multiset(w'.pool.free) + Held(w'.chans) == All(|w.pool.data|) by {
        Exchange(multiset(r.0.free), Mine(r.1), multiset(w.pool.free), Mine(ch), Held(w'.chans), Held(w.chans));
      }
      forall d | 0 <= d < |w.chans| ensures ChanOk(w'.pool, w.cap, w'.chans[d]) {
        if d != c {
          forall i | i in Mine(w.chans[d]) ensures i < |w.pool.data| && r.0.data[i] == w.pool.data[i] {
            NotElsewhere(w.pool, Mine(ch), others, i);
          }
          BystanderKept(w.pool, r.0, w.cap, w.chans[d]);
        }
      }
    }
  }

  // ---------- Runs ----------

  ghost predicate AllSane(es: seq<Event>, size: nat) {
    forall i :: 0 <= i < |es| ==> Sane(es[i], size)
  }

  ghost function Exec(w: Worker, es: seq<Event>): (r: Worker)
    requires Inv(w) && AllSane(es, w.pool.blockSize)
    ensures Inv(r)
    decreases |es|
  {
    if es == [] then w
    else
      NextInv(w, es[0]);
      Exec(Next(w, es[0]), es[1..])
  }

  /** A worker as its thread sets it up: a full pool and `k` idle channels. */
  ghost function Start(n: nat, size: nat, cap: nat, k: nat): Worker {
    Worker(FullPool(n, size), cap, seq(k, i => NewChannel()))
  }

  lemma StartInv(n: nat, size: nat, cap: nat, k: nat)
    requires 0 < size < U32
    ensures Inv(Start(n, size, cap, k))
  {
    var w := Start(n, size, cap, k);
    assert forall c :: 0 <= c < k ==> w.chans[c] == NewChannel();
    assert Mine(NewChannel()) == multiset{};
    TotalNone(Holdings(w.chans));
    AllOnce(n);
    assert multiset(w.pool.free) + multiset{} == All(n);
    assert ChanOk(w.pool, cap, NewChannel());
  }

  /**
    In every run of a worker, after any number of events:
    each block is in exactly one place and free blocks are empty;
    on every channel, acknowledged bytes followed by the bytes left in the send ring are the drafts submitted, in order,
    and the pending blocks hold the current draft;
    a parked loop has nothing to send and no note, and a suspended loop with something to send has its `writev`
    outstanding.
   */
  lemma EveryRun(n: nat, size: nat, cap: nat, k: nat, es: seq<Event>)
    requires 0 < size < U32 && AllSane(es, size)
    ensures Inv(Start(n, size, cap, k))
    ensures var w := Exec(Start(n, size, cap, k), es);
            && (forall i: nat :: (multiset(w.pool.free) + Held(w.chans))[i] == if i < |w.pool.data| then 1 else 0)
            && (forall i :: i in w.pool.free ==> i < |w.pool.data| && w.pool.data[i] == [])
            && forall c :: 0 <= c < |w.chans| ==>
                 var ch := w.chans[c];
                 && Sound(w.pool, ch) && InRange(w.pool.data, ch.pending)
                 && ch.acked + Unsent(w.pool.data, ch.send, ch.offset) == ch.carried + ch.submitted
                 && Gather(w.pool.data, ch.pending) == ch.draft
                 && (ch.at.Parked? ==> ch.send == [] && !ch.flag)
                 && (ch.send != [] && !ch.at.InCallback? && !ch.at.Ended? ==> ch.at.Writing?)
                 && (ch.at.Writing? ==> ch.send != [])
  {
    StartInv(n, size, cap, k);
    var w := Exec(Start(n, size, cap, k), es);
    AllCounts(|w.pool.data|);
    hide Exec;
    forall i: nat ensures (multiset(w.pool.free) + Held(w.chans))[i] == if i < |w.pool.data| then 1 else 0 {
      assert All(|w.pool.data|)[i] == if i < |w.pool.data| then 1 else 0;
    }
    forall c | 0 <= c < |w.chans|
      ensures ChanOk(w.pool, w.cap, w.chans[c])
    {
    }
  }

  // ---------- In-flight stability ----------

  function VecLen(v: seq<Iovec>): nat {
    if v == [] then 0 else v[0].len + VecLen(v[1..])
  }

  lemma {:induction false} ReadVecLen(data: seq<seq<byte>>, v: seq<Iovec>)
    requires Readable(data, v)
    ensures |ReadVec(data, v)| == VecLen(v)
    decreases |v|
  {
    if v != [] {
      ReadVecLen(data, v[1..]);
    }
  }

  /** The bytes behind an outstanding `writev` are a fixed stretch of what was submitted. */
  lemma InFlightBytes(p: Pool, cap: nat, ch: Channel)
    requires ChanOk(p, cap, ch) && ch.at.Writing?
    ensures Readable(p.data, ch.at.vec)
    ensures |ch.acked| + VecLen(ch.at.vec) <= |ch.carried + ch.submitted|
    ensures ReadVec(p.data, ch.at.vec) == (ch.carried + ch.submitted)[|ch.acked|..|ch.acked| + VecLen(ch.at.vec)]
  {
    var v, n := Iovecs(p.data, ch.send, ch.offset), |ch.at.vec|;
    PeekIsUnsent(p.data, ch.send, ch.offset);
    ReadVecPrefix(p.data, v, n);
    ReadVecLen(p.data, v[..n]);
    var u := Unsent(p.data, ch.send, ch.offset);
    assert (ch.acked + u)[|ch.acked|..|ch.acked| + VecLen(v[..n])] == u[..VecLen(v[..n])];
  }

  ghost predicate Completes(e: Event, d: nat) {
    e.Complete? && e.c == d
  }

  ghost predicate SameWrite(ch: Channel, ch': Channel) {
    && ch'.at == ch.at && ch'.acked == ch.acked && ch'.carried == ch.carried
    && ch.submitted <= ch'.submitted && ch.send <= ch'.send && ch'.offset == ch.offset
  }

  lemma WriterStep(p: Pool, cap: nat, ch: Channel, e: Event)
    requires Sound(p, ch) && Holds(p, multiset(ch.pending) + multiset(ch.send)) && |ch.pending| <= cap && Apart(ch.send)
    requires ch.at.Writing? && !e.Complete?
    ensures SameWrite(ch, Step(p, cap, ch, e).1)
  {
    HoldsPart(p, multiset(ch.pending), multiset(ch.pending) + multiset(ch.send));
    hide AppendSpec, PrependSpec, Holds, Sound;
    match e {
      case Append(_, _) =>
      case Prepend(_, _) =>
      case Submit(_, _) =>
      case Complete(_, _) =>
      case Continue(_, _) =>
      case Close(_, _) =>
      case Drained(_, _) =>
      case Assign(_, _) =>
    }
  }

  /** While channel `d` has a `writev` outstanding, no event other than its completion moves it or edits its record. */
  lemma WriterUndisturbed(w: Worker, e: Event, d: nat)
    requires Inv(w) && d < |w.chans| && w.chans[d].at.Writing? && !Completes(e, d)
    ensures |Next(w, e).chans| == |w.chans| && SameWrite(w.chans[d], Next(w, e).chans[d])
  {
    if e.c == d {
      hide Step, Inv, Holds, Sound;
      Share(w, d);
      InvChan(w, d);
      WriterStep(w.pool, w.cap, w.chans[d], e);
    }
  }

  /** From submission to completion the kernel reads the same bytes, whatever anybody does in between. */
  lemma {:induction false} WriteIsStable(w: Worker, es: seq<Event>, d: nat)
    requires Inv(w) && AllSane(es, w.pool.blockSize) && d < |w.chans| && w.chans[d].at.Writing?
    requires forall i :: 0 <= i < |es| ==> !Completes(es[i], d)
    ensures var ch, r := w.chans[d], Exec(w, es);
            && d < |r.chans| && r.chans[d].at == ch.at
            && ch.send <= r.chans[d].send && r.chans[d].offset == ch.offset
            && Readable(w.pool.data, ch.at.vec) && Readable(r.pool.data, ch.at.vec)
            && ReadVec(r.pool.data, ch.at.vec) == ReadVec(w.pool.data, ch.at.vec)
    decreases |es|
  {
    hide Inv, Next, ChanOk, ReadVec, Readable;
    var ch := w.chans[d];
    InvChan(w, d);
    if es == [] {
      InFlightBytes(w.pool, w.cap, ch);
    } else {
      var w1 := Next(w, es[0]);
      StableStep(w, es[0], d);
      NextInv(w, es[0]);
      WriteIsStable(w1, es[1..], d);
    }
  }

  lemma InvChan(w: Worker, c: nat)
    requires Inv(w) && c < |w.chans|
    ensures ChanOk(w.pool, w.cap, w.chans[c]) && |w.chans[c].pending| <= w.cap && Sound(w.pool, w.chans[c])
    ensures w.chans[c].at.Writing? ==> |w.chans[c].at.vec| <= |w.chans[c].send|
  {
    assert ChanOk(w.pool, w.cap, w.chans[c]);
  }

  lemma StableStep(w: Worker, e: Event, d: nat)
    requires Inv(w) && Sane(e, w.pool.blockSize) && d < |w.chans| && w.chans[d].at.Writing? && !Completes(e, d)
    ensures var ch, w1 := w.chans[d], Next(w, e);
            && |w1.chans| == |w.chans| && SameWrite(ch, w1.chans[d]) && |ch.at.vec| <= |ch.send|
            && Readable(w.pool.data, ch.at.vec) && Readable(w1.pool.data, ch.at.vec)
            && ReadVec(w1.pool.data, ch.at.vec) == ReadVec(w.pool.data, ch.at.vec)
  {
    hide Inv, Next, ChanOk, ReadVec, Readable, VecLen;
    var ch, w1 := w.chans[d], Next(w, e);
    WriterUndisturbed(w, e, d);
    NextInv(w, e);
    InvChan(w, d);
    InvChan(w1, d);
    InFlightBytes(w.pool, w.cap, ch);
    InFlightBytes(w1.pool, w1.cap, w1.chans[d]);
    SameStretch(ch, w1.chans[d]);
  }

  lemma SameStretch(ch: Channel, ch': Channel)
    requires ch.at.Writing? && ch'.at == ch.at && ch'.acked == ch.acked && ch'.carried == ch.carried
    requires ch.submitted <= ch'.submitted
    requires |ch.acked| + VecLen(ch.at.vec) <= |ch.carried + ch.submitted|
    ensures (ch'.carried + ch'.submitted)[|ch.acked|..|ch.acked| + VecLen(ch.at.vec)]
            == (ch.carried + ch.submitted)[|ch.acked|..|ch.acked| + VecLen(ch.at.vec)]
  {
    assert ch.carried + ch.submitted <= ch'.carried + ch'.submitted;
  }
}
