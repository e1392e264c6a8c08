/**
  A run of the echo server that sends one client's bytes to the next: a write fails and ends
  the write loop, bytes already on their way are delivered and echoed into the write buffer
  all the same, and `assign` does not clear it.
 */
module EchoRuns {
  import opened Bits
  import opened Blocks
  import opened WriteSpec
  import opened ReadSpec
  import E = Echo
  import T = TcpWorker
  import R = Receiver
  import opened TcpDrain
  import opened TcpRuns
  import opened TcpReuse

  /** Blocks of `x` can pass through both sides of a worker. */
  ghost predicate Fits(e: E.Echo, x: seq<byte>) {
    0 < |x| <= e.w.pool.blockSize && |x| <= e.s.ring.blockSize
  }

  /** Channel `c` is between two connections, both its sides are empty, and there is room for a block. */
  ghost predicate Ready(e: E.Echo, c: nat) {
    && E.Inv(e) && c < |e.heads| && e.heads[c] == 0
    && Vacant(e.w, c) && e.w.pool.free != [] && e.w.cap > 0
    && e.s.readers[c] == R.Reader([], 0, [], []) && e.s.ring.free != []
  }

  lemma StartIsReady(n: nat, size: nat, cap: nat, m: nat, block: nat, k: nat, c: nat)
    requires 0 < size < U32 && 0 < block < U32 && 0 < m < U32 && 0 < n && 0 < cap && c < k
    ensures Ready(E.Start(n, size, cap, m, block, k), c)
  {
    E.StartInv(n, size, cap, m, block, k);
    StartsVacant(n, size, cap, k, c);
    hide E.Inv, Vacant;
  }

  lemma Unrolled(e: E.Echo, evs: seq<E.Event>)
    requires E.Inv(e) && evs != []
    ensures E.Inv(E.Next(e, evs[0])) && |E.Next(e, evs[0]).heads| == |e.heads|
    ensures E.Exec(e, evs) == if |evs| == 1 then E.Next(e, evs[0]) else E.Exec(E.Next(e, evs[0]), evs[1..])
  {
    hide E.Inv, E.Next;
    E.NextInv(e, evs[0]);
  }

  // ---------- Steps ----------

  /** The read queue of channel `c` is empty and the kernel has a block to fill. */
  ghost predicate Listening(e: E.Echo, c: nat, head: nat) {
    && E.Inv(e) && c < |e.heads| && e.heads[c] == head <= 1
    && e.s.readers[c].queue == [] && e.s.readers[c].offset == 0 && e.s.ring.free != []
  }

  /** The read queue of channel `c` holds one block, with `x` in it. */
  ghost predicate Delivered(e: E.Echo, c: nat, head: nat, b: nat, x: seq<byte>) {
    && E.Inv(e) && c < |e.heads| && e.heads[c] == head <= 1
    && b < |e.s.ring.data| && e.s.ring.data[b] == x != []
    && e.s.readers[c].queue == [b] && e.s.readers[c].offset == 0
  }

  lemma Arrives(e: E.Echo, c: nat, head: nat, x: seq<byte>)
    requires Listening(e, c, head) && 0 < |x| <= e.s.ring.blockSize
    ensures var e' := E.Next(e, E.Deliver(c, 0, x));
            Delivered(e', c, head, e.s.ring.free[0], x) && e'.w == e.w && e'.s.ring.blockSize == e.s.ring.blockSize
  {
    hide T.Inv, T.Next, R.Inv, R.Next, E.ReadStep;
    E.NextInv(e, E.Deliver(c, 0, x));
    Receives(e.s, c, x);
    E.DeliverFrame(e.s, c, 0, x);
  }

  lemma Receives(s: R.Receiver, c: nat, x: seq<byte>)
    requires R.Inv(s) && c < |s.readers| && s.readers[c].queue == [] && s.readers[c].offset == 0
    requires s.ring.free != [] && 0 < |x| <= s.ring.blockSize
    ensures var b, s' := s.ring.free[0], R.Next(s, R.Deliver(c, 0, x));
            && |s'.readers| == |s.readers| && b < |s'.ring.data| && s'.ring.data[b] == x
            && s'.readers[c].queue == [b] && s'.readers[c].offset == 0
  {
    assert R.ReaderOk(s.ring, s.readers[c]);
    assert s.ring.free[0] in s.ring.free;
    hide R.Inv, R.ReaderOk, Without;
    assert [] + [s.ring.free[0]] == [s.ring.free[0]];
  }

  lemma PeeksOne(e: E.Echo, c: nat, head: nat, b: nat, x: seq<byte>)
    requires Delivered(e, c, head, b, x)
    ensures E.Peeked(e, c) == [Iovec(b, 0, |x|)]
  {
    var d := e.s.ring.data;
    WholeBlock(d, b);
    PeekStep(d, [b], 0, |x|);
    assert [b][1..] == [];
    assert PeekVec(d, [], 0, 0) == [];
    E.BlindIff(head, 1);
  }

  lemma WholeBlock(data: seq<seq<byte>>, b: nat)
    requires b < |data|
    ensures HeadOk(data, [b], 0) && Unsent(data, [b], 0) == data[b]
  {
    UnsentIsSuffix(data, [b], 0);
    assert Gather(data, [b]) == data[b] by { assert [b][1..] == [] && data[b] + [] == data[b]; }
  }

  lemma AppendsOne(w: T.Worker, c: nat, data: seq<seq<byte>>, b: nat)
    requires T.Inv(w) && c < |w.chans| && w.chans[c].pending == [] && w.pool.free != [] && w.cap > 0
    requires b < |data| && data[b] != [] && |data[b]| <= w.pool.blockSize
    ensures Readable(data, [Iovec(b, 0, |data[b]|)]) && E.Small([Iovec(b, 0, |data[b]|)])
    ensures E.AppendAll(w, c, data, [Iovec(b, 0, |data[b]|)]) == (T.Next(w, T.Append(c, data[b])), data[b])
  {
    hide T.Next, T.Inv, E.Accepts, E.AppendAll;
    var v, x := [Iovec(b, 0, |data[b]|)], data[b];
    SmallBlocks(w);
    AcceptsOne(w, c, x);
    assert x[0..|x|] == x && x + [] == x;
    FirstFragment(w, c, data, v[0]);
  }

  lemma FirstFragment(w: T.Worker, c: nat, data: seq<seq<byte>>, v: Iovec)
    requires T.Inv(w) && c < |w.chans| && v.block < |data| && v.at + v.len <= |data[v.block]| && v.len < U32
    requires E.Accepts(w, c, ReadOne(data, v))
    ensures Readable(data, [v]) && E.Small([v])
    ensures var bytes := ReadOne(data, v);
            E.AppendAll(w, c, data, [v]) == (T.Next(w, T.Append(c, bytes)), bytes + [])
  {
    hide T.Next, T.Inv, E.Accepts;
    assert |ReadOne(data, v)| < U32 && [v][0] == v;
    var w' := T.Next(w, T.Append(c, ReadOne(data, v)));
    T.NextInv(w, T.Append(c, ReadOne(data, v)));
    SameLength(w, c, ReadOne(data, v));
    assert [v][1..] == [];
    assert E.AppendAll(w', c, data, []) == (w', []);
  }

  lemma AcceptsOne(w: T.Worker, c: nat, x: seq<byte>)
    requires T.Inv(w) && c < |w.chans| && w.chans[c].pending == [] && w.pool.free != [] && w.cap > 0
    requires |x| <= w.pool.blockSize
    ensures E.Accepts(w, c, x)
  {
    OneBlock(w.pool, w.cap, x);
    hide AppendSpec;
  }

  lemma SameLength(w: T.Worker, c: nat, x: seq<byte>)
    requires T.Inv(w) && c < |w.chans|
    ensures |T.Next(w, T.Append(c, x)).chans| == |w.chans|
  {
  }

  /** All of the only block consumed: it goes back to the kernel. */
  lemma DropsBlock(s: R.Receiver, c: nat, b: nat, x: seq<byte>)
    requires R.Inv(s) && c < |s.readers| && b < |s.ring.data| && s.ring.data[b] == x != []
    requires s.readers[c].queue == [b] && s.readers[c].offset == 0
    ensures var s' := R.Next(s, R.Drop(c, |x|));
            && |s'.readers| == |s.readers| && s'.ring == Release(s.ring, b)
            && s'.readers[c].queue == [] && s'.readers[c].offset == 0
  {
    var u := Sending(s.ring, [b], 0);
    assert R.ReaderOk(s.ring, s.readers[c]);
    WholeBlock(s.ring.data, b);
    assert Advance(u) == Sending(Release(s.ring, b), [], 0) by { assert [b][1..] == []; }
    hide R.Inv, Unsent, Advance, R.ReaderOk;
    ConsumeStep(u, |x|);
    ConsumeNothing(Advance(u));
    hide Consume;
  }

  /** The handler has passed the block on and given it back. */
  ghost predicate Handled(e: E.Echo, e': E.Echo, c: nat, head: nat, b: nat, x: seq<byte>) {
    && Delivered(e, c, head, b, x) && |x| < U32
    && var w := T.Next(e.w, T.Append(c, x));
       && T.Inv(w) && c < |w.chans| && e'.w == T.Next(w, T.Submit(c, false))
       && E.Inv(e') && |e'.heads| == |e.heads| && e'.heads[c] == head + 1
       && e'.s.ring == Release(e.s.ring, b)
       && e'.s.readers[c].queue == [] && e'.s.readers[c].offset == 0
  }

  lemma Handles(e: E.Echo, c: nat, head: nat, b: nat, x: seq<byte>)
    requires Delivered(e, c, head, b, x)
    requires e.w.chans[c].pending == [] && e.w.pool.free != [] && e.w.cap > 0 && |x| <= e.w.pool.blockSize
    ensures Handled(e, E.Next(e, E.OnRead(c, false)), c, head, b, x)
  {
    hide T.Inv, T.Next, R.Inv, R.Next, E.AppendAll, PeekVec, R.ReaderOk, E.Peeked;
    E.NextInv(e, E.OnRead(c, false));
    PeeksOne(e, c, head, b, x);
    AppendsOne(e.w, c, e.s.ring.data, b);
    Appends(e.w, c, x);
    SmallBlocks(e.w);
    DropsBlock(e.s, c, b, x);
  }

  // ---------- The run ----------

  /**
    Bytes echoed and a write that fails; further bytes echoed after it; the end of the read side; and a new connection.
   */
  ghost function FailedWrite(c: nat, x: seq<byte>): seq<E.Event> {
    [E.Assign(c, false), E.Deliver(c, 0, x), E.OnRead(c, false), E.Written(c, -1)]
  }

  ghost function LateDelivery(c: nat, y: seq<byte>): seq<E.Event> {
    [E.Deliver(c, 0, y), E.OnRead(c, false), E.ReadEnds(c), E.Assign(c, false)]
  }

  /** The write loop has ended, the read loop has not. */
  ghost predicate HalfOpen(e: E.Echo, c: nat) {
    && Listening(e, c, 1) && e.w.pool.free != [] && e.w.cap > 0
    && e.w.chans[c] == T.Channel([], [], 0, true, true, T.Ended, [], [], [], [])
  }

  lemma {:induction false} ExecConcat(e: E.Echo, a: seq<E.Event>, b: seq<E.Event>)
    requires E.Inv(e)
    ensures E.Exec(e, a + b) == E.Exec(E.Exec(e, a), b)
    decreases |a|
  {
    hide E.Inv, E.Next;
    if a == [] {
      assert a + b == b;
    } else {
      assert (a + b)[0] == a[0] && (a + b)[1..] == a[1..] + b;
      E.NextInv(e, a[0]);
      ExecConcat(E.Next(e, a[0]), a[1..], b);
    }
  }

  lemma WriteFails(e: E.Echo, c: nat, x: seq<byte>)
    requires Ready(e, c) && Fits(e, x)
    ensures var r := E.Exec(e, FailedWrite(c, x));
            HalfOpen(r, c) && r.w.pool.blockSize == e.w.pool.blockSize && r.s.ring.blockSize == e.s.ring.blockSize
  {
    var evs := FailedWrite(c, x);
    hide E.Exec, T.Inv, T.Next, R.Inv, R.Next, E.ReadStep;
    var e1 := E.Next(e, evs[0]);
    Unrolled(e, evs);
    Opens(e.w, c);
    var e2 := E.Next(e1, evs[1]);
    Arrives(e1, c, 0, x);
    Unrolled(e1, evs[1..]);
    hide E.Next;
    EchoAndFail(e2, c, e.s.ring.free[0], x);
    var e3 := E.Next(e2, evs[2]);
    Unrolled(e2, evs[2..]);
    Unrolled(e3, evs[3..]);
  }

  lemma EchoAndFail(e: E.Echo, c: nat, b: nat, x: seq<byte>)
    requires Delivered(e, c, 0, b, x) && |x| <= e.w.pool.blockSize && e.w.pool.free != [] && e.w.cap > 0
    requires e.w.chans[c] == T.Channel([], [], 0, false, false, T.Parked, [], [], [], [])
    ensures var e1 := E.Next(e, E.OnRead(c, false));
            && E.Inv(e1)
            && var e2 := E.Next(e1, E.Written(c, -1));
               && HalfOpen(e2, c)
               && e2.w.pool.blockSize == e.w.pool.blockSize && e2.s.ring.blockSize == e.s.ring.blockSize
  {
    hide T.Inv, T.Next, R.Inv, R.Next, E.ReadStep;
    var f := e.w.pool.free[0];
    var e1 := E.Next(e, E.OnRead(c, false));
    Handles(e, c, 0, b, x);
    FirstAppend(e.w, c, x);
    var w1 := T.Next(e.w, T.Append(c, x));
    FirstSubmit(w1, c, f, x);
    E.NextInv(e1, E.Written(c, -1));
    Fails(e1.w, c, f, x);
  }

  lemma LateEcho(e: E.Echo, c: nat, b: nat, y: seq<byte>)
    requires Delivered(e, c, 1, b, y) && |y| <= e.w.pool.blockSize && e.w.pool.free != [] && e.w.cap > 0
    requires e.w.chans[c] == T.Channel([], [], 0, true, true, T.Ended, [], [], [], [])
    ensures var f, e1 := e.w.pool.free[0], E.Next(e, E.OnRead(c, false));
            && E.Inv(e1) && |e1.heads| == |e.heads| == |e1.w.chans|
            && f < |e1.w.pool.data| && e1.w.pool.data[f] == y
            && e1.w.chans[c] == T.Channel([], [f], 0, true, true, T.Ended, [], y, [], [])
  {
    hide T.Inv, T.Next, R.Inv, R.Next, E.ReadStep;
    Handles(e, c, 1, b, y);
    Appends(e.w, c, y);
    assert [] + y == y;
    LateSubmit(T.Next(e.w, T.Append(c, y)), c, e.w.pool.free[0], y);
  }

  /** The new connection has received nothing, and yet it is sending the old connection's bytes. */
  ghost predicate Stale(r: E.Echo, c: nat, y: seq<byte>) {
    && E.Inv(r) && c < |r.heads|
    && r.s.readers[c].received == [] && E.Stages(r, c) == y && r.w.chans[c].at.Writing?
  }

  lemma Reopens(e: E.Echo, c: nat, f: nat, x: seq<byte>)
    requires E.Inv(e) && c < |e.heads| && f < |e.w.pool.data| && e.w.pool.data[f] == x
    requires |e.w.chans| == |e.heads| && e.w.chans[c] == T.Channel([], [f], 0, true, true, T.Ended, [], x, [], [])
    ensures var e1 := E.Next(e, E.ReadEnds(c));
            && E.Inv(e1)
            && var e2 := E.Next(e1, E.Assign(c, false));
               Stale(e2, c, x)
  {
    hide T.Inv, R.Inv, T.Next, R.Next, E.Stages, R.ReaderOk, Unsent;
    var e1 := E.Next(e, E.ReadEnds(c));
    E.NextInv(e, E.ReadEnds(c));
    E.ResetFrame(e.s, c);
    var e2 := E.Next(e1, E.Assign(c, false));
    E.NextInv(e1, E.Assign(c, false));
    Inherits(e1.w, c, f, x);
    E.StagesAre(e2, c);
    assert |UnsentOf(R.Unread(e2.s.ring, e2.s.readers[c]))| == 0;
    assert (x + []) + [] == x && x + [] == x;
  }

  lemma Restarts(e: E.Echo, c: nat, y: seq<byte>)
    requires HalfOpen(e, c) && Fits(e, y)
    ensures Stale(E.Exec(e, LateDelivery(c, y)), c, y)
  {
    var evs := LateDelivery(c, y);
    hide E.Exec, E.Stages, T.Inv, R.Inv, R.Next;
    var e1 := E.Next(e, evs[0]);
    Arrives(e, c, 1, y);
    Unrolled(e, evs);
    hide E.Next, Delivered, E.Inv;
    LateEcho(e1, c, e.s.ring.free[0], y);
    var e2 := E.Next(e1, evs[1]);
    Unrolled(e1, evs[1..]);
    Reopens(e2, c, e1.w.pool.free[0], y);
    Unrolled(e2, evs[2..]);
    Unrolled(E.Next(e2, evs[2]), evs[3..]);
  }

  lemma StaleEcho(e: E.Echo, c: nat, x: seq<byte>, y: seq<byte>)
    requires Ready(e, c) && Fits(e, x) && Fits(e, y)
    ensures Stale(E.Exec(e, FailedWrite(c, x) + LateDelivery(c, y)), c, y)
  {
    hide E.Exec, Stale, E.Inv, HalfOpen, Vacant, FailedWrite, LateDelivery;
    WriteFails(e, c, x);
    ExecConcat(e, FailedWrite(c, x), LateDelivery(c, y));
    Restarts(E.Exec(e, FailedWrite(c, x)), c, y);
  }
}
