/**
  What the read path does, on values.  A read queue is a queue of blocks with a partly
  consumed head, so it shares `Sending`, `Unsent` and `Consume` with the send ring: here
  "unsent" means unread, and a consumed block goes back to the kernel.
 */
module ReadSpec {
  import opened Blocks
  import opened WriteSpec

  /** The fragments `peek(n)` reports: whole blocks from the head, the last one cut to size. */
  ghost function PeekVec(data: seq<seq<byte>>, queue: seq<nat>, offset: nat, n: nat): seq<Iovec>
    requires HeadOk(data, queue, offset)
    decreases |queue|
  {
    if n == 0 || queue == [] then []
    else
      var len := Min(|data[queue[0]]| - offset, n);
      [Iovec(queue[0], offset, len)] + PeekVec(data, queue[1..], 0, n - len)
  }

  /** The fragments concatenate to the first `n` unread bytes. */
  lemma {:induction false} PeekIsPrefix(data: seq<seq<byte>>, queue: seq<nat>, offset: nat, n: nat)
    requires HeadOk(data, queue, offset) && n <= |Unsent(data, queue, offset)|
    ensures var v := PeekVec(data, queue, offset, n);
            |v| <= |queue| && Readable(data, v) && ReadVec(data, v) == Unsent(data, queue, offset)[..n]
    decreases |queue|
  {
    if n != 0 {
      var rest := queue[1..];
      var len := Min(|data[queue[0]]| - offset, n);
      UnsentIsSuffix(data, rest, 0);
      assert Gather(data, rest)[0..] == Gather(data, rest);
      hide PeekVec, Gather, ReadVec, Readable;
      PeekStep(data, queue, offset, n);
      PeekIsPrefix(data, rest, 0, n - len);
      OneMoreFragment(data, queue, offset, n, PeekVec(data, rest, 0, n - len));
    }
  }

  lemma OneMoreFragment(data: seq<seq<byte>>, queue: seq<nat>, offset: nat, n: nat, later: seq<Iovec>)
    requires HeadOk(data, queue, offset) && queue != [] && n <= |data[queue[0]]| - offset + |Gather(data, queue[1..])|
    requires var len := Min(|data[queue[0]]| - offset, n);
             Readable(data, later) && ReadVec(data, later) == Gather(data, queue[1..])[..n - len]
    ensures var len := Min(|data[queue[0]]| - offset, n);
            var v := [Iovec(queue[0], offset, len)] + later;
            Readable(data, v) && ReadVec(data, v) == (data[queue[0]][offset..] + Gather(data, queue[1..]))[..n]
  {
    var first, more := data[queue[0]], Gather(data, queue[1..]);
    var len := Min(|first| - offset, n);
    var v := [Iovec(queue[0], offset, len)] + later;
    assert v[1..] == later;
    assert Readable(data, v);
    hide Gather, ReadVec;
    ReadVecFirst(data, v);
    PrefixParts(first, offset, len, more, n);
  }

  lemma PrefixParts(first: seq<byte>, offset: nat, len: nat, more: seq<byte>, n: nat)
    requires offset <= |first| && len == Min(|first| - offset, n) && n - len <= |more|
    ensures (first[offset..] + more)[..n] == first[offset..offset + len] + more[..n - len]
  {
  }

  lemma PeekStep(data: seq<seq<byte>>, queue: seq<nat>, offset: nat, n: nat)
    requires HeadOk(data, queue, offset) && n > 0 && queue != []
    ensures var len := Min(|data[queue[0]]| - offset, n);
            PeekVec(data, queue, offset, n) == [Iovec(queue[0], offset, len)] + PeekVec(data, queue[1..], 0, n - len)
  {
  }

  function HeadOffsetAt(k: nat, offset: nat): nat {
    if k == 0 then offset else 0
  }

  /** How far a peek has got: `done` is reported, `left` bytes are still wanted from `queue[k..]`. */
  ghost predicate Peeking(data: seq<seq<byte>>, queue: seq<nat>, offset: nat, n: nat, k: nat, left: nat,
                          done: seq<Iovec>) {
    && k == |done| <= |queue| && HeadOk(data, queue, offset)
    && HeadOk(data, queue[k..], HeadOffsetAt(k, offset))
    && done + PeekVec(data, queue[k..], HeadOffsetAt(k, offset), left) == PeekVec(data, queue, offset, n)
  }

  lemma PeekingStart(data: seq<seq<byte>>, queue: seq<nat>, offset: nat, n: nat)
    requires HeadOk(data, queue, offset)
    ensures Peeking(data, queue, offset, n, 0, n, [])
  {
    assert queue[0..] == queue;
    assert [] + PeekVec(data, queue, offset, n) == PeekVec(data, queue, offset, n);
  }

  lemma PeekingStep(data: seq<seq<byte>>, queue: seq<nat>, offset: nat, n: nat, k: nat, left: nat, done: seq<Iovec>)
    requires Peeking(data, queue, offset, n, k, left, done) && k < |queue| && left > 0 && InRange(data, queue)
    ensures HeadOffsetAt(k, offset) <= |data[queue[k]]|
    ensures var len := Min(|data[queue[k]]| - HeadOffsetAt(k, offset), left);
            Peeking(data, queue, offset, n, k + 1, left - len, done + [Iovec(queue[k], HeadOffsetAt(k, offset), len)])
  {
    var q, at := queue[k..], HeadOffsetAt(k, offset);
    var len := Min(|data[queue[k]]| - at, left);
    assert q[0] == queue[k] && q[1..] == queue[k + 1..];
    PeekStep(data, q, at, left);
    var v, more := Iovec(queue[k], at, len), PeekVec(data, queue[k + 1..], 0, left - len);
    hide PeekVec;
    assert done + ([v] + more) == (done + [v]) + more;
  }

  lemma PeekingDone(data: seq<seq<byte>>, queue: seq<nat>, offset: nat, n: nat, k: nat, left: nat, done: seq<Iovec>)
    requires Peeking(data, queue, offset, n, k, left, done) && (left == 0 || k == |queue|)
    ensures done == PeekVec(data, queue, offset, n)
  {
    assert PeekVec(data, queue[k..], HeadOffsetAt(k, offset), left) == [];
    assert done + [] == done;
  }

  // ---------- No queued block is empty ----------

  ghost predicate Filled(data: seq<seq<byte>>, queue: seq<nat>)
    requires InRange(data, queue)
  {
    forall k :: 0 <= k < |queue| ==> data[queue[k]] != []
  }

  lemma FilledDrains(s: Sending)
    requires SendOk(s) && Filled(s.pool.data, s.send)
    ensures Consume(s, |UnsentOf(s)|).send == []
  {
    ConsumeAllDrains(s);
  }

  lemma {:induction false} ConsumeFilled(s: Sending, n: nat)
    requires SendOk(s) && Filled(s.pool.data, s.send) && n <= |UnsentOf(s)|
    ensures SendOk(Consume(s, n)) && Filled(Consume(s, n).pool.data, Consume(s, n).send)
    decreases |s.send|
  {
    ConsumeBytes(s, n);
    if n > 0 {
      ConsumeStep(s, n);
      if n >= Remaining(s) {
        HeadApart(s.send);
        var a := Advance(s);
        forall k | 0 <= k < |a.send| ensures a.pool.data[a.send[k]] != [] {
          assert a.send[k] == s.send[k + 1] && a.send[k] in s.send[1..];
        }
        ConsumeFilled(a, n - Remaining(s));
      }
    }
  }

  // ---------- Delivery ----------

  /** A block the kernel filled joins the back of a read queue. */
  lemma DeliverBytes(p: Pool, queue: seq<nat>, offset: nat, idx: nat, bytes: seq<byte>)
    requires HeadOk(p.data, queue, offset) && idx < |p.data| && idx !in queue
    ensures var data' := p.data[idx := bytes];
            && HeadOk(data', queue + [idx], offset)
            && Unsent(data', queue + [idx], offset) == Unsent(p.data, queue, offset) + bytes
  {
    var data' := p.data[idx := bytes];
    GatherFrame(p.data, data', queue);
    UnsentIsSuffix(p.data, queue, offset);
    UnsentIsSuffix(data', queue, offset);
    UnsentConcat(data', queue, offset, [idx]);
    assert Gather(data', [idx]) == bytes + [];
    NothingAfter(bytes);
  }
}
