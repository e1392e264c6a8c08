/**
  `WriteBufBase`: the pending list of one channel, a ring of block numbers with 64-bit
  counters over a pool that other channels use too.
 */
module WriteBuffer {
  import opened Bits
  import opened Ring
  import opened Blocks
  import opened BufferPool
  import opened WriteSpec
  import opened AppendLoop
  import opened PrependLoop

  class WriteBufBase {
    const pool: BufPool
    const capacity: nat
    const pendingBufs: array<nat>
    var pendingHead: nat
    var pendingTail: nat
    ghost var pending: seq<nat>  // the pending blocks, first to last

    ghost predicate Shape()
      reads this, pendingBufs
    {
      && IsPow2(capacity) && capacity < I32_LIMIT
      && pendingBufs.Length == capacity
      && pendingBufs != pool.dataSize && pendingBufs != pool.freeIdxQueue
      && RingOk(capacity, pendingHead, pendingTail, U64)
      && pending == Live(pendingBufs[..], pendingHead, pendingTail, U64)
    }

    ghost predicate Valid()
      reads this, pendingBufs, pool, pool.bufs, pool.dataSize, pool.freeIdxQueue
    {
      Shape() && pool.Valid() && Holds(pool.view, multiset(pending))
    }

    constructor (pool: BufPool, capacity: nat)
      requires pool.Valid() && capacity > 0 && And(capacity, capacity - 1) == 0 && capacity < I32_LIMIT
      ensures Valid() && pending == [] && this.pool == pool && this.capacity == capacity && fresh(pendingBufs)
    {
      PowerOfTwoTest(capacity);
      EmptyRing(capacity, 0, U64);
      this.pool := pool;
      this.capacity := capacity;
      pendingBufs := new nat[capacity];
      pendingHead, pendingTail := 0, 0;
      pending := [];
      new;
      assert multiset(pool.view.free) + multiset([]) == multiset(pool.view.free);
    }

    lemma Bounds()
      requires Valid()
      ensures |pending| <= capacity && pool.view.blockSize == pool.bufSize && |pool.view.data| == pool.bufNum
      ensures pendingTail < U64 && pendingHead < U64 && Sub(pendingTail, pendingHead, U64) == |pending|
    {
    }

    lemma ValidPool()
      requires Valid()
      ensures pool.Valid() && PoolOk(pool.view) && Holds(pool.view, multiset(pending))
    {
    }

    /** `pending_bufs_[pending_tail_++ & mask_] = idx` */
    method PushPending(idx: nat)
      requires Shape() && |pending| < capacity
      modifies this`pendingTail, this`pending, pendingBufs
      ensures Shape() && pending == old(pending) + [idx]
    {
      ghost var ring := pendingBufs[..];
      PushBack(ring, pendingHead, pendingTail, U64, idx);
      ghost var slot := pendingTail % capacity;
      pendingBufs[SlotOf(pendingTail, capacity)] := idx;
      pendingTail := Inc(pendingTail, U64);
      pending := pending + [idx];
      assert pendingBufs[..] == ring[slot := idx];
    }

    /** The block at the back of the list, `pending_bufs_[(pending_tail_ - 1) & mask_]`. */
    method LastPending() returns (idx: nat)
      requires Shape() && pending != []
      ensures idx == Last(pending)
    {
      PopBack(pendingBufs[..], pendingHead, pendingTail, U64);
      idx := pendingBufs[SlotOf(Sub(pendingTail, 1, U64), capacity)];
    }

    /** `std::copy` to the end of a held block, then `set_data_size`. */
    method PutBytes(idx: nat, chunk: seq<byte>)
      requires pool.Valid() && idx < pool.bufNum && idx !in pool.view.free
      requires |pool.view.data[idx]| + |chunk| <= pool.bufSize
      modifies pool`view, pool.bufs, pool.dataSize
      ensures pool.Valid()
      ensures pool.view == old(pool.view).(data := old(pool.view).data[idx := old(pool.view).data[idx] + chunk])
    {
      ghost var p := pool.view;
      pool.SizeOfView(idx);
      var at := pool.dataSize[idx];
      pool.CopyTo(idx, at, chunk);
      pool.SetDataSize(idx, at + |chunk|);
      ghost var base := pool.BufAddr(idx);
      assert pool.bufs[base..base + at + |chunk|] == p.data[idx] + chunk by {
        assert pool.bufs[base..base + at + |chunk|]
               == pool.bufs[base..base + at] + pool.bufs[base + at..base + at + |chunk|];
      }
    }

    /** A free block joins the back of the pending list. */
    method TakeBlock() returns (ok: bool)
      requires Valid() && |pending| < capacity
      modifies this`pendingTail, this`pending, pendingBufs, pool
      ensures Valid() && ok == (old(pool.view.free) != [])
      ensures !ok ==> pool.view == old(pool.view) && pending == old(pending) && pendingTail == old(pendingTail)
      ensures ok ==> && pool.view == old(pool.view).(free := old(pool.view.free)[1..])
                     && pending == old(pending) + [old(pool.view.free)[0]]
    {
      ghost var p, pend := pool.view, pending;
      var idx := pool.Acquire();
      if idx == INVALID_IDX {
        return false;
      }
      AcquireHolds(p, multiset(pend));
      assert multiset(pend + [idx]) == multiset{idx} + multiset(pend);
      PushPending(idx);
      return true;
    }

    /** Copies as much of `rest` as the last pending block takes. */
    method FillLast(rest: seq<byte>) returns (left: seq<byte>)
      requires Valid() && pending != []
      modifies pool`view, pool.bufs, pool.dataSize
      ensures Valid() && Last(pending) < pool.bufNum
      ensures var last, data := Last(pending), old(pool.view.data);
              var k := Min(pool.bufSize - |data[last]|, |rest|);
              && left == rest[k..]
              && pool.view == old(pool.view).(data := data[last := data[last] + rest[..k]])
    {
      ghost var p, pend := pool.view, pending;
      HoldsIndices(p, pend);
      assert Last(pend) in pend;
      var last := LastPending();
      pool.SizeOfView(last);
      var writable := pool.bufSize - pool.dataSize[last];
      var toCopy := Min(writable, |rest|);
      left := rest[toCopy..];
      if toCopy > 0 {
        PutBytes(last, rest[..toCopy]);
      } else {
        assert rest[..0] == [] && p.data[last] + [] == p.data[last];
        assert p.data[last := p.data[last]] == p.data;
      }
      assert pool.view.free == p.free;
    }

    /** `buf_pool_->release(pending_bufs_[--pending_tail_ & mask_])` */
    method ReleaseLast()
      requires Valid() && pending != []
      modifies this`pendingTail, this`pending, pool, pool.dataSize, pool.freeIdxQueue
      ensures Valid() && Last(old(pending)) < pool.bufNum
      ensures pendingTail == Sub(old(pendingTail), 1, U64)
      ensures pending == old(pending)[..|old(pending)| - 1]
      ensures pool.view == Release(old(pool.view), Last(old(pending)))
    {
      ghost var p, pend := pool.view, pending;
      PopBack(pendingBufs[..], pendingHead, pendingTail, U64);
      pendingTail := Sub(pendingTail, 1, U64);
      var idx := pendingBufs[SlotOf(pendingTail, capacity)];
      ghost var init := pend[..|pend| - 1];
      pending := init;
      assert pend == init + [idx];
      assert multiset(pend) == multiset{idx} + multiset(init);
      ReleaseHolds(p, idx, multiset(init));
      HoldsPart(p, multiset{idx}, multiset(pend));
      pool.Release(idx);
    }

    /** The two identical rollback exits of `append`. */
    method Rollback(originalTail: nat, wasEmpty: bool, originalTailSize: nat, ghost pend0: seq<nat>)
      requires Valid() && originalTail < U64
      requires pend0 <= pending && Sub(originalTail, pendingHead, U64) == |pend0| && (wasEmpty <==> pend0 == [])
      requires !wasEmpty ==> Last(pend0) < pool.bufNum && originalTailSize <= |pool.view.data[Last(pend0)]|
      modifies this`pendingTail, this`pending, pool, pool.dataSize, pool.freeIdxQueue
      ensures Valid() && pending == pend0
      ensures pool.view.free == old(pool.view.free) + Reverse(old(pending)[|pend0|..])
      ensures CutBack(old(pool.view.data), pool.view.data, old(pending)[|pend0|..], pend0, originalTailSize)
    {
      ghost var pend, p0 := pending, pool.view;
      HoldsIndices(p0, pend);
      hide *;
      if !wasEmpty {
        CutLast(originalTail, originalTailSize, pend0);
      }
      ghost var p1 := pool.view;
      ReleaseDownTo(originalTail, |pend0|);
      assert pend[..|pend0|] == pend0;
      UndoneIsCutBack(p0, p1, pool.view, pend, pend0, originalTailSize);
    }

    method ReleaseDownTo(originalTail: nat, ghost n: nat)
      requires Valid() && originalTail < U64
      requires n <= |pending| && Sub(originalTail, pendingHead, U64) == n
      modifies this`pendingTail, this`pending, pool, pool.dataSize, pool.freeIdxQueue
      ensures Valid() && pending == old(pending)[..n]
      ensures Undoing(old(pool.view), pool.view, old(pending)[n..])
    {
      ghost var pend, p1, gone := pending, pool.view, [];
      assert p1.free + [] == p1.free;
      while pendingTail != originalTail
        invariant Valid() && n <= |pending| && pending + gone == pend
        invariant Undoing(p1, pool.view, gone)
        decreases |pending|
      {
        ghost var p, last := pool.view, Last(pending);
        LastSplits(pending, gone);
        ReleaseLast();
        UndoStep(p1, p, last, gone);
        gone := [last] + gone;
      }
      assert |pending| == n;
    }

    method CutLast(originalTail: nat, originalTailSize: nat, ghost pend0: seq<nat>)
      requires Valid() && originalTail < U64
      requires pend0 != [] && pend0 <= pending && Sub(originalTail, pendingHead, U64) == |pend0|
      requires Last(pend0) < pool.bufNum && originalTailSize <= |pool.view.data[Last(pend0)]|
      modifies pool`view, pool.dataSize
      ensures Valid()
      ensures pool.view
              == old(pool.view).(data :=
                   old(pool.view).data[Last(pend0) := old(pool.view).data[Last(pend0)][..originalTailSize]])
    {
      ghost var p, pend := pool.view, pending;
      HoldsIndices(p, pend);
      CutAt(originalTail, |pend0|);
      var idx := pendingBufs[SlotOf(Sub(originalTail, 1, U64), capacity)];
      assert idx == pend[|pend0| - 1] == Last(pend0) && idx in pend;
      pool.SizeOfView(idx);
      ghost var base := pool.BufAddr(idx);
      assert pool.bufs[base..base + originalTailSize] == p.data[idx][..originalTailSize];
      pool.SetDataSize(idx, originalTailSize);
      assert pool.view == p.(data := p.data[idx := p.data[idx][..originalTailSize]]);
    }

    /** The counter `t` that stood `n` places after the head marks the end of the first `n` pending blocks. */
    lemma CutAt(t: nat, n: nat)
      requires Shape() && t < U64 && Sub(t, pendingHead, U64) == n && 0 < n <= |pending|
      ensures pendingBufs[SlotOf(Sub(t, 1, U64), capacity)] == pending[n - 1]
    {
      assert Live(pendingBufs[..], pendingHead, t, U64)[n - 1] == pending[n - 1];
      PopBack(pendingBufs[..], pendingHead, t, U64);
    }

    /** After a rollback the list and every byte are as they were; the free queue has the same blocks. */
    method GiveUp(originalTail: nat, wasEmpty: bool, originalTailSize: nat, ghost p0: Pool, ghost pend0: seq<nat>)
      requires Valid() && originalTail < U64
      requires Holds(p0, multiset(pend0)) && InRange(p0.data, pend0)
      requires Taken(p0, pend0, pool.view, pending) && Untouched(p0, pend0, pool.view.data, pending)
      requires Sub(originalTail, pendingHead, U64) == |pend0| && (wasEmpty <==> pend0 == [])
      requires !wasEmpty ==> originalTailSize == |p0.data[Last(pend0)]|
      modifies this`pendingTail, this`pending, pool, pool.dataSize, pool.freeIdxQueue
      ensures Valid()
      ensures Outcome(false, pool.view, pending) == AppendUndone(p0, pend0, |old(pending)| - |pend0|)
    {
      ghost var p, pend := pool.view, pending;
      TakenFacts(p0, pend0, p, pend);
      Bounds();
      hide *;
      Rollback(originalTail, wasEmpty, originalTailSize, pend0);
      Bounds();
      Undone(p0, pend0, p, pend, pool.view);
    }

    /** One turn of the copy loop; `stuck` when bytes are left and no further block can be had. */
    method AppendTurn(rest: seq<byte>, ghost p0: Pool, ghost pend0: seq<nat>, ghost e: nat, ghost goal: seq<seq<byte>>)
      returns (left: seq<byte>, stuck: bool)
      requires Valid() && rest != [] && Progress(p0, pend0, e, goal, pool.view, pending, rest)
      modifies this`pendingTail, this`pending, pendingBufs, pool, pool.bufs, pool.dataSize
      ensures Valid() && Progress(p0, pend0, e, goal, pool.view, pending, left)
      ensures |left| <= |rest| && (!stuck && left != [] ==> |pending| > |old(pending)|)
      ensures stuck ==> && left != [] && |pool.view.data[Last(pending)]| == pool.bufSize
                        && (|pending| == capacity || pool.view.free == [])
    {
      hide *;
      ProgressFacts(p0, pend0, e, goal, pool.view, pending, rest);
      CopyStep(p0, pend0, e, goal, pool.view, pending, rest);
      Bounds();
      left := FillLast(rest);
      Bounds();
      stuck := false;
      if |left| > 0 {
        if Sub(pendingTail, pendingHead, U64) >= capacity {
          return left, true;
        }
        ghost var p := pool.view;
        ghost var pend := pending;
        assert pend != [] && |p.data[Last(pend)]| == p.blockSize;
        ValidPool();
        var got := TakeBlock();
        if !got {
          return left, true;
        }
        FirstFreeEmpty(p);
        AcquireStep(p0, pend0, e, goal, p, pend, left);
      }
    }

    /** The acquire before the loop, or the size of the block that will be topped up. */
    method AppendStart(src: seq<byte>) returns (ok: bool, originalTailSize: nat, ghost e: nat,
                       ghost goal: seq<seq<byte>>)
      requires Valid()
      modifies this`pendingTail, this`pending, pendingBufs, pool
      ensures Valid() && InRange(old(pool.view.data), old(pending)) && InRange(old(pool.view.data), old(pool.view.free))
      ensures old(pending) != [] ==> ok && originalTailSize == |old(pool.view).data[Last(old(pending))]|
      ensures !ok ==> AppendSpec(old(pool.view), old(pending), capacity, src) == Outcome(false, pool.view, pending)
      ensures ok ==>
                && e == BlocksForAppend(old(pool.view), old(pending), |src|)
                && (e <= |old(pool.view.free)| ==> goal == Goal(old(pool.view), old(pending), e, src))
                && Progress(old(pool.view), old(pending), e, goal, pool.view, pending, src)
    {
      ghost var p0, pend0 := pool.view, pending;
      HoldsIndices(p0, pend0);
      ok, originalTailSize := true, 0;
      e, goal := 0, [];
      if pendingHead == pendingTail {
        ok := TakeBlock();
        if ok {
          FirstFreeEmpty(p0);
          e, goal := StartEmpty(p0, src);
        } else {
          NoBlocks(p0, capacity, src);
        }
      } else {
        var last := LastPending();
        pool.SizeOfView(last);
        originalTailSize := pool.dataSize[last];
        e, goal := StartNonEmpty(p0, pend0, src);
      }
    }

    /** The copy loop with its three exits. */
    method AppendRun(src: seq<byte>, originalTail: nat, wasEmpty: bool, originalTailSize: nat,
                     ghost p0: Pool, ghost pend0: seq<nat>, ghost e: nat, ghost goal: seq<seq<byte>>) returns (ok: bool)
      requires Valid() && Progress(p0, pend0, e, goal, pool.view, pending, src)
      requires Holds(p0, multiset(pend0)) && InRange(p0.data, pend0) && InRange(p0.data, p0.free)
      requires e == BlocksForAppend(p0, pend0, |src|) && (e <= |p0.free| ==> goal == Goal(p0, pend0, e, src))
      requires originalTail < U64 && Sub(originalTail, pendingHead, U64) == |pend0| && (wasEmpty <==> pend0 == [])
      requires !wasEmpty ==> originalTailSize == |p0.data[Last(pend0)]|
      modifies this`pendingTail, this`pending, pendingBufs, pool, pool.bufs, pool.dataSize, pool.freeIdxQueue
      ensures Valid() && |pend0| <= capacity
      ensures AppendSpec(p0, pend0, capacity, src) == Outcome(ok, pool.view, pending)
    {
      hide *;
      var rest := src;
      ProgressFacts(p0, pend0, e, goal, pool.view, pending, rest);
      Bounds();
      while |rest| > 0
        invariant Valid() && Progress(p0, pend0, e, goal, pool.view, pending, rest)
        invariant |pend0| <= |pending| <= capacity
        decreases |rest|, capacity - |pending|
      {
        var stuck;
        rest, stuck := AppendTurn(rest, p0, pend0, e, goal);
        ProgressFacts(p0, pend0, e, goal, pool.view, pending, rest);
        Bounds();
        if stuck {
          Stuck(p0, pend0, capacity, e, goal, pool.view, pending, rest);
          NeverFits(p0, pend0, capacity, src, e);
          GiveUp(originalTail, wasEmpty, originalTailSize, p0, pend0);
          assert AppendSpec(p0, pend0, capacity, src) == Outcome(false, pool.view, pending);
          return false;
        }
      }
      assert rest == [];
      Finished(p0, pend0, capacity, src, e, goal, pool.view, pending);
      assert AppendSpec(p0, pend0, capacity, src) == Outcome(true, pool.view, pending);
      return true;
    }

    /** All or nothing: the pending list grows by exactly `src`, or the pool and the list are as before. */
    method Append(src: seq<byte>) returns (ok: bool)
      requires Valid() && |src| < U32
      modifies this`pendingTail, this`pending, pendingBufs, pool, pool.bufs, pool.dataSize, pool.freeIdxQueue
      ensures Valid()
      ensures AppendSpec(old(pool.view), old(pending), capacity, src) == Outcome(ok, pool.view, pending)
    {
      ghost var p0, pend0 := pool.view, pending;
      var originalTail := pendingTail;
      var wasEmpty := pendingHead == pendingTail;
      var originalTailSize;
      ghost var e, goal;
      ok, originalTailSize, e, goal := AppendStart(src);
      if ok {
        ok := AppendRun(src, originalTail, wasEmpty, originalTailSize, p0, pend0, e, goal);
      }
    }

    /** `pending_bufs_[i & mask_] = idx` for a slot in front of the head. */
    method StoreFront(i: nat, newHead: nat, n: nat, idx: nat)
      requires Shape() && newHead < U64 && i < U64 && n + |pending| <= capacity
      requires newHead == Sub(pendingHead, n, U64) && Sub(i, newHead, U64) < n
      modifies pendingBufs
      ensures Shape() && RingOk(capacity, newHead, i, U64) && RingOk(capacity, newHead, Inc(i, U64), U64)
      ensures Sub(Inc(i, U64), newHead, U64) == Sub(i, newHead, U64) + 1
      ensures Live(pendingBufs[..], newHead, Inc(i, U64), U64) == old(Live(pendingBufs[..], newHead, i, U64)) + [idx]
    {
      ghost var ring, slot := pendingBufs[..], i % capacity;
      PushBack(ring, newHead, i, U64, idx);
      StoreBeforeHead(ring, pendingHead, pendingTail, U64, n, newHead, i, idx);
      pendingBufs[SlotOf(i, capacity)] := idx;
      assert pendingBufs[..] == ring[slot := idx];
    }

    /** What the loop of `prepend` maintains when it has reached counter `i`. */
    ghost predicate AtFront(p0: Pool, n: nat, src: seq<byte>, newHead: nat, i: nat, rest: seq<byte>)
      reads this, pendingBufs, pool, pool.bufs, pool.dataSize, pool.freeIdxQueue
    {
      && Shape() && pool.Valid() && newHead < U64 && i < U64
      && n + |pending| <= capacity && newHead == Sub(pendingHead, n, U64)
      && Sub(i, newHead, U64) <= n && RingOk(capacity, newHead, i, U64)
      && Front(p0, n, src, pool.view, Sub(i, newHead, U64), rest)
      && Live(pendingBufs[..], newHead, i, U64) == p0.free[..Sub(i, newHead, U64)]
      && Holds(pool.view, multiset(p0.free[..Sub(i, newHead, U64)]) + multiset(pending))
    }

    /** One block of `prepend`; fails when the pool is empty. */
    method PrependTurn(rest: seq<byte>, newHead: nat, i: nat, n: nat, ghost p0: Pool, ghost src: seq<byte>)
      returns (ok: bool, left: seq<byte>)
      requires AtFront(p0, n, src, newHead, i, rest) && Sub(i, newHead, U64) < n
      modifies pendingBufs, pool`head, pool`view, pool.bufs, pool.dataSize
      ensures !ok ==> left == rest && AtFront(p0, n, src, newHead, i, rest) && pool.view.free == []
      ensures ok ==>
                && AtFront(p0, n, src, newHead, Inc(i, U64), left)
                && Sub(Inc(i, U64), newHead, U64) == Sub(i, newHead, U64) + 1
    {
      ghost var p, j := pool.view, Sub(i, newHead, U64);
      var idx := pool.Acquire();
      if idx == INVALID_IDX {
        return false, rest;
      }
      FrontOwnership(p0, n, src, p, j, rest, pending);
      StoreFront(i, newHead, n, idx);
      var toCopy := Min(|rest|, pool.bufSize);
      PutBytes(idx, rest[..toCopy]);
      FrontStep(p0, n, src, p, j, rest);
      return true, rest[toCopy..];
    }

    /** Gives back the blocks between `newHead` and `i`, first one first. */
    method UndoPrepend(newHead: nat, i: nat, ghost taken: seq<nat>)
      requires Shape() && pool.Valid() && newHead < U64 && i < U64 && RingOk(capacity, newHead, i, U64)
      requires Live(pendingBufs[..], newHead, i, U64) == taken
      requires Holds(pool.view, multiset(taken) + multiset(pending))
      modifies pool`tail, pool`view, pool.dataSize, pool.freeIdxQueue
      ensures Valid() && InRange(old(pool.view.data), taken) && pool.view == ReleaseAll(old(pool.view), taken)
    {
      ghost var p0, left := pool.view, taken;
      assert InRange(p0.data, taken) by { ReleaseAllHolds(p0, taken, multiset(pending)); }
      var j: nat := newHead;
      while j != i
        invariant Shape() && pool.Valid() && j < U64 && RingOk(capacity, j, i, U64)
        invariant Live(pendingBufs[..], j, i, U64) == left
        invariant Holds(pool.view, multiset(left) + multiset(pending))
        invariant InRange(pool.view.data, left) && ReleaseAll(pool.view, left) == ReleaseAll(p0, taken)
        decreases |left|
      {
        PopFront(pendingBufs[..], j, i, U64);
        var idx := pendingBufs[SlotOf(j, capacity)];
        FirstOfHeld(pool.view, left, multiset(pending));
        ReleaseAllFirst(pool.view, left);
        pool.Release(idx);
        j := Inc(j, U64);
        left := left[1..];
      }
      assert left == [] && ReleaseAll(pool.view, []) == pool.view;
      assert multiset([]) + multiset(pending) == multiset(pending);
    }

    /** Puts `src` in front of the pending bytes, or changes nothing. */
    method Prepend(src: seq<byte>) returns (ok: bool)
      requires Valid() && |src| < U32
      modifies this`pendingHead, this`pending, pendingBufs, pool, pool.bufs, pool.dataSize, pool.freeIdxQueue
      ensures Valid()
      ensures PrependSpec(old(pool.view), old(pending), capacity, src) == Outcome(ok, pool.view, pending)
    {
      var blockToWrite := BlocksForPrepend(|src|, pool.bufSize);
      var pendingCount := Sub(pendingTail, pendingHead, U64);
      if blockToWrite > capacity - pendingCount {
        assert PrependSpec(pool.view, pending, capacity, src) == Outcome(false, pool.view, pending);
        return false;
      }
      hide Valid, BlocksForPrepend;
      BackUp(capacity, pendingHead, pendingTail, U64, blockToWrite);
      var newHead := Sub(pendingHead, blockToWrite, U64);
      ok := PrependRun(src, newHead, blockToWrite);
    }

    lemma AtFrontStart(src: seq<byte>, newHead: nat, n: nat)
      requires Valid() && newHead < U64 && n + |pending| <= capacity && newHead == Sub(pendingHead, n, U64)
      ensures AtFront(pool.view, n, src, newHead, newHead, src)
    {
      HoldsIndices(pool.view, pending);
      FrontStart(pool.view, n, src);
      BackUp(capacity, pendingHead, pendingTail, U64, n);
      assert multiset([]) + multiset(pending) == multiset(pending);
      assert pool.view.free[..0] == [];
    }

    lemma AtFrontFacts(p0: Pool, n: nat, src: seq<byte>, newHead: nat, i: nat, rest: seq<byte>)
      requires AtFront(p0, n, src, newHead, i, rest)
      ensures newHead < U64 && i < U64 && Sub(i, newHead, U64) <= n && (i == pendingHead <==> Sub(i, newHead, U64) == n)
      ensures Sub(i, newHead, U64) <= |p0.free|
    {
    }

    /** The pool ran dry: the blocks taken so far are all there were. */
    lemma PrependFails(p0: Pool, n: nat, src: seq<byte>, newHead: nat, i: nat, rest: seq<byte>)
      requires AtFront(p0, n, src, newHead, i, rest) && pool.view.free == [] && Sub(i, newHead, U64) < n
      requires Holds(p0, multiset(pending)) && n == BlocksForPrepend(|src|, p0.blockSize)
      ensures var taken := p0.free[..Sub(i, newHead, U64)];
              && RingOk(capacity, newHead, i, U64) && Live(pendingBufs[..], newHead, i, U64) == taken
              && Shape() && pool.Valid() && Holds(pool.view, multiset(taken) + multiset(pending))
              && InRange(pool.view.data, taken) && ReleaseAll(pool.view, taken) == p0
      ensures |pending| <= capacity && PrependSpec(p0, pending, capacity, src) == Outcome(false, p0, pending)
    {
      var taken := p0.free[..Sub(i, newHead, U64)];
      FrontUndone(p0, n, src, pool.view, Sub(i, newHead, U64), rest);
    }

    /** `pending_head_ = new_head` */
    method MoveHead(newHead: nat, n: nat, ghost p0: Pool, ghost src: seq<byte>, ghost rest: seq<byte>)
      requires AtFront(p0, n, src, newHead, pendingHead, rest)
      requires Holds(p0, multiset(pending)) && n == BlocksForPrepend(|src|, p0.blockSize)
      modifies this`pendingHead, this`pending
      ensures Valid() && |old(pending)| <= capacity
      ensures PrependSpec(p0, old(pending), capacity, src) == Outcome(true, pool.view, pending)
    {
      PushFrontAll(pendingBufs[..], pendingHead, pendingTail, U64, n, newHead);
      FrontDone(p0, n, capacity, src, pool.view, rest, pending);
      assert multiset(p0.free[..n] + pending) == multiset(p0.free[..n]) + multiset(pending);
      pending := p0.free[..n] + pending;
      pendingHead := newHead;
    }

    method PrependRun(src: seq<byte>, newHead: nat, n: nat) returns (ok: bool)
      requires Valid() && |src| < U32 && newHead < U64 && n + |pending| <= capacity
      requires n == BlocksForPrepend(|src|, pool.bufSize) && newHead == Sub(pendingHead, n, U64)
      modifies this`pendingHead, this`pending, pendingBufs, pool, pool.bufs, pool.dataSize, pool.freeIdxQueue
      ensures Valid()
      ensures PrependSpec(old(pool.view), old(pending), capacity, src) == Outcome(ok, pool.view, pending)
    {
      ghost var p0 := pool.view;
      var i: nat := newHead;
      var rest := src;
      AtFrontStart(src, newHead, n);
      ValidPool();
      Bounds();
      hide *;
      while i != pendingHead
        invariant AtFront(p0, n, src, newHead, i, rest) && newHead < U64 && i < U64
        invariant Sub(i, newHead, U64) <= n && pending == old(pending)
        decreases n - Sub(i, newHead, U64)
      {
        AtFrontFacts(p0, n, src, newHead, i, rest);
        ok, rest := PrependTurn(rest, newHead, i, n, p0, src);
        if !ok {
          PrependFails(p0, n, src, newHead, i, rest);
          UndoPrepend(newHead, i, p0.free[..Sub(i, newHead, U64)]);
          assert PrependSpec(p0, pending, capacity, src) == Outcome(false, pool.view, pending);
          return false;
        }
        i := Inc(i, U64);
      }
      MoveHead(newHead, n, p0, src, rest);
      return true;
    }

    /** `pending_bufs_[pending_head_++ & mask_]` */
    method PopPending() returns (idx: nat)
      requires Shape() && pending != []
      modifies this`pendingHead, this`pending
      ensures Shape() && idx == old(pending)[0] && pending == old(pending)[1..]
    {
      PopFront(pendingBufs[..], pendingHead, pendingTail, U64);
      idx := pendingBufs[SlotOf(pendingHead, capacity)];
      pendingHead := Inc(pendingHead, U64);
      pending := pending[1..];
    }

    /** The loop shared by `discard_pending` and `reset`: every pending block goes back, in order. */
    method ReleasePending(ghost held: multiset<nat>)
      requires Shape() && pool.Valid() && Holds(pool.view, multiset(pending) + held)
      modifies this`pendingHead, this`pending, pool`tail, pool`view, pool.dataSize, pool.freeIdxQueue
      ensures Shape() && pool.Valid() && Holds(pool.view, held)
      ensures pending == [] && pendingHead == pendingTail
      ensures InRange(old(pool.view.data), old(pending)) && pool.view == ReleaseAll(old(pool.view), old(pending))
    {
      ghost var p0, pend0 := pool.view, pending;
      ReleaseAllHolds(p0, pend0, held);
      while pendingHead != pendingTail
        invariant Shape() && pool.Valid() && Holds(pool.view, multiset(pending) + held)
        invariant InRange(pool.view.data, pending) && ReleaseAll(pool.view, pending) == ReleaseAll(p0, pend0)
        decreases |pending|
      {
        FirstOfHeld(pool.view, pending, held);
        ReleaseAllFirst(pool.view, pending);
        var idx := PopPending();
        pool.Release(idx);
      }
      assert pending == [] && ReleaseAll(pool.view, []) == pool.view;
      assert multiset([]) + held == held;
    }

    method DiscardPending(ghost held: multiset<nat>)
      requires Valid() && Holds(pool.view, multiset(pending) + held)
      modifies this`pendingHead, this`pendingTail, this`pending, pool`tail, pool`view, pool.dataSize, pool.freeIdxQueue
      ensures Valid() && pending == [] && Holds(pool.view, held)
      ensures InRange(old(pool.view.data), old(pending)) && pool.view == ReleaseAll(old(pool.view), old(pending))
    {
      ReleasePending(held);
      ClearCounters(held);
    }

    /** `pending_head_ = pending_tail_ = 0` */
    method ClearCounters(ghost held: multiset<nat>)
      requires Shape() && pool.Valid() && pending == [] && Holds(pool.view, held)
      modifies this`pendingHead, this`pendingTail
      ensures Valid() && pending == []
    {
      pendingHead, pendingTail := 0, 0;
      EmptyRing(capacity, 0, U64);
      HoldsPart(pool.view, multiset([]), held);
    }
  }
}
