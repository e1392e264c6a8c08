/**
  The loop of `append`, on values: how far it has got, what is left to do, and why each
  turn of the loop and each exit is right.
 */
module AppendLoop {
  import opened Blocks
  import opened WriteSpec

  function Last(s: seq<nat>): nat
    requires s != []
  {
    s[|s| - 1]
  }

  /** The blocks acquired so far are the front of the free queue, in order. */
  ghost predicate Taken(p0: Pool, pend0: seq<nat>, p: Pool, pend: seq<nat>) {
    && |pend0| <= |pend| <= |pend0| + |p0.free| && pend != []
    && pend == pend0 + p0.free[..|pend| - |pend0|]
    && p.free == p0.free[|pend| - |pend0|..]
    && p.blockSize == p0.blockSize && |p.data| == |p0.data| && Bounded(p.data, p.blockSize)
    && Last(pend) < |p.data|
  }

  /** Only the old last block and the acquired ones were written, the former only past its end. */
  ghost predicate Untouched(p0: Pool, pend0: seq<nat>, data: seq<seq<byte>>, pend: seq<nat>)
  {
    && LastIndex(pend0) <= |pend| && |data| == |p0.data|
    && (forall i :: 0 <= i < |data| && i !in pend[LastIndex(pend0)..] ==> data[i] == p0.data[i])
    && (pend0 != [] && Last(pend0) < |data| ==> p0.data[Last(pend0)] <= data[Last(pend0)])
  }

  /** `e` blocks are needed in all; `taken` have been taken, and the rest are for the `left` bytes. */
  ghost predicate NeedLeft(e: nat, taken: nat, size: nat, fill: nat, left: nat) {
    size > 0 && fill <= size && e == taken + Need(size - fill, left, size)
  }

  /** Pouring the rest into the current block and the blocks still to take gives `goal`. */
  ghost predicate WorkLeft(more: nat, goal: seq<seq<byte>>, p: Pool, last: nat, rest: seq<byte>)
    requires Bounded(p.data, p.blockSize)
  {
    more <= |p.free| ==>
      var left := [last] + p.free[..more];
      InRange(p.data, left) && Fill(p.data, left, rest, p.blockSize) == goal
  }

  ghost function Goal(p0: Pool, pend0: seq<nat>, e: nat, src: seq<byte>): seq<seq<byte>>
    requires InRange(p0.data, pend0) && InRange(p0.data, p0.free) && Bounded(p0.data, p0.blockSize) && e <= |p0.free|
  {
    Appended(p0, pend0, e, src).pool.data
  }

  /** Started from `p0`, `pend0`; now at `p`, `pend` with `rest` still to copy. */
  ghost predicate Progress(p0: Pool, pend0: seq<nat>, e: nat, goal: seq<seq<byte>>, p: Pool, pend: seq<nat>,
                           rest: seq<byte>) {
    && Taken(p0, pend0, p, pend)
    && Untouched(p0, pend0, p.data, pend)
    && NeedLeft(e, |pend| - |pend0|, p.blockSize, |p.data[Last(pend)]|, |rest|)
    && WorkLeft(e - (|pend| - |pend0|), goal, p, Last(pend), rest)
  }

  lemma ProgressFacts(p0: Pool, pend0: seq<nat>, e: nat, goal: seq<seq<byte>>, p: Pool, pend: seq<nat>, rest: seq<byte>)
    requires Progress(p0, pend0, e, goal, p, pend, rest)
    ensures |pend0| <= |pend| && pend != [] && Last(pend) < |p.data| && |p.data[Last(pend)]| <= p.blockSize
    ensures Taken(p0, pend0, p, pend) && Untouched(p0, pend0, p.data, pend)
  {
  }

  /** Entry with a non-empty list: nothing copied yet. */
  lemma StartNonEmpty(p: Pool, pend: seq<nat>, src: seq<byte>) returns (e: nat, goal: seq<seq<byte>>)
    requires Holds(p, multiset(pend)) && pend != []
    ensures InRange(p.data, pend) && InRange(p.data, p.free)
    ensures e == BlocksForAppend(p, pend, |src|) && (e <= |p.free| ==> goal == Goal(p, pend, e, src))
    ensures Progress(p, pend, e, goal, p, pend, src)
  {
    HoldsIndices(p, pend);
    e := BlocksForAppend(p, pend, |src|);
    goal := if e <= |p.free| then Goal(p, pend, e, src) else [];
    assert Taken(p, pend, p, pend) by {
      assert pend + p.free[..0] == pend && p.free[0..] == p.free;
    }
    WorkAtStart(p, pend, e, src);
  }

  lemma WorkAtStart(p: Pool, pend: seq<nat>, e: nat, src: seq<byte>)
    requires InRange(p.data, pend) && InRange(p.data, p.free) && Bounded(p.data, p.blockSize) && pend != []
    ensures e <= |p.free| ==> WorkLeft(e, Goal(p, pend, e, src), p, Last(pend), src)
  {
    if e <= |p.free| {
      var left := [Last(pend)] + p.free[..e];
      assert (pend + p.free[..e])[LastIndex(pend)..] == left;
    }
  }

  /** Entry with an empty list: one block was acquired. */
  lemma StartEmpty(p: Pool, src: seq<byte>) returns (e: nat, goal: seq<seq<byte>>)
    requires p.blockSize > 0 && Bounded(p.data, p.blockSize) && InRange(p.data, p.free)
    requires p.free != [] && p.data[p.free[0]] == []
    ensures e == BlocksForAppend(p, [], |src|) && (e <= |p.free| ==> goal == Goal(p, [], e, src))
    ensures Progress(p, [], e, goal, p.(free := p.free[1..]), [p.free[0]], src)
  {
    e := BlocksForAppend(p, [], |src|);
    goal := if e <= |p.free| then Goal(p, [], e, src) else [];
    var p1 := p.(free := p.free[1..]);
    assert Taken(p, [], p1, [p.free[0]]) by {
      assert [] + p.free[..1] == [p.free[0]];
    }
    assert Untouched(p, [], p1.data, [p.free[0]]);
    assert NeedLeft(e, 1, p.blockSize, 0, |src|);
    WorkAfterFirst(p, e, src);
  }

  lemma WorkAfterFirst(p: Pool, e: nat, src: seq<byte>)
    requires InRange(p.data, p.free) && Bounded(p.data, p.blockSize) && e > 0
    ensures e <= |p.free| ==> WorkLeft(e - 1, Goal(p, [], e, src), p.(free := p.free[1..]), p.free[0], src)
  {
    if e <= |p.free| {
      var p1 := p.(free := p.free[1..]);
      var left := [p.free[0]] + p1.free[..e - 1];
      assert left == p.free[..e];
      assert ([] + p.free[..e])[0..] == left;
    }
  }

  /** Copying as much as the current block takes. */
  lemma CopyStep(p0: Pool, pend0: seq<nat>, e: nat, goal: seq<seq<byte>>, p: Pool, pend: seq<nat>, rest: seq<byte>)
    requires Progress(p0, pend0, e, goal, p, pend, rest)
    ensures var last := Last(pend);
            var k := Min(p.blockSize - |p.data[last]|, |rest|);
            var p1 := p.(data := p.data[last := p.data[last] + rest[..k]]);
            && Progress(p0, pend0, e, goal, p1, pend, rest[k..])
            && (k < |rest| ==> |p1.data[last]| == p1.blockSize)
  {
    var last := Last(pend);
    var k := Min(p.blockSize - |p.data[last]|, |rest|);
    var p1 := p.(data := p.data[last := p.data[last] + rest[..k]]);
    assert Untouched(p0, pend0, p1.data, pend) by {
      assert last == pend[LastIndex(pend0)..][|pend| - 1 - LastIndex(pend0)];
    }
    var more := e - (|pend| - |pend0|);
    assert WorkLeft(more, goal, p1, last, rest[k..]) by {
      if more <= |p.free| {
        RefillStep(p.data, last, p.free[..more], rest, p.blockSize);
      }
    }
  }

  /** Filling resumes where it stopped: a full head is skipped, an exhausted source fills nothing. */
  lemma RefillStep(data: seq<seq<byte>>, last: nat, more: seq<nat>, rest: seq<byte>, size: nat)
    requires last < |data| && InRange(data, [last] + more) && Bounded(data, size)
    ensures var k := Min(size - |data[last]|, |rest|);
            var data1 := data[last := data[last] + rest[..k]];
            && Bounded(data1, size)
            && InRange(data1, [last] + more)
            && Fill(data1, [last] + more, rest[k..], size) == Fill(data, [last] + more, rest, size)
  {
    var k := Min(size - |data[last]|, |rest|);
    var data1 := data[last := data[last] + rest[..k]];
    var later := rest[k..];
    hide Fill;
    Unfold(data, [last] + more, rest, size);
    Unfold(data1, [last] + more, later, size);
    assert ([last] + more)[1..] == more;
    assert Min(size - |data1[last]|, |later|) == 0;
    assert data1[last := data1[last] + later[..0]] == data1 by { NothingAfter(data1[last]); }
    assert later[0..] == later;
  }

  /** Taking the next free block when the current one is full. */
  lemma AcquireStep(p0: Pool, pend0: seq<nat>, e: nat, goal: seq<seq<byte>>, p: Pool, pend: seq<nat>, rest: seq<byte>)
    requires Progress(p0, pend0, e, goal, p, pend, rest)
    requires p.free != [] && rest != [] && |p.data[Last(pend)]| == p.blockSize
    requires p.free[0] < |p.data| && p.data[p.free[0]] == []
    ensures Progress(p0, pend0, e, goal, p.(free := p.free[1..]), pend + [p.free[0]], rest)
  {
    var p1, pend1 := p.(free := p.free[1..]), pend + [p.free[0]];
    var j := |pend| - |pend0|;
    AcquireTaken(p0, pend0, p, pend);
    assert NeedLeft(e, j + 1, p.blockSize, 0, |rest|);
    assert Untouched(p0, pend0, p1.data, pend1) by {
      assert pend1[LastIndex(pend0)..] == pend[LastIndex(pend0)..] + [p.free[0]];
    }
    AcquireWork(e - j, goal, p, Last(pend), rest);
  }

  lemma AcquireTaken(p0: Pool, pend0: seq<nat>, p: Pool, pend: seq<nat>)
    requires Taken(p0, pend0, p, pend) && p.free != [] && p.free[0] < |p.data|
    ensures Taken(p0, pend0, p.(free := p.free[1..]), pend + [p.free[0]])
  {
    var j := |pend| - |pend0|;
    assert p0.free[..j + 1] == p0.free[..j] + [p0.free[j]];
  }

  lemma AcquireWork(more: nat, goal: seq<seq<byte>>, p: Pool, last: nat, rest: seq<byte>)
    requires Bounded(p.data, p.blockSize) && last < |p.data| && |p.data[last]| == p.blockSize
    requires WorkLeft(more, goal, p, last, rest) && more > 0 && p.free != []
    ensures WorkLeft(more - 1, goal, p.(free := p.free[1..]), p.free[0], rest)
  {
    if more <= |p.free| {
      var left := [last] + p.free[..more];
      assert left[1..] == [p.free[0]] + p.free[1..][..more - 1];
      SkipFull(p.data, left, rest, p.blockSize);
    }
  }

  lemma SkipFull(data: seq<seq<byte>>, targets: seq<nat>, rest: seq<byte>, size: nat)
    requires InRange(data, targets) && Bounded(data, size) && targets != []
    requires |data[targets[0]]| == size
    ensures Fill(data, targets, rest, size) == Fill(data, targets[1..], rest, size)
  {
    var t := targets[0];
    assert Min(size - |data[t]|, |rest|) == 0;
    assert data[t := data[t] + rest[..0]] == data by { NothingAfter(data[t]); }
    assert rest[0..] == rest;
  }

  /** Nothing left: this is the specified result. */
  lemma Finished(p0: Pool, pend0: seq<nat>, cap: nat, src: seq<byte>, e: nat, goal: seq<seq<byte>>, p: Pool,
                 pend: seq<nat>)
    requires Holds(p0, multiset(pend0)) && InRange(p0.data, pend0) && InRange(p0.data, p0.free)
    requires e == BlocksForAppend(p0, pend0, |src|) && (e <= |p0.free| ==> goal == Goal(p0, pend0, e, src))
    requires Progress(p0, pend0, e, goal, p, pend, []) && |pend0| <= |pend| <= cap
    ensures AppendSpec(p0, pend0, cap, src) == Outcome(true, p, pend)
  {
    var j := |pend| - |pend0|;
    assert j == e && e <= |p0.free|;
    assert p.data == goal by { DoneWork(goal, p, Last(pend)); }
    assert AppendSpec(p0, pend0, cap, src) == Appended(p0, pend0, e, src);
  }

  lemma DoneWork(goal: seq<seq<byte>>, p: Pool, last: nat)
    requires Bounded(p.data, p.blockSize) && last < |p.data| && WorkLeft(0, goal, p, last, [])
    ensures p.data == goal
  {
    assert [last] + p.free[..0] == [last];
    FillNothing(p.data, [last], p.blockSize);
  }

  /** Bytes left but no block or no room: the append was never going to fit. */
  lemma Stuck(p0: Pool, pend0: seq<nat>, cap: nat, e: nat, goal: seq<seq<byte>>, p: Pool, pend: seq<nat>,
              rest: seq<byte>)
    requires Progress(p0, pend0, e, goal, p, pend, rest) && |pend0| <= |pend| <= cap
    requires rest != [] && |p.data[Last(pend)]| == p.blockSize
    requires |pend| == cap || p.free == []
    ensures e > Min(cap - |pend0|, |p0.free|)
    ensures |pend| - |pend0| == Min(cap - |pend0|, |p0.free|)
  {
  }

  lemma NeverFits(p0: Pool, pend0: seq<nat>, cap: nat, src: seq<byte>, e: nat)
    requires Holds(p0, multiset(pend0)) && InRange(p0.data, pend0) && |pend0| <= cap
    requires e == BlocksForAppend(p0, pend0, |src|) && e > Min(cap - |pend0|, |p0.free|)
    ensures AppendSpec(p0, pend0, cap, src) == AppendUndone(p0, pend0, Min(cap - |pend0|, |p0.free|))
  {
  }

  /** The bytes after undoing: acquired blocks emptied, the old last block cut back. */
  ghost predicate CutBack(data: seq<seq<byte>>, data': seq<seq<byte>>, gone: seq<nat>, pend0: seq<nat>, size0: nat) {
    && |data'| == |data|
    && (forall i :: 0 <= i < |data| && i in gone ==> data'[i] == [])
    && (forall i :: 0 <= i < |data| && i !in gone && (pend0 == [] || i != Last(pend0)) ==> data'[i] == data[i])
    && (pend0 != [] && Last(pend0) < |data| && Last(pend0) !in gone ==>
          size0 <= |data[Last(pend0)]| && data'[Last(pend0)] == data[Last(pend0)][..size0])
  }

  /** Undoing restores every byte. */
  lemma Restored(p0: Pool, pend0: seq<nat>, p: Pool, pend: seq<nat>, data': seq<seq<byte>>)
    requires Holds(p0, multiset(pend0)) && InRange(p0.data, pend0)
    requires Taken(p0, pend0, p, pend) && Untouched(p0, pend0, p.data, pend)
    requires CutBack(p.data, data', pend[|pend0|..], pend0, if pend0 == [] then 0 else |p0.data[Last(pend0)]|)
    ensures data' == p0.data
  {
    HoldsIndices(p0, pend0);
    assert forall i :: i in p0.free ==> p0.data[i] == [];
    hide Holds, PoolOk, Apart;
    var gone := pend[|pend0|..];
    assert gone == p0.free[..|pend| - |pend0|];
    assert pend[LastIndex(pend0)..] == (if pend0 == [] then gone else [Last(pend0)] + gone);
    forall i | 0 <= i < |data'| ensures data'[i] == p0.data[i] {
      if i in gone {
        assert i in p0.free;
      } else if pend0 != [] && i == Last(pend0) {
        assert p0.data[i] <= p.data[i];
      } else {
        assert i !in pend[LastIndex(pend0)..];
      }
    }
  }

  /** `p` is `p1` with the blocks `gone` released, last one first. */
  ghost predicate Undoing(p1: Pool, p: Pool, gone: seq<nat>) {
    && p.blockSize == p1.blockSize && |p.data| == |p1.data|
    && p.free == p1.free + Reverse(gone)
    && (forall i :: 0 <= i < |p.data| ==> p.data[i] == if i in gone then [] else p1.data[i])
  }

  lemma UndoStep(p1: Pool, p: Pool, x: nat, gone: seq<nat>)
    requires Undoing(p1, p, gone) && x < |p.data|
    ensures Undoing(p1, Release(p, x), [x] + gone)
  {
    var all := [x] + gone;
    assert all[1..] == gone;
    assert p1.free + Reverse(all) == (p1.free + Reverse(gone)) + [x];
  }

  lemma LastSplits(s: seq<nat>, gone: seq<nat>)
    requires s != []
    ensures s[..|s| - 1] + ([Last(s)] + gone) == s + gone
  {
  }

  lemma UndoneIsCutBack(p0: Pool, p1: Pool, p2: Pool, pend: seq<nat>, pend0: seq<nat>, size0: nat)
    requires pend0 <= pend && Apart(pend + p0.free) && InRange(p0.data, pend)
    requires pend0 == [] ==> p1 == p0
    requires pend0 != [] ==> && size0 <= |p0.data[Last(pend0)]|
                             && p1 == p0.(data := p0.data[Last(pend0) := p0.data[Last(pend0)][..size0]])
    requires Undoing(p1, p2, pend[|pend0|..])
    ensures CutBack(p0.data, p2.data, pend[|pend0|..], pend0, size0)
    ensures p2.free == p0.free + Reverse(pend[|pend0|..])
  {
  }

  lemma FirstFreeEmpty(p: Pool)
    requires PoolOk(p) && p.free != []
    ensures p.free[0] < |p.data| && p.data[p.free[0]] == []
  {
    assert p.free[0] in p.free;
  }

  lemma TakenFacts(p0: Pool, pend0: seq<nat>, p: Pool, pend: seq<nat>)
    requires Taken(p0, pend0, p, pend) && Untouched(p0, pend0, p.data, pend) && InRange(p0.data, pend0)
    ensures pend0 <= pend && |p.data| == |p0.data| && p.blockSize == p0.blockSize
    ensures pend0 != [] ==> Last(pend0) < |p.data| && |p0.data[Last(pend0)]| <= |p.data[Last(pend0)]|
  {
  }

  lemma Undone(p0: Pool, pend0: seq<nat>, p: Pool, pend: seq<nat>, p2: Pool)
    requires Holds(p0, multiset(pend0)) && InRange(p0.data, pend0)
    requires Taken(p0, pend0, p, pend) && Untouched(p0, pend0, p.data, pend)
    requires p2.blockSize == p.blockSize && p2.free == p.free + Reverse(pend[|pend0|..])
    requires CutBack(p.data, p2.data, pend[|pend0|..], pend0, if pend0 == [] then 0 else |p0.data[Last(pend0)]|)
    ensures |pend| - |pend0| <= |p0.free|
    ensures Outcome(false, p2, pend0) == AppendUndone(p0, pend0, |pend| - |pend0|)
  {
    Restored(p0, pend0, p, pend, p2.data);
    assert pend[|pend0|..] == p0.free[..|pend| - |pend0|];
  }

  /** With no free block an append to an empty list fails at once. */
  lemma NoBlocks(p: Pool, cap: nat, src: seq<byte>)
    requires Holds(p, multiset([])) && p.free == []
    ensures AppendSpec(p, [], cap, src) == Outcome(false, p, [])
  {
    assert p.free[0..] + Reverse(p.free[..0]) == p.free;
  }
}
