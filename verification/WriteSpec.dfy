/**
  What the write path does, on values: a pool shared by the channels, the list of pending
  blocks of one channel, and its send queue.  The classes are proved to compute these
  functions; the lemmas here say what the functions mean for bytes and for ownership.
 */
module WriteSpec {
  import opened Bits
  import opened Blocks

  datatype Outcome = Outcome(ok: bool, pool: Pool, pending: seq<nat>)

  function Min(a: nat, b: nat): (m: nat)
    ensures m <= a && m <= b
  {
    if a < b then a else b
  }

  function Reverse(s: seq<nat>): (r: seq<nat>)
    ensures |r| == |s| && multiset(r) == multiset(s)
  {
    if s == [] then [] else
      assert s == [s[0]] + s[1..];
      Reverse(s[1..]) + [s[0]]
  }

  // ---------- Filling blocks ----------

  ghost predicate Bounded(data: seq<seq<byte>>, size: nat) {
    forall i :: 0 <= i < |data| ==> |data[i]| <= size
  }

  /** Tops up the listed blocks in turn with `bytes`, each to at most `size`. */
  ghost function Fill(data: seq<seq<byte>>, targets: seq<nat>, bytes: seq<byte>, size: nat): (r: seq<seq<byte>>)
    requires InRange(data, targets) && Bounded(data, size)
    ensures |r| == |data|
    decreases |targets|
  {
    if targets == [] then data
    else
      var t := targets[0];
      var k := Min(size - |data[t]|, |bytes|);
      Fill(data[t := data[t] + bytes[..k]], targets[1..], bytes[k..], size)
  }

  /** Blocks not listed keep their bytes, and no block overflows. */
  lemma {:induction false} FillFrame(data: seq<seq<byte>>, targets: seq<nat>, bytes: seq<byte>, size: nat)
    requires InRange(data, targets) && Bounded(data, size)
    ensures Bounded(Fill(data, targets, bytes, size), size)
    ensures forall i :: 0 <= i < |data| && i !in targets ==> Fill(data, targets, bytes, size)[i] == data[i]
    decreases |targets|
  {
    if targets != [] {
      var t := targets[0];
      var k := Min(size - |data[t]|, |bytes|);
      FillFrame(data[t := data[t] + bytes[..k]], targets[1..], bytes[k..], size);
    }
  }

  lemma {:induction false} FillNothing(data: seq<seq<byte>>, targets: seq<nat>, size: nat)
    requires InRange(data, targets) && Bounded(data, size)
    ensures Fill(data, targets, [], size) == data
    decreases |targets|
  {
    if targets != [] {
      var t := targets[0];
      assert data[t] + [][..0] == data[t];
      assert data[t := data[t]] == data;
      FillNothing(data, targets[1..], size);
    }
  }

  /** How many bytes the listed blocks can still take. */
  ghost function Room(data: seq<seq<byte>>, targets: seq<nat>, size: nat): nat
    requires InRange(data, targets) && Bounded(data, size)
  {
    if targets == [] then 0 else size - |data[targets[0]]| + Room(data, targets[1..], size)
  }

  lemma {:induction false} RoomOfEmpty(data: seq<seq<byte>>, targets: seq<nat>, size: nat)
    requires InRange(data, targets) && Bounded(data, size)
    requires forall i :: 0 <= i < |targets| ==> data[targets[i]] == []
    ensures Room(data, targets, size) == |targets| * size
    decreases |targets|
  {
    if targets != [] {
      RoomOfEmpty(data, targets[1..], size);
      assert |targets| * size == size + (|targets| - 1) * size;
    }
  }

  lemma {:induction false} GatherEmpty(data: seq<seq<byte>>, targets: seq<nat>)
    requires InRange(data, targets) && forall i :: 0 <= i < |targets| ==> data[targets[i]] == []
    ensures Gather(data, targets) == []
    decreases |targets|
  {
    if targets != [] {
      GatherEmpty(data, targets[1..]);
    }
  }

  lemma {:induction false} RoomFrame(data: seq<seq<byte>>, t: nat, x: seq<byte>, targets: seq<nat>, size: nat)
    requires InRange(data, targets) && Bounded(data, size) && t < |data| && |x| <= size && t !in targets
    ensures Room(data[t := x], targets, size) == Room(data, targets, size)
    decreases |targets|
  {
    if targets != [] {
      RoomFrame(data, t, x, targets[1..], size);
    }
  }

  /** Filling a first block and then empty ones appends exactly `bytes` to their joint contents. */
  lemma {:induction false} FillContents(data: seq<seq<byte>>, targets: seq<nat>, bytes: seq<byte>, size: nat)
    requires InRange(data, targets) && Bounded(data, size) && Apart(targets)
    requires forall i :: 1 <= i < |targets| ==> data[targets[i]] == []
    requires |bytes| <= Room(data, targets, size)
    ensures Gather(Fill(data, targets, bytes, size), targets) == Gather(data, targets) + bytes
    decreases |targets|
  {
    hide Fill, Gather, Room, Apart;
    Unfold(data, targets, bytes, size);
    if targets == [] {
      NothingAfter([]);
    } else {
      var t, rest := targets[0], targets[1..];
      var k := Min(size - |data[t]|, |bytes|);
      HeadApart(targets);
      RoomFrame(data, t, data[t] + bytes[..k], rest, size);
      FillContents(data[t := data[t] + bytes[..k]], rest, bytes[k..], size);
      FirstFilled(data, targets, bytes, size, k);
    }
  }

  /** The first block takes what it can and the empty ones the rest. */
  lemma FirstFilled(data: seq<seq<byte>>, targets: seq<nat>, bytes: seq<byte>, size: nat, k: nat)
    requires InRange(data, targets) && Bounded(data, size) && targets != [] && targets[0] !in targets[1..]
    requires forall i :: 1 <= i < |targets| ==> data[targets[i]] == []
    requires k == Min(size - |data[targets[0]]|, |bytes|)
    requires var data1, rest := data[targets[0] := data[targets[0]] + bytes[..k]], targets[1..];
             Gather(Fill(data1, rest, bytes[k..], size), rest) == Gather(data1, rest) + bytes[k..]
    ensures Gather(Fill(data, targets, bytes, size), targets) == Gather(data, targets) + bytes
  {
    hide Gather;
    var t, rest := targets[0], targets[1..];
    var data1 := data[t := data[t] + bytes[..k]];
    var out := Fill(data1, rest, bytes[k..], size);
    assert out == Fill(data, targets, bytes, size);
    hide Fill;
    GatherEmpty(data1, rest);
    NothingBefore(bytes[k..]);
    FillFrame(data1, rest, bytes[k..], size);
    GatherEmpty(data, rest);
    NothingAfter(data[t]);
    GatherUnfold(data, targets);
    GatherUnfold(out, targets);
    Regroup(data[t], bytes, k);
  }

  lemma GatherUnfold(data: seq<seq<byte>>, s: seq<nat>)
    requires InRange(data, s)
    ensures Gather(data, s) == if s == [] then [] else data[s[0]] + Gather(data, s[1..])
  {
  }

  /** The three recursions on a block list, one step. */
  lemma Unfold(data: seq<seq<byte>>, s: seq<nat>, bytes: seq<byte>, size: nat)
    requires InRange(data, s) && Bounded(data, size)
    ensures Gather(data, s) == if s == [] then [] else data[s[0]] + Gather(data, s[1..])
    ensures Room(data, s, size) == if s == [] then 0 else size - |data[s[0]]| + Room(data, s[1..], size)
    ensures s == [] ==> Fill(data, s, bytes, size) == data
    ensures s != [] ==>
              var k := Min(size - |data[s[0]]|, |bytes|);
              Fill(data, s, bytes, size) == Fill(data[s[0] := data[s[0]] + bytes[..k]], s[1..], bytes[k..], size)
  {
  }

  lemma HeadApart(s: seq<nat>)
    requires Apart(s) && s != []
    ensures s[0] !in s[1..] && Apart(s[1..])
  {
  }

  lemma NothingBefore(s: seq<byte>)
    ensures [] + s == s
  {
  }

  lemma NothingAfter(s: seq<byte>)
    ensures s + [] == s
  {
  }

  lemma Regroup(s: seq<byte>, bytes: seq<byte>, k: nat)
    requires k <= |bytes|
    ensures (s + bytes[..k]) + bytes[k..] == s + bytes
  {
  }

  // ---------- append ----------

  /** Further blocks needed for `n` bytes when `room` bytes are left in the current one. */
  function Need(room: nat, n: nat, size: nat): (e: nat)
    requires size > 0
    decreases n, room == 0
  {
    if n <= room then 0 else 1 + Need(size, n - room, size)
  }

  /** `Need` is the least number of blocks that makes the bytes fit. */
  lemma {:induction false} NeedIsLeast(room: nat, n: nat, size: nat, e: nat)
    requires size > 0
    ensures n <= room + e * size <==> Need(room, n, size) <= e
    decreases n, room == 0
  {
    if n <= room {
      assert e * size >= 0;
    } else if e == 0 {
      assert e * size == 0;
    } else {
      NeedIsLeast(size, n - room, size, e - 1);
      assert e * size == size + (e - 1) * size;
    }
  }

  lemma NeedFits(room: nat, n: nat, size: nat)
    requires size > 0
    ensures n <= room + Need(room, n, size) * size
  {
    NeedIsLeast(room, n, size, Need(room, n, size));
  }

  lemma NeedForEmpty(n: nat, size: nat)
    requires size > 0
    ensures n <= (1 + Need(size, n, size)) * size
  {
    NeedFits(size, n, size);
    var e := Need(size, n, size);
    assert (1 + e) * size == size + e * size;
  }

  lemma QuotientUnique(x: nat, q: nat, r: nat, c: nat)
    requires c > 0 && r < c && x == q * c + r
    ensures x / c == q
  {
    ModUnique(x, q, r, c);
    var q' := x / c;
    assert (q' - q) * c == 0;
    if q' > q {
      MulAtLeast(q' - q, c);
    } else if q' < q {
      assert (q - q') * c == 0;
      MulAtLeast(q - q', c);
    }
  }

  function BlocksForAppend(p: Pool, pending: seq<nat>, n: nat): nat
    requires p.blockSize > 0 && InRange(p.data, pending) && Bounded(p.data, p.blockSize)
  {
    if pending == [] then 1 + Need(p.blockSize, n, p.blockSize)
    else Need(p.blockSize - |p.data[pending[|pending| - 1]]|, n, p.blockSize)
  }

  /** The first block that an append to `pending` writes into, if it is not a new one. */
  function LastIndex(pending: seq<nat>): nat {
    if pending == [] then 0 else |pending| - 1
  }

  predicate AppendFits(p: Pool, pending: seq<nat>, cap: nat, n: nat)
    requires p.blockSize > 0 && InRange(p.data, pending) && Bounded(p.data, p.blockSize) && |pending| <= cap
  {
    BlocksForAppend(p, pending, n) <= Min(cap - |pending|, |p.free|)
  }

  /** The first `e` free blocks join the pending list, and the bytes are poured into it. */
  ghost function Appended(p: Pool, pending: seq<nat>, e: nat, bytes: seq<byte>): Outcome
    requires InRange(p.data, pending) && InRange(p.data, p.free) && Bounded(p.data, p.blockSize) && e <= |p.free|
  {
    var pending' := pending + p.free[..e];
    Outcome(true,
            p.(free := p.free[e..], data := Fill(p.data, pending'[LastIndex(pending)..], bytes, p.blockSize)),
            pending')
  }

  /** The `k` blocks taken so far have gone back, last one first. */
  ghost function AppendUndone(p: Pool, pending: seq<nat>, k: nat): Outcome
    requires k <= |p.free|
  {
    Outcome(false, p.(free := p.free[k..] + Reverse(p.free[..k])), pending)
  }

  ghost function AppendSpec(p: Pool, pending: seq<nat>, cap: nat, bytes: seq<byte>): Outcome
    requires Holds(p, multiset(pending)) && |pending| <= cap
  {
    HoldsIndices(p, pending);
    if AppendFits(p, pending, cap, |bytes|)
    then Appended(p, pending, BlocksForAppend(p, pending, |bytes|), bytes)
    else AppendUndone(p, pending, Min(cap - |pending|, |p.free|))
  }

  /** An append that succeeds adds exactly the caller's bytes; one that fails changes no byte. */
  lemma AppendContents(p: Pool, pending: seq<nat>, cap: nat, bytes: seq<byte>)
    requires Holds(p, multiset(pending)) && |pending| <= cap
    ensures InRange(p.data, pending)
    ensures var o := AppendSpec(p, pending, cap, bytes);
            && InRange(o.pool.data, o.pending)
            && Gather(o.pool.data, o.pending) == Gather(p.data, pending) + (if o.ok then bytes else [])
  {
    HoldsIndices(p, pending);
    if AppendFits(p, pending, cap, |bytes|) {
      AppendedContents(p, pending, bytes);
    } else {
      NothingAfter(Gather(p.data, pending));
    }
  }

  /** An append succeeds exactly when its bytes fit the slack of the last block and the blocks it may still take. */
  lemma AppendFitsIff(p: Pool, pending: seq<nat>, cap: nat, bytes: seq<byte>)
    requires Holds(p, multiset(pending)) && |pending| <= cap
    ensures InRange(p.data, pending)
    ensures var spare := Min(cap - |pending|, |p.free|);
            var slack := if pending == [] then 0 else p.blockSize - |p.data[pending[|pending| - 1]]|;
            AppendSpec(p, pending, cap, bytes).ok
            <==> |bytes| <= slack + spare * p.blockSize && (pending == [] ==> spare > 0)
  {
    HoldsIndices(p, pending);
    var spare, size := Min(cap - |pending|, |p.free|), p.blockSize;
    hide Holds, Appended, Need;
    if pending != [] {
      NeedIsLeast(size - |p.data[pending[|pending| - 1]]|, |bytes|, size, spare);
    } else if spare > 0 {
      NeedIsLeast(size, |bytes|, size, spare - 1);
      assert spare * size == size + (spare - 1) * size;
    }
  }

  lemma AppendedContents(p: Pool, pending: seq<nat>, bytes: seq<byte>)
    requires Holds(p, multiset(pending)) && InRange(p.data, pending)
    requires BlocksForAppend(p, pending, |bytes|) <= |p.free|
    ensures InRange(p.data, p.free)
    ensures var o := Appended(p, pending, BlocksForAppend(p, pending, |bytes|), bytes);
            && InRange(o.pool.data, o.pending)
            && Gather(o.pool.data, o.pending) == Gather(p.data, pending) + bytes
  {
    HoldsIndices(p, pending);
    var e := BlocksForAppend(p, pending, |bytes|);
    if pending == [] {
      var all := pending + p.free[..e];
      assert all == p.free[..e] && all[0..] == all;
      RoomForAll(p, bytes);
      FreshContents(p, e, bytes);
      NothingBefore(bytes);
    } else {
      TopUpContents(p, pending, e, bytes);
    }
  }

  lemma RoomForAll(p: Pool, bytes: seq<byte>)
    requires PoolOk(p) && InRange(p.data, p.free)
    ensures var e := 1 + Need(p.blockSize, |bytes|, p.blockSize);
            e <= |p.free| ==> |bytes| <= Room(p.data, p.free[..e], p.blockSize)
    ensures var e := Need(0, |bytes|, p.blockSize);
            e <= |p.free| ==> |bytes| <= Room(p.data, p.free[..e], p.blockSize)
  {
    NeedForEmpty(|bytes|, p.blockSize);
    NeedFits(0, |bytes|, p.blockSize);
    var e := 1 + Need(p.blockSize, |bytes|, p.blockSize);
    if e <= |p.free| {
      FreshRoom(p, e);
    }
    e := Need(0, |bytes|, p.blockSize);
    if e <= |p.free| {
      FreshRoom(p, e);
    }
  }

  lemma FreshContents(p: Pool, e: nat, bytes: seq<byte>)
    requires PoolOk(p) && InRange(p.data, p.free) && Apart(p.free) && e <= |p.free|
    requires |bytes| <= Room(p.data, p.free[..e], p.blockSize)
    ensures Gather(Fill(p.data, p.free[..e], bytes, p.blockSize), p.free[..e]) == bytes
  {
    var added := p.free[..e];
    FreshEmpty(p, e);
    GatherEmpty(p.data, added);
    FillContents(p.data, added, bytes, p.blockSize);
    NothingBefore(bytes);
  }

  lemma FreshEmpty(p: Pool, e: nat)
    requires PoolOk(p) && InRange(p.data, p.free) && e <= |p.free|
    ensures forall i :: 0 <= i < e ==> p.data[p.free[..e][i]] == []
  {
    forall i | 0 <= i < e ensures p.data[p.free[..e][i]] == [] {
      assert p.free[i] in p.free;
    }
  }

  lemma FreshRoom(p: Pool, e: nat)
    requires PoolOk(p) && InRange(p.data, p.free) && e <= |p.free|
    ensures Room(p.data, p.free[..e], p.blockSize) == e * p.blockSize
  {
    FreshEmpty(p, e);
    RoomOfEmpty(p.data, p.free[..e], p.blockSize);
  }

  /** Splits the list around the block that is topped up. */
  lemma TopUpTargets(p: Pool, pending: seq<nat>, e: nat)
    requires Apart(pending + p.free) && pending != [] && e <= |p.free|
    ensures var last, all := |pending| - 1, pending + p.free[..e];
            && all[last..] == [pending[last]] + p.free[..e]
            && all == pending[..last] + all[last..]
            && Apart(all[last..])
            && (forall i :: i in pending[..last] ==> i !in all[last..])
  {
    var last, all, both := |pending| - 1, pending + p.free[..e], pending + p.free;
    assert forall i :: 0 <= i < |all| ==> all[i] == both[i];
    var targets := all[last..];
    assert forall i :: 0 <= i < |targets| ==> targets[i] == both[last + i];
  }

  lemma TopUpContents(p: Pool, pending: seq<nat>, e: nat, bytes: seq<byte>)
    requires Holds(p, multiset(pending)) && InRange(p.data, pending) && pending != [] && e <= |p.free|
    requires e == BlocksForAppend(p, pending, |bytes|)
    ensures var last := |pending| - 1;
            var all := pending + p.free[..e];
            && InRange(p.data, all)
            && Gather(Fill(p.data, all[last..], bytes, p.blockSize), all) == Gather(p.data, pending) + bytes
  {
    HoldsIndices(p, pending);
    var last, size := |pending| - 1, p.blockSize;
    var all := pending + p.free[..e];
    var init, targets := pending[..last], all[last..];
    TopUpTargets(p, pending, e);
    var out := Fill(p.data, targets, bytes, size);
    assert Gather(out, targets) == p.data[pending[last]] + bytes by {
      LastThenFresh(p, pending[last], e, bytes);
    }
    FillFrame(p.data, targets, bytes, size);
    GatherFrame(p.data, out, init);
    GatherConcat(out, init, targets);
    GatherLast(p.data, pending);
    Assoc(Gather(p.data, init), p.data[pending[last]], bytes);
  }

  lemma LastThenFresh(p: Pool, last: nat, e: nat, bytes: seq<byte>)
    requires PoolOk(p) && InRange(p.data, p.free) && last < |p.data| && e <= |p.free|
    requires Apart([last] + p.free[..e])
    requires e == Need(p.blockSize - |p.data[last]|, |bytes|, p.blockSize)
    ensures Gather(Fill(p.data, [last] + p.free[..e], bytes, p.blockSize), [last] + p.free[..e]) == p.data[last] + bytes
  {
    var size, added := p.blockSize, p.free[..e];
    var targets := [last] + added;
    FreshEmpty(p, e);
    assert targets[1..] == added;
    GatherEmpty(p.data, added);
    NeedFits(size - |p.data[last]|, |bytes|, size);
    FreshRoom(p, e);
    FillContents(p.data, targets, bytes, size);
    assert Gather(p.data, targets) == p.data[last] + [];
    NothingAfter(p.data[last]);
  }

  lemma GatherLast(data: seq<seq<byte>>, s: seq<nat>)
    requires InRange(data, s) && s != []
    ensures Gather(data, s) == Gather(data, s[..|s| - 1]) + data[s[|s| - 1]]
  {
    var last := s[|s| - 1];
    assert s == s[..|s| - 1] + [last];
    GatherConcat(data, s[..|s| - 1], [last]);
    assert Gather(data, [last]) == data[last] + [];
    NothingAfter(data[last]);
  }

  lemma Assoc(a: seq<byte>, b: seq<byte>, c: seq<byte>)
    ensures a + (b + c) == (a + b) + c
  {
  }

  /** Blocks move between the free queue and the pending list; none is lost, copied or given to another holder. */
  lemma AppendOwnership(p: Pool, pending: seq<nat>, cap: nat, bytes: seq<byte>, held: multiset<nat>)
    requires Holds(p, multiset(pending) + held) && |pending| <= cap
    ensures Holds(p, multiset(pending))
    ensures var o := AppendSpec(p, pending, cap, bytes);
            && |o.pending| <= cap && |o.pool.data| == |p.data| && o.pool.blockSize == p.blockSize
            && multiset(o.pool.free) + multiset(o.pending) == multiset(p.free) + multiset(pending)
            && Holds(o.pool, multiset(o.pending) + held)
            && (forall i :: 0 <= i < |p.data| && i !in p.free && i !in pending ==> o.pool.data[i] == p.data[i])
            && (!o.ok ==> o.pool.data == p.data && o.pending == pending)
  {
    HoldsPart(p, multiset(pending), multiset(pending) + held);
    HoldsIndices(p, pending);
    hide Holds, Fill;
    if AppendFits(p, pending, cap, |bytes|) {
      AppendedOwnership(p, pending, BlocksForAppend(p, pending, |bytes|), bytes, held);
    } else {
      var k := Min(cap - |pending|, |p.free|);
      assert p.free == p.free[..k] + p.free[k..];
      RequeueOwnership(p, p.free[k..] + Reverse(p.free[..k]), multiset(pending) + held);
    }
  }

  /** Reordering the free queue keeps everybody's holdings. */
  lemma RequeueOwnership(p: Pool, free': seq<nat>, held: multiset<nat>)
    requires Holds(p, held) && multiset(free') == multiset(p.free)
    ensures Holds(p.(free := free'), held)
  {
    forall i | i in free' ensures i in p.free {
      assert i in multiset(free');
    }
  }

  lemma AppendedOwnership(p: Pool, pending: seq<nat>, e: nat, bytes: seq<byte>, held: multiset<nat>)
    requires Holds(p, multiset(pending) + held) && e <= |p.free|
    ensures InRange(p.data, pending) && InRange(p.data, p.free)
    ensures var o := Appended(p, pending, e, bytes);
            && multiset(o.pool.free) + multiset(o.pending) == multiset(p.free) + multiset(pending)
            && Holds(o.pool, multiset(o.pending) + held)
            && (forall i :: 0 <= i < |p.data| && i !in p.free && i !in pending ==> o.pool.data[i] == p.data[i])
  {
    HoldsPart(p, multiset(pending), multiset(pending) + held);
    HoldsIndices(p, pending);
    var targets := (pending + p.free[..e])[LastIndex(pending)..];
    assert InRange(p.data, targets);
    assert forall i :: i in targets ==> i in pending || i in p.free[..e];
    FreeApart(p, pending, e);
    hide Holds, PoolOk, Apart, Fill, Once, InRange, Bounded;
    FillFrame(p.data, targets, bytes, p.blockSize);
    TakenOwnership(p, e, multiset(pending) + held, Fill(p.data, targets, bytes, p.blockSize));
    TakenCount(p.free, e, pending, held);
  }

  lemma TakenCount(free: seq<nat>, e: nat, pending: seq<nat>, held: multiset<nat>)
    requires e <= |free|
    ensures multiset(pending + free[..e]) + held == multiset(free[..e]) + (multiset(pending) + held)
    ensures multiset(free[e..]) + multiset(pending + free[..e]) == multiset(free) + multiset(pending)
  {
    assert free == free[..e] + free[e..];
  }

  lemma FreeApart(p: Pool, pending: seq<nat>, e: nat)
    requires Apart(pending + p.free) && e <= |p.free|
    ensures forall i :: i in p.free[e..] ==> i !in pending && i !in p.free[..e]
  {
    var both, n := pending + p.free, |pending|;
    forall a | e <= a < |p.free| ensures p.free[a] !in pending && p.free[a] !in p.free[..e] {
      assert p.free[a] == both[n + a];
      assert forall b :: 0 <= b < e ==> p.free[b] == both[n + b];
      assert forall b :: 0 <= b < n ==> pending[b] == both[b];
    }
  }

  /** The first `e` free blocks go to the holder; the rest of the queue stays empty of bytes. */
  lemma TakenOwnership(p: Pool, e: nat, held: multiset<nat>, data': seq<seq<byte>>)
    requires Holds(p, held) && e <= |p.free|
    requires |data'| == |p.data| && Bounded(data', p.blockSize)
    requires forall i :: i in p.free[e..] && i < |p.data| ==> data'[i] == p.data[i]
    ensures Holds(p.(free := p.free[e..], data := data'), multiset(p.free[..e]) + held)
  {
    var taken, rest := p.free[..e], p.free[e..];
    assert p.free == taken + rest;
    var mine: multiset<nat> := multiset(taken);
    assert multiset(rest) + (mine + held) == multiset(p.free) + held;
    OncePart(multiset(rest), multiset(p.free) + held, |p.data|);
    forall i | i in rest ensures i < |p.data| && data'[i] == [] {
      assert i in p.free;
    }
  }

  // ---------- prepend ----------

  /** `(size + buf_size - 1) / buf_size` in 32-bit unsigned arithmetic. */
  function BlocksForPrepend(n: nat, size: nat): nat
    requires size > 0
  {
    ((n + size - 1) % U32) / size
  }

  /** Rounding up is exact while the sum fits a word; beyond that it comes out as zero blocks. */
  lemma BlocksForPrependExact(n: nat, size: nat)
    requires 0 < size < U32 && n < U32
    ensures n + size <= U32 ==> BlocksForPrepend(n, size) == Need(0, n, size)
    ensures n + size > U32 ==> BlocksForPrepend(n, size) == 0 && n > 0
  {
    var x := n + size - 1;
    if x < U32 {
      assert x % U32 == x;
      RoundUp(n, size);
    } else {
      assert x % U32 == x - U32;
      QuotientUnique(x - U32, 0, x - U32, size);
    }
  }

  lemma RoundUp(n: nat, size: nat)
    requires size > 0
    ensures (n + size - 1) / size == Need(0, n, size)
  {
    var q, r := (n + size - 1) / size, (n + size - 1) % size;
    assert n + size - 1 == q * size + r;
    NeedIsLeast(0, n, size, q);
    if q > 0 {
      NeedIsLeast(0, n, size, q - 1);
      assert (q - 1) * size == q * size - size;
    }
  }

  ghost function Prepended(p: Pool, pending: seq<nat>, e: nat, bytes: seq<byte>): Outcome
    requires InRange(p.data, p.free) && Bounded(p.data, p.blockSize) && e <= |p.free|
  {
    Outcome(true,
            p.(free := p.free[e..], data := Fill(p.data, p.free[..e], bytes, p.blockSize)),
            p.free[..e] + pending)
  }

  ghost function PrependSpec(p: Pool, pending: seq<nat>, cap: nat, bytes: seq<byte>): Outcome
    requires Holds(p, multiset(pending)) && |pending| <= cap
  {
    HoldsIndices(p, pending);
    var e := BlocksForPrepend(|bytes|, p.blockSize);
    if e <= Min(cap - |pending|, |p.free|)
    then Prepended(p, pending, e, bytes)
    else Outcome(false, p, pending)
  }

  /** A prepend of ordinary size puts exactly the caller's bytes in front, or changes nothing. */
  lemma PrependContents(p: Pool, pending: seq<nat>, cap: nat, bytes: seq<byte>)
    requires Holds(p, multiset(pending)) && |pending| <= cap
    requires p.blockSize < U32 && |bytes| + p.blockSize <= U32
    ensures InRange(p.data, pending)
    ensures var o := PrependSpec(p, pending, cap, bytes);
            && (o.ok <==> Need(0, |bytes|, p.blockSize) <= Min(cap - |pending|, |p.free|))
            && InRange(o.pool.data, o.pending)
            && Gather(o.pool.data, o.pending) == (if o.ok then bytes else []) + Gather(p.data, pending)
  {
    HoldsIndices(p, pending);
    BlocksForPrependExact(|bytes|, p.blockSize);
    var e := BlocksForPrepend(|bytes|, p.blockSize);
    if e <= Min(cap - |pending|, |p.free|) {
      RoomForAll(p, bytes);
      PrependedContents(p, pending, e, bytes);
    } else {
      NothingBefore(Gather(p.data, pending));
    }
  }

  /** While the 32-bit block count is exact, a prepend succeeds exactly when its bytes fit the blocks it may take. */
  lemma PrependFitsIff(p: Pool, pending: seq<nat>, cap: nat, bytes: seq<byte>)
    requires Holds(p, multiset(pending)) && |pending| <= cap
    requires p.blockSize < U32 && |bytes| + p.blockSize <= U32
    ensures PrependSpec(p, pending, cap, bytes).ok <==> |bytes| <= Min(cap - |pending|, |p.free|) * p.blockSize
  {
    hide PrependSpec, Need, Gather;
    PrependContents(p, pending, cap, bytes);
    NeedIsLeast(0, |bytes|, p.blockSize, Min(cap - |pending|, |p.free|));
  }

  lemma PrependedContents(p: Pool, pending: seq<nat>, e: nat, bytes: seq<byte>)
    requires Holds(p, multiset(pending)) && InRange(p.data, pending) && InRange(p.data, p.free) && e <= |p.free|
    requires |bytes| <= Room(p.data, p.free[..e], p.blockSize)
    ensures var o := Prepended(p, pending, e, bytes);
            && InRange(o.pool.data, o.pending)
            && Gather(o.pool.data, o.pending) == bytes + Gather(p.data, pending)
  {
    HoldsIndices(p, pending);
    var added := p.free[..e];
    var out := Fill(p.data, added, bytes, p.blockSize);
    FreshContents(p, e, bytes);
    assert Gather(out, pending) == Gather(p.data, pending) by {
      assert forall i :: i in pending ==> i !in added;
      FillFrame(p.data, added, bytes, p.blockSize);
      GatherFrame(p.data, out, pending);
    }
    GatherConcat(out, added, pending);
  }

  /**
    Exactly when prepend keeps its promise.  If `size + buf_size - 1` overflows 32 bits the call
    reports success and stores nothing, whatever the pool and the pending list are.
   */
  lemma PrependCorrectIff(p: Pool, pending: seq<nat>, cap: nat, bytes: seq<byte>)
    requires Holds(p, multiset(pending)) && |pending| <= cap
    requires p.blockSize < U32 && |bytes| < U32
    ensures InRange(p.data, pending)
    ensures var o := PrependSpec(p, pending, cap, bytes);
            && InRange(o.pool.data, o.pending)
            && ((Gather(o.pool.data, o.pending) == (if o.ok then bytes else []) + Gather(p.data, pending))
                <==> |bytes| + p.blockSize <= U32)
            && (|bytes| + p.blockSize > U32 ==> o == Outcome(true, p, pending))
  {
    HoldsIndices(p, pending);
    hide Fill, Holds;
    if |bytes| + p.blockSize <= U32 {
      PrependContents(p, pending, cap, bytes);
    } else {
      PrependLost(p, pending, cap, bytes);
      assert |bytes + Gather(p.data, pending)| > |Gather(p.data, pending)|;
    }
  }

  lemma PrependLost(p: Pool, pending: seq<nat>, cap: nat, bytes: seq<byte>)
    requires Holds(p, multiset(pending)) && |pending| <= cap
    requires p.blockSize < U32 && |bytes| < U32 && |bytes| + p.blockSize > U32
    ensures PrependSpec(p, pending, cap, bytes) == Outcome(true, p, pending) && |bytes| > 0
  {
    HoldsIndices(p, pending);
    BlocksForPrependExact(|bytes|, p.blockSize);
    assert p.free[..0] == [] && p.free[0..] == p.free && [] + pending == pending;
    assert Prepended(p, pending, 0, bytes) == Outcome(true, p, pending);
  }

  lemma PrependOwnership(p: Pool, pending: seq<nat>, cap: nat, bytes: seq<byte>, held: multiset<nat>)
    requires Holds(p, multiset(pending) + held) && |pending| <= cap
    ensures Holds(p, multiset(pending))
    ensures var o := PrependSpec(p, pending, cap, bytes);
            && |o.pending| <= cap && |o.pool.data| == |p.data| && o.pool.blockSize == p.blockSize
            && multiset(o.pool.free) + multiset(o.pending) == multiset(p.free) + multiset(pending)
            && Holds(o.pool, multiset(o.pending) + held)
            && (forall i :: 0 <= i < |p.data| && i !in p.free ==> o.pool.data[i] == p.data[i])
            && (!o.ok ==> o.pool == p && o.pending == pending)
  {
    HoldsPart(p, multiset(pending), multiset(pending) + held);
    HoldsIndices(p, pending);
    var e := BlocksForPrepend(|bytes|, p.blockSize);
    if e <= Min(cap - |pending|, |p.free|) {
      var out := Fill(p.data, p.free[..e], bytes, p.blockSize);
      FreeApart(p, pending, e);
      FillFrame(p.data, p.free[..e], bytes, p.blockSize);
      TakenOwnership(p, e, multiset(pending) + held, out);
      TakenCount(p.free, e, pending, held);
      assert multiset(p.free[..e] + pending) == multiset(pending + p.free[..e]);
      assert forall i :: i in p.free[..e] ==> i in p.free;
    }
  }

  // ---------- The send queue ----------

  /** The partial head offset stays inside the first block. */
  ghost predicate HeadOk(data: seq<seq<byte>>, send: seq<nat>, offset: nat) {
    && InRange(data, send)
    && (offset > 0 ==> send != [] && offset < |data[send[0]]|)
  }

  /** Bytes submitted and not yet acknowledged. */
  ghost function Unsent(data: seq<seq<byte>>, send: seq<nat>, offset: nat): seq<byte>
    requires HeadOk(data, send, offset)
  {
    if send == [] then [] else data[send[0]][offset..] + Gather(data, send[1..])
  }

  lemma UnsentIsSuffix(data: seq<seq<byte>>, send: seq<nat>, offset: nat)
    requires HeadOk(data, send, offset)
    ensures offset <= |Gather(data, send)| && Unsent(data, send, offset) == Gather(data, send)[offset..]
  {
  }

  lemma UnsentConcat(data: seq<seq<byte>>, send: seq<nat>, offset: nat, more: seq<nat>)
    requires HeadOk(data, send, offset) && InRange(data, more)
    ensures HeadOk(data, send + more, offset)
    ensures Unsent(data, send + more, offset) == Unsent(data, send, offset) + Gather(data, more)
  {
    if send == [] {
      assert send + more == more;
      UnsentIsSuffix(data, more, 0);
      assert Gather(data, more)[0..] == Gather(data, more);
    } else {
      assert (send + more)[1..] == send[1..] + more;
      GatherConcat(data, send[1..], more);
      Assoc(data[send[0]][offset..], Gather(data, send[1..]), Gather(data, more));
    }
  }

  /** The blocks of a send queue are distinct blocks of one pool, so their bytes are no more than the pool holds. */
  lemma UnsentBound(p: Pool, send: seq<nat>, offset: nat)
    requires Holds(p, multiset(send)) && HeadOk(p.data, send, offset)
    ensures |Unsent(p.data, send, offset)| <= |p.data| * p.blockSize
  {
    assert |send| <= |p.data| by {
      OncePart(multiset(send), multiset(p.free) + multiset(send), |p.data|);
      OnceAtMost(multiset(send), |p.data|);
    }
    assert |Gather(p.data, send)| <= |send| * p.blockSize by { GatherBound(p.data, send, p.blockSize); }
    UnsentIsSuffix(p.data, send, offset);
    ProductGrows(|send|, |p.data|, p.blockSize);
  }

  lemma ProductGrows(a: nat, b: nat, c: nat)
    requires a <= b
    ensures a * c <= b * c
  {
    assert b * c == a * c + (b - a) * c;
    assert (b - a) * c >= 0;
  }

  datatype Sending = Sending(pool: Pool, send: seq<nat>, offset: nat)

  ghost predicate SendOk(s: Sending) {
    HeadOk(s.pool.data, s.send, s.offset) && Apart(s.send)
  }

  ghost function UnsentOf(s: Sending): seq<byte>
    requires SendOk(s)
  {
    Unsent(s.pool.data, s.send, s.offset)
  }

  /** Bytes left in the head block. */
  ghost function Remaining(s: Sending): nat
    requires SendOk(s) && s.send != []
  {
    |s.pool.data[s.send[0]]| - s.offset
  }

  /** The head block is used up: it goes back to the pool. */
  ghost function Advance(s: Sending): (r: Sending)
    requires SendOk(s) && s.send != []
    ensures SendOk(r) && r.send == s.send[1..]
    ensures |UnsentOf(s)| == Remaining(s) + |UnsentOf(r)|
  {
    AdvanceBytes(s);
    Sending(Release(s.pool, s.send[0]), s.send[1..], 0)
  }

  /** Releasing the used-up head leaves the other blocks' bytes in place. */
  lemma AdvanceBytes(s: Sending)
    requires SendOk(s) && s.send != []
    ensures var r := Sending(Release(s.pool, s.send[0]), s.send[1..], 0);
            && SendOk(r)
            && UnsentOf(s) == s.pool.data[s.send[0]][s.offset..] + UnsentOf(r)
  {
    HeadApart(s.send);
    var r := Release(s.pool, s.send[0]);
    GatherFrame(s.pool.data, r.data, s.send[1..]);
    UnsentIsSuffix(r.data, s.send[1..], 0);
    assert Gather(r.data, s.send[1..])[0..] == Gather(r.data, s.send[1..]);
  }

  /** The head block goes back to the pool; everybody else's holdings stay. */
  lemma AdvanceOwnership(s: Sending, held: multiset<nat>)
    requires SendOk(s) && s.send != [] && Holds(s.pool, held + multiset(s.send))
    ensures s.send[0] < |s.pool.data| && Holds(s.pool, multiset{s.send[0]})
    ensures Holds(Advance(s).pool, held + multiset(s.send[1..])) && Holds(Advance(s).pool, held)
  {
    var rest := multiset(s.send[1..]);
    assert multiset(s.send) + held == held + multiset(s.send);
    FirstOfHeld(s.pool, s.send, held);
    assert rest + held == held + rest;
    HoldsPart(Release(s.pool, s.send[0]), held, held + rest);
  }

  /** `consume_written(n)`: drop acknowledged bytes, releasing each block as it is used up. */
  ghost function Consume(s: Sending, n: nat): Sending
    requires SendOk(s) && n <= |UnsentOf(s)|
    decreases |s.send|
  {
    if n == 0 then s
    else if n < Remaining(s) then s.(offset := s.offset + n)
    else Consume(Advance(s), n - Remaining(s))
  }

  lemma ConsumeNothing(s: Sending)
    requires SendOk(s)
    ensures Consume(s, 0) == s
  {
  }

  lemma ConsumeStep(s: Sending, n: nat)
    requires SendOk(s) && n <= |UnsentOf(s)| && n > 0
    ensures s.send != []
    ensures n < Remaining(s) ==> Consume(s, n) == s.(offset := s.offset + n) && SendOk(Consume(s, n))
    ensures n >= Remaining(s) ==> Consume(s, n) == Consume(Advance(s), n - Remaining(s))
  {
  }

  lemma DropInside(a: seq<byte>, at: nat, b: seq<byte>, n: nat)
    requires at + n <= |a|
    ensures (a[at..] + b)[n..] == a[at + n..] + b
  {
  }

  lemma DropBeyond(a: seq<byte>, b: seq<byte>, n: nat)
    requires |a| <= n <= |a| + |b|
    ensures (a + b)[n..] == b[n - |a|..]
  {
  }

  lemma {:induction false} ConsumeBytes(s: Sending, n: nat)
    requires SendOk(s) && n <= |UnsentOf(s)|
    ensures SendOk(Consume(s, n)) && UnsentOf(Consume(s, n)) == UnsentOf(s)[n..]
    decreases |s.send|
  {
    if n == 0 {
      assert UnsentOf(s)[0..] == UnsentOf(s);
    } else {
      ConsumeStep(s, n);
      var first := s.pool.data[s.send[0]];
      if n < Remaining(s) {
        DropInside(first, s.offset, Gather(s.pool.data, s.send[1..]), n);
      } else {
        AdvanceBytes(s);
        ConsumeBytes(Advance(s), n - Remaining(s));
        DropBeyond(first[s.offset..], UnsentOf(Advance(s)), n);
      }
    }
  }

  /**
    Acknowledging `a` bytes and then `b` is acknowledging `a + b`: same queue, same offset, same releases in the same
    order.
   */
  lemma {:induction false} ConsumeAdditive(s: Sending, a: nat, b: nat)
    requires SendOk(s) && a + b <= |UnsentOf(s)|
    ensures var r := Consume(s, a);
            SendOk(r) && b <= |UnsentOf(r)| && Consume(r, b) == Consume(s, a + b)
    decreases |s.send|
  {
    ConsumeBytes(s, a);
    if a == 0 {
    } else if b == 0 {
    } else {
      hide Consume, Unsent;
      var r := Consume(s, a);
      ConsumeStep(s, a);
      ConsumeStep(s, a + b);
      ConsumeStep(r, b);
      if a >= Remaining(s) {
        ConsumeAdditive(Advance(s), a - Remaining(s), b);
      } else {
        assert Remaining(r) == Remaining(s) - a && Advance(r) == Advance(s);
      }
    }
  }

  /** The blocks released are a prefix of the send queue, in order; the rest keep their bytes. */
  lemma {:induction false} ConsumeReleases(s: Sending, n: nat) returns (k: nat)
    requires SendOk(s) && n <= |UnsentOf(s)|
    ensures k <= |s.send| && InRange(s.pool.data, s.send[..k])
    ensures Consume(s, n).send == s.send[k..]
    ensures Consume(s, n).pool == ReleaseAll(s.pool, s.send[..k])
    decreases |s.send|
  {
    k := 0;
    if n > 0 {
      ConsumeStep(s, n);
      if n >= Remaining(s) {
        var j := ConsumeReleases(Advance(s), n - Remaining(s));
        k := j + 1;
        var taken := s.send[..k];
        assert taken[1..] == s.send[1..][..j] && taken[0] == s.send[0];
        assert s.send[1..][j..] == s.send[k..];
        ReleaseAllFirst(s.pool, taken);
      }
    }
  }

  /** Acknowledging everything returns every block if and only if the queue does not end in an empty block. */
  lemma {:induction false} ConsumeAllDrains(s: Sending)
    requires SendOk(s)
    ensures Consume(s, |UnsentOf(s)|).send == [] <==> (s.send == [] || s.pool.data[s.send[|s.send| - 1]] != [])
    decreases |s.send|
  {
    if s.send != [] {
      if |UnsentOf(s)| > 0 {
        ConsumeStep(s, |UnsentOf(s)|);
        ConsumeAllDrains(Advance(s));
        if |s.send| > 1 {
          HeadApart(s.send);
          assert s.send[1..][|s.send| - 2] == s.send[|s.send| - 1];
        }
      } else {
        UnsentIsSuffix(s.pool.data, s.send, s.offset);
        AllEmpty(s.pool.data, s.send);
      }
    }
  }

  lemma {:induction false} AllEmpty(data: seq<seq<byte>>, idxs: seq<nat>)
    requires InRange(data, idxs) && Gather(data, idxs) == []
    ensures forall k :: 0 <= k < |idxs| ==> data[idxs[k]] == []
    decreases |idxs|
  {
    if idxs != [] {
      assert |data[idxs[0]] + Gather(data, idxs[1..])| == 0;
      AllEmpty(data, idxs[1..]);
      forall k | 0 <= k < |idxs| ensures data[idxs[k]] == [] {
        if k > 0 {
          assert idxs[k] == idxs[1..][k - 1];
        }
      }
    }
  }

  function Sum(ns: seq<nat>): nat {
    if ns == [] then 0 else ns[0] + Sum(ns[1..])
  }

  ghost function ConsumeEach(s: Sending, ns: seq<nat>): Sending
    requires SendOk(s) && Sum(ns) <= |UnsentOf(s)|
    decreases |ns|
  {
    if ns == [] then s
    else
      ConsumeBytes(s, ns[0]);
      ConsumeEach(Consume(s, ns[0]), ns[1..])
  }

  /**
    However the kernel splits its acknowledgements, only their total matters; positive ones cannot outnumber the bytes.
   */
  lemma {:induction false} AnyShortWrites(s: Sending, ns: seq<nat>)
    requires SendOk(s) && Sum(ns) <= |UnsentOf(s)|
    ensures ConsumeEach(s, ns) == Consume(s, Sum(ns))
    ensures (forall k :: 0 <= k < |ns| ==> ns[k] > 0) ==> |ns| <= |UnsentOf(s)|
    decreases |ns|
  {
    if ns != [] {
      ConsumeBytes(s, ns[0]);
      AnyShortWrites(Consume(s, ns[0]), ns[1..]);
      ConsumeAdditive(s, ns[0], Sum(ns[1..]));
    }
  }

  // ---------- iovecs ----------

  /** One `iovec`: `len` bytes at offset `at` of block `block`. */
  datatype Iovec = Iovec(block: nat, at: nat, len: nat)

  /** What `peek_iovec` fills in. */
  ghost function Iovecs(data: seq<seq<byte>>, send: seq<nat>, offset: nat): (v: seq<Iovec>)
    requires HeadOk(data, send, offset)
    ensures |v| == |send|
  {
    seq(|send|, i requires 0 <= i < |send| =>
      var at := if i == 0 then offset else 0;
      Iovec(send[i], at, |data[send[i]]| - at))
  }

  ghost predicate Readable(data: seq<seq<byte>>, v: seq<Iovec>) {
    forall i :: 0 <= i < |v| ==> v[i].block < |data| && v[i].at + v[i].len <= |data[v[i].block]|
  }

  /** The bytes the kernel reads through an iovec array. */
  ghost function ReadVec(data: seq<seq<byte>>, v: seq<Iovec>): seq<byte>
    requires Readable(data, v)
  {
    if v == [] then []
    else data[v[0].block][v[0].at..v[0].at + v[0].len] + ReadVec(data, v[1..])
  }

  ghost function ReadOne(data: seq<seq<byte>>, v: Iovec): seq<byte>
    requires v.block < |data| && v.at + v.len <= |data[v.block]|
  {
    data[v.block][v.at..v.at + v.len]
  }

  lemma ReadVecFirst(data: seq<seq<byte>>, v: seq<Iovec>)
    requires Readable(data, v) && v != []
    ensures Readable(data, v[1..]) && ReadVec(data, v) == ReadOne(data, v[0]) + ReadVec(data, v[1..])
  {
  }

  /** The iovecs describe exactly the bytes not yet acknowledged. */
  lemma PeekIsUnsent(data: seq<seq<byte>>, send: seq<nat>, offset: nat)
    requires HeadOk(data, send, offset)
    ensures Readable(data, Iovecs(data, send, offset))
    ensures ReadVec(data, Iovecs(data, send, offset)) == Unsent(data, send, offset)
  {
    if send != [] {
      var v := Iovecs(data, send, offset);
      assert v[1..] == Iovecs(data, send[1..], 0);
      WholeBlocks(data, send[1..]);
    }
  }

  lemma {:induction false} WholeBlocks(data: seq<seq<byte>>, idxs: seq<nat>)
    requires InRange(data, idxs)
    ensures Readable(data, Iovecs(data, idxs, 0))
    ensures ReadVec(data, Iovecs(data, idxs, 0)) == Gather(data, idxs)
    decreases |idxs|
  {
    if idxs != [] {
      var v := Iovecs(data, idxs, 0);
      assert v[1..] == Iovecs(data, idxs[1..], 0);
      WholeBlocks(data, idxs[1..]);
      var d := data[idxs[0]];
      assert d[0..|d|] == d;
    }
  }
}
