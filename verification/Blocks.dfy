/**
  The value of a buffer pool: a FIFO of free block numbers and the bytes stored in each
  block.  Ownership of blocks is counted with multisets, so that "each block is in exactly
  one place" is one equation.
 */
module Blocks {

  newtype byte = x: int | 0 <= x < 256

  /** `data[i]` holds the `data_size(i)` bytes of block `i`. */
  datatype Pool = Pool(blockSize: nat, free: seq<nat>, data: seq<seq<byte>>)

  // ---------- Ownership ----------

  /** No block is counted twice and only existing blocks are counted. */
  ghost predicate Once(m: multiset<nat>, n: nat) {
    forall x: nat {:trigger m[x]} :: m[x] <= if x < n then 1 else 0
  }

  lemma OncePart(a: multiset<nat>, b: multiset<nat>, n: nat)
    requires Once(b, n) && a <= b
    ensures Once(a, n)
  {
    assert forall x {:trigger a[x]} :: a[x] <= b[x];
  }

  lemma {:induction false} OnceAtMost(m: multiset<nat>, n: nat)
    requires Once(m, n)
    ensures |m| <= n
    decreases n
  {
    if n == 0 {
      assert forall x :: x in m ==> m[x] > 0;
      assert m == multiset{};
    } else {
      var rest := m[n - 1 := 0];
      OnceAtMost(rest, n - 1);
      assert m == rest + multiset{n - 1}[n - 1 := m[n - 1]];
    }
  }

  /** Whenever somebody holds a block, the free queue has room to take it back. */
  lemma RoomToRelease(p: Pool, held: multiset<nat>, x: nat)
    requires Once(multiset(p.free) + held, |p.data|) && x in held
    ensures |p.free| < |p.data| && x < |p.data| && x !in p.free
  {
    OnceAtMost(multiset(p.free) + held, |p.data|);
    var m := multiset(p.free) + held;
    assert multiset(p.free)[x] + held[x] == m[x];
    assert |held| >= 1 by { assert held == multiset{x} + (held - multiset{x}); }
  }

  lemma OnceIndices(s: seq<nat>, n: nat)
    requires Once(multiset(s), n)
    ensures forall i :: 0 <= i < |s| ==> s[i] < n
    ensures forall i, j :: 0 <= i < j < |s| ==> s[i] != s[j]
  {
    forall i | 0 <= i < |s| ensures s[i] < n {
      assert s[i] in multiset(s);
      assert multiset(s)[s[i]] > 0;
    }
    forall i, j | 0 <= i < j < |s| ensures s[i] != s[j] {
      var a, b := s[..j], s[j..];
      assert s == a + b && a[i] == s[i] && b[0] == s[j];
      assert multiset(s)[s[j]] == multiset(a)[s[j]] + multiset(b)[s[j]];
      assert a[i] in multiset(a) && b[0] in multiset(b);
    }
  }

  lemma OnceDisjoint(s: seq<nat>, t: seq<nat>, n: nat)
    requires Once(multiset(s) + multiset(t), n)
    ensures forall x :: x in s ==> x < n && x !in t
  {
    forall x | x in s ensures x < n && x !in t {
      assert (multiset(s) + multiset(t))[x] <= 1;
      assert x in multiset(s);
      assert x in t ==> x in multiset(t);
    }
  }

  /** Blocks in the free queue hold nothing, and no block holds more than its size. */
  ghost predicate PoolOk(p: Pool) {
    && p.blockSize > 0
    && Once(multiset(p.free), |p.data|)
    && (forall i :: 0 <= i < |p.data| ==> |p.data[i]| <= p.blockSize)
    && (forall i :: i in p.free ==> i < |p.data| && p.data[i] == [])
  }

  /** `PoolOk`, and the blocks of `held` are neither free nor repeated. */
  ghost predicate Holds(p: Pool, held: multiset<nat>) {
    PoolOk(p) && Once(multiset(p.free) + held, |p.data|)
  }

  lemma HoldsPart(p: Pool, a: multiset<nat>, b: multiset<nat>)
    requires Holds(p, b) && a <= b
    ensures Holds(p, a)
  {
    OncePart(multiset(p.free) + a, multiset(p.free) + b, |p.data|);
  }

  ghost predicate InRange(data: seq<seq<byte>>, idxs: seq<nat>) {
    forall k :: 0 <= k < |idxs| ==> idxs[k] < |data|
  }

  ghost predicate Apart(s: seq<nat>) {
    forall i, j :: 0 <= i < j < |s| ==> s[i] != s[j]
  }

  /** Ownership read index by index. */
  lemma HoldsIndices(p: Pool, s: seq<nat>)
    requires Holds(p, multiset(s))
    ensures InRange(p.data, p.free) && InRange(p.data, s)
    ensures Apart(s + p.free) && Apart(p.free)
    ensures forall x :: x in s ==> x !in p.free
  {
    assert multiset(s + p.free) == multiset(p.free) + multiset(s);
    OnceIndices(s + p.free, |p.data|);
    OnceDisjoint(s, p.free, |p.data|);
    forall k | 0 <= k < |s| ensures s[k] < |p.data| {
      assert s[k] == (s + p.free)[k];
    }
    forall k | 0 <= k < |p.free| ensures p.free[k] < |p.data| {
      assert p.free[k] in p.free;
    }
    OnceIndices(p.free, |p.data|);
  }

  /** A queue with its `k`-th element taken out. */
  ghost function Without(s: seq<nat>, k: nat): seq<nat>
    requires k < |s|
  {
    s[..k] + s[k + 1..]
  }

  lemma WithoutCount(s: seq<nat>, k: nat)
    requires k < |s|
    ensures multiset(s) == multiset{s[k]} + multiset(Without(s, k))
    ensures forall i :: i in Without(s, k) ==> i in s
    ensures Apart(s) ==> s[k] !in Without(s, k)
  {
    assert s == s[..k] + ([s[k]] + s[k + 1..]);
  }

  // ---------- Several holders ----------

  /** All blocks held, holder by holder. */
  ghost function Total(hs: seq<multiset<nat>>): multiset<nat> {
    if hs == [] then multiset{} else hs[0] + Total(hs[1..])
  }

  lemma {:induction false} TotalUpdate(hs: seq<multiset<nat>>, c: nat, h: multiset<nat>)
    requires c < |hs|
    ensures Total(hs[c := h]) + hs[c] == Total(hs) + h
    ensures hs[c] <= Total(hs)
    decreases |hs|
  {
    var up := hs[c := h];
    if c == 0 {
      assert up[1..] == hs[1..];
      assert (h + Total(hs[1..])) + hs[0] == (hs[0] + Total(hs[1..])) + h;
    } else {
      TotalUpdate(hs[1..], c - 1, h);
      assert up[1..] == hs[1..][c - 1 := h];
      AddFront(hs[0], Total(up[1..]), hs[c], Total(hs[1..]), h);
    }
  }

  lemma AddFront(m: multiset<nat>, a: multiset<nat>, b: multiset<nat>, c: multiset<nat>, d: multiset<nat>)
    requires a + b == c + d
    ensures (m + a) + b == (m + c) + d
  {
    assert (m + a) + b == m + (a + b);
    assert (m + c) + d == m + (c + d);
  }

  lemma {:induction false} TotalTwo(hs: seq<multiset<nat>>, c: nat, d: nat)
    requires c < |hs| && d < |hs| && c != d
    ensures hs[c] + hs[d] <= Total(hs)
    decreases |hs|
  {
    if c == 0 {
      TotalUpdate(hs[1..], d - 1, hs[d]);
    } else if d == 0 {
      TotalUpdate(hs[1..], c - 1, hs[c]);
    } else {
      TotalTwo(hs[1..], c - 1, d - 1);
    }
  }

  lemma {:induction false} TotalNone(hs: seq<multiset<nat>>)
    requires forall i :: 0 <= i < |hs| ==> hs[i] == multiset{}
    ensures Total(hs) == multiset{}
    decreases |hs|
  {
    if hs != [] {
      TotalNone(hs[1..]);
    }
  }

  /** What one holder may assume when all blocks are accounted for. */
  lemma OneShare(p: Pool, hs: seq<multiset<nat>>, c: nat)
    requires PoolOk(p) && multiset(p.free) + Total(hs) == All(|p.data|) && c < |hs|
    ensures Total(hs) == hs[c] + (Total(hs) - hs[c])
    ensures Holds(p, hs[c] + (Total(hs) - hs[c])) && Holds(p, hs[c])
    ensures forall d :: 0 <= d < |hs| && d != c ==> hs[d] <= Total(hs) - hs[c]
  {
    TotalUpdate(hs, c, hs[c]);
    RestoreSum(Total(hs), hs[c]);
    AllOnce(|p.data|);
    hide Once, Total;
    HoldsPart(p, hs[c], hs[c] + (Total(hs) - hs[c]));
    forall d | 0 <= d < |hs| && d != c ensures hs[d] <= Total(hs) - hs[c] {
      TotalTwo(hs, c, d);
      CancelLeft(hs[c], hs[d], Total(hs) - hs[c]);
    }
  }

  lemma RestoreSum(all: multiset<nat>, part: multiset<nat>)
    requires part <= all
    ensures all == part + (all - part)
  {
  }

  lemma CancelLeft(a: multiset<nat>, b: multiset<nat>, c: multiset<nat>)
    requires a + b <= a + c
    ensures b <= c
  {
    forall x ensures b[x] <= c[x] {
      assert (a + b)[x] <= (a + c)[x];
    }
  }

  /** One holder's exchange with the free queue keeps all blocks accounted for. */
  lemma Exchange(f': multiset<nat>, m': multiset<nat>, f: multiset<nat>, m: multiset<nat>, h': multiset<nat>,
                 h: multiset<nat>)
    requires f' + m' == f + m && h' + m == h + m' && m <= h
    ensures f' + h' == f + h
  {
    forall x ensures (f' + h')[x] == (f + h)[x] {
      assert (f' + m')[x] == (f + m)[x];
      assert (h' + m)[x] == (h + m')[x];
    }
  }

  /** Blocks of one holder are in no other place. */
  lemma NotElsewhere(p: Pool, a: multiset<nat>, b: multiset<nat>, i: nat)
    requires Holds(p, a + b) && i in b
    ensures i < |p.data| && i !in p.free && i !in a
  {
    var m := multiset(p.free) + (a + b);
    assert m[i] == multiset(p.free)[i] + a[i] + b[i] <= 1;
  }

  // ---------- A new pool ----------

  ghost function Numbers(n: nat): (s: seq<nat>)
    ensures |s| == n && forall i :: 0 <= i < n ==> s[i] == i
  {
    seq(n, i => i)
  }

  /** Every block number below `n`, once. */
  ghost function All(n: nat): multiset<nat> {
    multiset(Numbers(n))
  }

  ghost function Blank(n: nat): (s: seq<seq<byte>>)
    ensures |s| == n && forall i :: 0 <= i < n ==> s[i] == []
  {
    seq(n, i => [])
  }

  ghost function FullPool(n: nat, blockSize: nat): Pool {
    Pool(blockSize, Numbers(n), Blank(n))
  }

  lemma {:induction false} AllCounts(n: nat)
    ensures forall x: nat {:trigger All(n)[x]} :: All(n)[x] == if x < n then 1 else 0
    decreases n
  {
    if n == 0 {
      assert Numbers(0) == [] && All(0) == multiset{};
    } else {
      AllCounts(n - 1);
      assert Numbers(n) == Numbers(n - 1) + [n - 1];
      assert All(n) == All(n - 1) + multiset{n - 1};
    }
  }

  lemma AllOnce(n: nat)
    ensures Once(All(n), n)
  {
    AllCounts(n);
  }

  lemma NumbersStep(n: nat)
    ensures Numbers(n) + [n] == Numbers(n + 1)
    ensures forall m: nat :: n < m ==> Once(multiset(Numbers(n)) + multiset{n}, m)
  {
    AllCounts(n);
    var a := All(n) + multiset{n};
    assert forall x {:trigger a[x]} :: a[x] == All(n)[x] + multiset{n}[x];
  }

  // ---------- Pool operations ----------

  /** `BufPool::release`: to the back of the free queue, emptied. */
  function Release(p: Pool, idx: nat): Pool
    requires idx < |p.data|
  {
    p.(free := p.free + [idx], data := p.data[idx := []])
  }

  /** The block at the front of the free queue passes to the caller. */
  lemma AcquireHolds(p: Pool, held: multiset<nat>)
    requires Holds(p, held) && p.free != []
    ensures p.free[0] < |p.data| && p.data[p.free[0]] == []
    ensures Holds(p.(free := p.free[1..]), multiset{p.free[0]} + held)
  {
    var idx, rest := p.free[0], p.free[1..];
    assert idx in p.free;
    assert p.free == [idx] + rest;
    assert multiset(rest) + (multiset{idx} + held) == multiset(p.free) + held;
    OncePart(multiset(rest), multiset(p.free) + held, |p.data|);
  }

  function ReleaseAll(p: Pool, idxs: seq<nat>): (r: Pool)
    requires InRange(p.data, idxs)
    ensures |r.data| == |p.data| && r.blockSize == p.blockSize
    decreases |idxs|
  {
    if idxs == [] then p
    else
      ReleaseAll(Release(p, idxs[0]), idxs[1..])
  }

  lemma {:induction false} ReleaseAllEffect(p: Pool, idxs: seq<nat>)
    requires InRange(p.data, idxs)
    ensures var r := ReleaseAll(p, idxs);
            && r.free == p.free + idxs
            && (forall i :: 0 <= i < |p.data| ==> r.data[i] == if i in idxs then [] else p.data[i])
    decreases |idxs|
  {
    if idxs == [] {
      assert p.free + idxs == p.free;
    } else {
      ReleaseAllEffect(Release(p, idxs[0]), idxs[1..]);
      assert (p.free + [idxs[0]]) + idxs[1..] == p.free + idxs;
      forall i ensures i in idxs <==> i == idxs[0] || i in idxs[1..] {
      }
    }
  }

  lemma {:induction false} ReleaseAllTwice(p: Pool, a: seq<nat>, b: seq<nat>)
    requires InRange(p.data, a) && InRange(p.data, b)
    ensures InRange(p.data, a + b) && ReleaseAll(ReleaseAll(p, a), b) == ReleaseAll(p, a + b)
    decreases |a|
  {
    if a == [] {
      assert a + b == b;
    } else {
      assert (a + b)[1..] == a[1..] + b;
      ReleaseAllTwice(Release(p, a[0]), a[1..], b);
    }
  }

  lemma ReleaseNone(p: Pool)
    ensures ReleaseAll(p, []) == p
  {
  }

  /** The first of several held blocks can be released, and the others stay held. */
  lemma FirstOfHeld(p: Pool, idxs: seq<nat>, held: multiset<nat>)
    requires Holds(p, multiset(idxs) + held) && idxs != []
    ensures idxs[0] < |p.data| && Holds(p, multiset{idxs[0]})
    ensures Holds(Release(p, idxs[0]), multiset(idxs[1..]) + held)
  {
    assert idxs == [idxs[0]] + idxs[1..];
    var rest := multiset(idxs[1..]) + held;
    assert multiset(idxs) + held == multiset{idxs[0]} + rest;
    HoldsPart(p, multiset{idxs[0]}, multiset(idxs) + held);
    ReleaseHolds(p, idxs[0], rest);
  }

  lemma ReleaseAllFirst(p: Pool, idxs: seq<nat>)
    requires InRange(p.data, idxs) && idxs != []
    ensures ReleaseAll(p, idxs) == ReleaseAll(Release(p, idxs[0]), idxs[1..])
  {
  }

  lemma ReleaseHolds(p: Pool, idx: nat, held: multiset<nat>)
    requires Holds(p, multiset{idx} + held)
    ensures idx < |p.data| && Holds(Release(p, idx), held)
  {
    RoomToRelease(p, multiset{idx} + held, idx);
    assert multiset(p.free + [idx]) + held == multiset(p.free) + (multiset{idx} + held);
  }

  lemma {:induction false} ReleaseAllHolds(p: Pool, idxs: seq<nat>, held: multiset<nat>)
    requires Holds(p, multiset(idxs) + held)
    ensures InRange(p.data, idxs)
    ensures Holds(ReleaseAll(p, idxs), held)
    decreases |idxs|
  {
    if idxs == [] {
      assert multiset(idxs) + held == held;
    } else {
      assert idxs == [idxs[0]] + idxs[1..];
      assert multiset(idxs) + held == multiset{idxs[0]} + (multiset(idxs[1..]) + held);
      ReleaseHolds(p, idxs[0], multiset(idxs[1..]) + held);
      ReleaseAllHolds(Release(p, idxs[0]), idxs[1..], held);
    }
  }

  // ---------- Bytes ----------

  /** The bytes of the listed blocks, in order. */
  ghost function Gather(data: seq<seq<byte>>, idxs: seq<nat>): seq<byte>
    requires InRange(data, idxs)
  {
    if idxs == [] then [] else data[idxs[0]] + Gather(data, idxs[1..])
  }

  lemma {:induction false} GatherConcat(data: seq<seq<byte>>, a: seq<nat>, b: seq<nat>)
    requires InRange(data, a) && InRange(data, b)
    ensures InRange(data, a + b)
    ensures Gather(data, a + b) == Gather(data, a) + Gather(data, b)
    decreases |a|
  {
    if a == [] {
      assert a + b == b;
    } else {
      assert (a + b)[1..] == a[1..] + b;
      GatherConcat(data, a[1..], b);
      assert data[a[0]] + (Gather(data, a[1..]) + Gather(data, b))
          == (data[a[0]] + Gather(data, a[1..])) + Gather(data, b);
    }
  }

  lemma {:induction false} GatherFrame(data: seq<seq<byte>>, data': seq<seq<byte>>, idxs: seq<nat>)
    requires InRange(data, idxs) && |data| == |data'|
    requires forall i :: i in idxs ==> data[i] == data'[i]
    ensures InRange(data', idxs)
    ensures Gather(data', idxs) == Gather(data, idxs)
    decreases |idxs|
  {
    if idxs != [] {
      assert idxs[0] in idxs;
      forall i | i in idxs[1..] ensures i in idxs {}
      GatherFrame(data, data', idxs[1..]);
    }
  }

  lemma {:induction false} GatherBound(data: seq<seq<byte>>, idxs: seq<nat>, size: nat)
    requires InRange(data, idxs)
    requires forall i :: 0 <= i < |data| ==> |data[i]| <= size
    ensures |Gather(data, idxs)| <= |idxs| * size
    decreases |idxs|
  {
    if idxs != [] {
      GatherBound(data, idxs[1..], size);
      assert |idxs| * size == (|idxs| - 1) * size + size;
    }
  }
}
