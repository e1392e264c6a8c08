/** The loop of `prepend`, on values. */
module PrependLoop {
  import opened Blocks
  import opened WriteSpec

  /** `j` of `n` blocks have been acquired and written; `rest` is still to copy. */
  ghost predicate Front(p0: Pool, n: nat, src: seq<byte>, p: Pool, j: nat, rest: seq<byte>) {
    && j <= n && j <= |p0.free|
    && p.free == p0.free[j..] && p.blockSize == p0.blockSize && |p.data| == |p0.data|
    && Bounded(p0.data, p0.blockSize) && Bounded(p.data, p.blockSize) && InRange(p0.data, p0.free)
    && (forall i :: 0 <= i < |p.data| && i !in p0.free[..j] ==> p.data[i] == p0.data[i])
    && FrontWork(p0, n, src, p, j, rest)
  }

  ghost predicate FrontWork(p0: Pool, n: nat, src: seq<byte>, p: Pool, j: nat, rest: seq<byte>)
    requires j <= n && |p.data| == |p0.data| && InRange(p0.data, p0.free)
    requires Bounded(p0.data, p0.blockSize) && Bounded(p.data, p0.blockSize)
  {
    n <= |p0.free| ==>
      Fill(p.data, p0.free[j..n], rest, p0.blockSize) == Fill(p0.data, p0.free[..n], src, p0.blockSize)
  }

  lemma FrontStart(p0: Pool, n: nat, src: seq<byte>)
    requires PoolOk(p0) && InRange(p0.data, p0.free)
    ensures Front(p0, n, src, p0, 0, src)
  {
    assert p0.free[0..] == p0.free;
    if n <= |p0.free| {
      assert p0.free[0..n] == p0.free[..n];
    }
  }

  /** One block: acquired, filled, and the source advanced. */
  lemma FrontStep(p0: Pool, n: nat, src: seq<byte>, p: Pool, j: nat, rest: seq<byte>)
    requires Front(p0, n, src, p, j, rest) && j < n && p.free != []
    requires p.free[0] < |p.data| && p.data[p.free[0]] == []
    ensures var k := Min(|rest|, p.blockSize);
            var p1 := p.(free := p.free[1..], data := p.data[p.free[0] := p.data[p.free[0]] + rest[..k]]);
            Front(p0, n, src, p1, j + 1, rest[k..])
  {
    var x := p.free[0];
    var k := Min(|rest|, p.blockSize);
    var data1 := p.data[x := p.data[x] + rest[..k]];
    assert p0.free[j + 1..] == p.free[1..];
    assert p0.free[..j + 1] == p0.free[..j] + [x];
    assert x in p0.free[..j + 1];
    if n <= |p0.free| {
      var left := p0.free[j..n];
      assert left[0] == x && left[1..] == p0.free[j + 1..n];
      assert Min(p.blockSize - |p.data[x]|, |rest|) == k;
      assert Fill(p.data, left, rest, p.blockSize) == Fill(data1, left[1..], rest[k..], p.blockSize);
    }
  }

  /** The acquired block joins those already taken; whatever is written to it concerns nobody else. */
  lemma FrontOwnership(p0: Pool, n: nat, src: seq<byte>, p: Pool, j: nat, rest: seq<byte>, pending: seq<nat>)
    requires Front(p0, n, src, p, j, rest) && p.free != []
    requires Holds(p, multiset(p0.free[..j]) + multiset(pending))
    ensures j < |p0.free| && p0.free[..j + 1] == p0.free[..j] + [p.free[0]]
    ensures p.free[0] < |p.data| && p.data[p.free[0]] == [] && p.free[0] !in p.free[1..]
    ensures forall bytes :: |bytes| <= p.blockSize ==>
              Holds(p.(free := p.free[1..], data := p.data[p.free[0] := bytes]),
                    multiset(p0.free[..j + 1]) + multiset(pending))
  {
    var x, held := p.free[0], multiset(p0.free[..j]) + multiset(pending);
    assert p0.free[j] == x;
    assert p0.free[..j + 1] == p0.free[..j] + [x];
    AcquireHolds(p, held);
    assert multiset(p0.free[..j + 1]) + multiset(pending) == multiset{x} + held;
    OnceIndices(p.free, |p.data|) by { OncePart(multiset(p.free), multiset(p.free) + held, |p.data|); }
    assert x !in p.free[1..];
  }

  lemma FrontDone(p0: Pool, n: nat, cap: nat, src: seq<byte>, p: Pool, rest: seq<byte>, pending: seq<nat>)
    requires Holds(p0, multiset(pending)) && |pending| <= cap && n == BlocksForPrepend(|src|, p0.blockSize)
    requires n <= cap - |pending|
    requires Front(p0, n, src, p, n, rest)
    ensures PrependSpec(p0, pending, cap, src) == Outcome(true, p, p0.free[..n] + pending)
  {
    assert p0.free[n..n] == [];
    assert Fill(p.data, [], rest, p0.blockSize) == p.data;
    assert p.data == Fill(p0.data, p0.free[..n], src, p0.blockSize);
  }

  /** Out of blocks: giving back what was taken, in order, restores the pool exactly. */
  lemma FrontUndone(p0: Pool, n: nat, src: seq<byte>, p: Pool, j: nat, rest: seq<byte>)
    requires PoolOk(p0) && Front(p0, n, src, p, j, rest) && p.free == []
    ensures j == |p0.free| && InRange(p.data, p0.free[..j])
    ensures ReleaseAll(p, p0.free[..j]) == p0
  {
    assert p0.free[..j] == p0.free;
    ReleaseAllEffect(p, p0.free);
    var r := ReleaseAll(p, p0.free);
    assert [] + p0.free == p0.free;
    forall i | 0 <= i < |p0.data| ensures r.data[i] == p0.data[i] {
    }
  }
}
