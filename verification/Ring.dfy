/**
  Fixed arrays used as rings between a head and a tail counter that wrap at word size `w`.
  `Live` is the abstract queue; the lemmas say what one array store or one counter step
  does to it, whatever the counters' values, including across their wrap-around.
 */
module Ring {
  import opened Bits

  /** `n` elements of the ring `a` starting at position `head`. */
  ghost function Window<T>(a: seq<T>, head: nat, n: nat): (r: seq<T>)
    requires |a| > 0
    ensures |r| == n
  {
    seq(n, i requires 0 <= i < n => a[Place(head, i, |a|)])
  }

  /** Counters are in range, and the occupied span fits the capacity. */
  ghost predicate RingOk(cap: nat, head: nat, tail: nat, w: nat) {
    && 0 < cap < w && w % cap == 0
    && head < w && tail < w
    && Sub(tail, head, w) <= cap
  }

  ghost function Live<T>(a: seq<T>, head: nat, tail: nat, w: nat): (r: seq<T>)
    requires RingOk(|a|, head, tail, w)
    ensures |r| == Sub(tail, head, w) <= |a|
  {
    Window(a, head, Sub(tail, head, w))
  }

  lemma LiveAt<T>(a: seq<T>, head: nat, tail: nat, w: nat, k: nat)
    requires RingOk(|a|, head, tail, w) && k < Sub(tail, head, w)
    ensures (head + k) % |a| < |a| && Live(a, head, tail, w)[k] == a[(head + k) % |a|]
  {
    assert Place(head, k, |a|) == (head + k) % |a|;
  }

  /** A capacity accepted by a constructor makes a well-formed empty ring at any counter value. */
  lemma EmptyRing(cap: nat, at: nat, w: nat)
    requires IsPow2(cap) && (w == U32 || w == U64) && cap < w && at < w
    ensures RingOk(cap, at, at, w)
  {
    WordsArePow2();
    CapacityDivides(cap, w);
    var k: nat :| Pow2(k) == cap;
  }

  lemma WindowShift<T>(a: seq<T>, h: nat, h': nat, n: nat, w: nat)
    requires |a| > 0 && w > 0 && w % |a| == 0 && h % w == h' % w
    ensures Window(a, h, n) == Window(a, h', n)
  {
    forall i | 0 <= i < n ensures Place(h, i, |a|) == Place(h', i, |a|) {
      WrapKeepsSlot(h, i, w, |a|);
      WrapKeepsSlot(h', i, w, |a|);
    }
  }

  /** The tail counter addresses the slot just past the window. */
  lemma TailSlot(cap: nat, head: nat, tail: nat, w: nat)
    requires RingOk(cap, head, tail, w)
    ensures tail % cap == (head + Sub(tail, head, w)) % cap
  {
    var n := Sub(tail, head, w);
    if tail < head {
      assert head + n == tail + w;
      WrapKeepsSlot(tail + w, 0, w, cap);
      ModUnique(tail + w, 1, tail, w);
    }
  }

  /** A store outside the window leaves the window alone. */
  lemma StoreOutside<T>(a: seq<T>, h: nat, n: nat, k: nat, x: T)
    requires |a| > 0 && n <= k < |a|
    ensures Place(h, k, |a|) < |a|
    ensures Window(a[Place(h, k, |a|) := x], h, n) == Window(a, h, n)
  {
    forall i | 0 <= i < n ensures Place(h, i, |a|) != Place(h, k, |a|) {
      SlotsDistinct(h, i, k, |a|);
    }
  }

  lemma WindowExtend<T>(a: seq<T>, h: nat, n: nat, x: T)
    requires n < |a|
    ensures Window(a[Place(h, n, |a|) := x], h, n + 1) == Window(a, h, n) + [x]
  {
    StoreOutside(a, h, n, n, x);
    var b := a[Place(h, n, |a|) := x];
    assert Window(b, h, n + 1)[..n] == Window(b, h, n);
    assert Window(b, h, n + 1) == Window(b, h, n) + [x];
  }

  lemma WindowSplit<T>(a: seq<T>, h: nat, n: nat, m: nat)
    requires |a| > 0
    ensures Window(a, h, n + m) == Window(a, h, n) + Window(a, h + n, m)
  {
    var l, r := Window(a, h, n + m), Window(a, h, n) + Window(a, h + n, m);
    forall i | 0 <= i < n + m ensures l[i] == r[i] {
      if n <= i {
        assert Place(h, i, |a|) == Place(h + n, i - n, |a|);
      }
    }
  }

  /** `a[tail++ & mask] = x` appends to the queue. */
  lemma PushBack<T>(a: seq<T>, head: nat, tail: nat, w: nat, x: T)
    requires RingOk(|a|, head, tail, w) && Sub(tail, head, w) < |a|
    ensures RingOk(|a|, head, Inc(tail, w), w)
    ensures Live(a[tail % |a| := x], head, Inc(tail, w), w) == Live(a, head, tail, w) + [x]
  {
    TailSlot(|a|, head, tail, w);
    WindowExtend(a, head, Sub(tail, head, w), x);
  }

  /** `a[head++ & mask]` removes and returns the first element. */
  lemma PopFront<T>(a: seq<T>, head: nat, tail: nat, w: nat)
    requires RingOk(|a|, head, tail, w) && head != tail
    ensures RingOk(|a|, Inc(head, w), tail, w)
    ensures Live(a, head, tail, w) != [] && a[head % |a|] == Live(a, head, tail, w)[0]
    ensures Live(a, Inc(head, w), tail, w) == Live(a, head, tail, w)[1..]
  {
    var n := Sub(tail, head, w);
    assert Sub(tail, Inc(head, w), w) == n - 1;
    WindowSplit(a, head, 1, n - 1);
    WindowShift(a, head + 1, Inc(head, w), n - 1, w) by {
      if head + 1 == w {
        ModUnique(w, 1, 0, w);
      }
      ModUnique(Inc(head, w), 0, Inc(head, w), w);
    }
    assert Window(a, head, 1 + (n - 1))[1..] == Window(a, head + 1, n - 1);
  }

  /** `a[--tail & mask]` removes and returns the last element. */
  lemma PopBack<T>(a: seq<T>, head: nat, tail: nat, w: nat)
    requires RingOk(|a|, head, tail, w) && head != tail
    ensures 1 < w && RingOk(|a|, head, Sub(tail, 1, w), w)
    ensures Live(a, head, tail, w) != []
    ensures a[Sub(tail, 1, w) % |a|] == Live(a, head, tail, w)[Sub(tail, head, w) - 1]
    ensures Live(a, head, Sub(tail, 1, w), w) == Live(a, head, tail, w)[..Sub(tail, head, w) - 1]
  {
    var n, t := Sub(tail, head, w), Sub(tail, 1, w);
    assert Sub(t, head, w) == n - 1;
    TailSlot(|a|, head, t, w);
  }

  // A block of `n` slots in front of the head, filled in ascending order before the head moves back.

  /** Moving the head back `n` places, possibly below zero, leaves room for `n` elements in front of it. */
  lemma BackUp(cap: nat, head: nat, tail: nat, w: nat, n: nat)
    requires RingOk(cap, head, tail, w) && n + Sub(tail, head, w) <= cap
    ensures n < w && RingOk(cap, Sub(head, n, w), Sub(head, n, w), w)
    ensures Sub(head, Sub(head, n, w), w) == n
  {
  }

  /** A store among those slots does not touch the queue itself. */
  lemma StoreBeforeHead<T>(a: seq<T>, head: nat, tail: nat, w: nat, n: nat, start: nat, i: nat, x: T)
    requires RingOk(|a|, head, tail, w) && n + Sub(tail, head, w) <= |a| && start < w && i < w
    requires start == Sub(head, n, w) && Sub(i, start, w) < n
    ensures Live(a[i % |a| := x], head, tail, w) == Live(a, head, tail, w)
  {
    var len, j := Sub(tail, head, w), Sub(i, start, w);
    TailSlot(|a|, start, i, w);
    HeadIsStartPlus(a, head, w, n, start, len);
    forall k | 0 <= k < len ensures Place(head, k, |a|) != i % |a| {
      SlotsDistinct(start, j, n + k, |a|);
      assert Place(start, n + k, |a|) == Place(start + n, k, |a|);
      WrapKeepsSlot(start + n, k, w, |a|);
      WrapKeepsSlot(head, k, w, |a|);
    }
  }

  lemma HeadIsStartPlus<T>(a: seq<T>, head: nat, w: nat, n: nat, start: nat, len: nat)
    requires |a| > 0 && w % |a| == 0 && head < w && n < w && start == Sub(head, n, w)
    ensures (start + n) % w == head % w
    ensures Window(a, start + n, len) == Window(a, head, len)
  {
    ModUnique(head, 0, head, w);
    if head >= n {
      ModUnique(start + n, 0, head, w);
    } else {
      ModUnique(start + n, 1, head, w);
    }
    WindowShift(a, start + n, head, len, w);
  }

  /** Moving the head over the filled slots puts their contents in front. */
  lemma PushFrontAll<T>(a: seq<T>, head: nat, tail: nat, w: nat, n: nat, start: nat)
    requires RingOk(|a|, head, tail, w) && n + Sub(tail, head, w) <= |a| && start < w && start == Sub(head, n, w)
    ensures RingOk(|a|, start, head, w) && RingOk(|a|, start, tail, w)
    ensures Live(a, start, tail, w) == Live(a, start, head, w) + Live(a, head, tail, w)
  {
    var len := Sub(tail, head, w);
    assert Sub(tail, start, w) == n + len;
    WindowSplit(a, start, n, len);
    HeadIsStartPlus(a, head, w, n, start, len);
  }
}
