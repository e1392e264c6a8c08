/**
  `MsghdrPool`: message headers with a destination, an iovec count and a fixed stretch of one
  flat iovec array, and a free queue kept as a ring with 32-bit counters.  `free` and
  `slots` are its value.
 */
module MessageSlots {
  import opened Bits
  import opened Ring
  import opened Blocks
  import opened BufferPool
  import opened WriteStream
  import opened UdpWorker

  /** A header: the destination, `msg_iovlen`, and all `max_iov` entries it could use. */
  datatype Header = Header(name: seq<byte>, count: nat, iov: seq<RawIovec>)

  /** A header as `release` leaves it. */
  ghost function Zeroed(maxIov: nat): Header {
    Header(NoMessage().name, 0, seq(maxIov, i => RawIovec(0, 0)))
  }

  ghost function Stretch(iov: seq<RawIovec>, i: nat, max: nat, n: nat): (r: seq<RawIovec>)
    requires i < n && |iov| == n * max
    ensures |r| == max
  {
    BlockBounds(i, n, max);
    iov[i * max..i * max + max]
  }

  ghost function HeadersOf(names: seq<seq<byte>>, counts: seq<nat>, iov: seq<RawIovec>, max: nat): (r: seq<Header>)
    requires |names| == |counts| && |iov| == |counts| * max
    ensures |r| == |counts|
    ensures forall i :: 0 <= i < |r| ==> r[i] == Header(names[i], counts[i], Stretch(iov, i, max, |counts|))
  {
    seq(|counts|, i requires 0 <= i < |counts| => Header(names[i], counts[i], Stretch(iov, i, max, |counts|)))
  }

  /** A store into one header's stretch changes that header only. */
  lemma StretchStore(iov: seq<RawIovec>, max: nat, n: nat, i: nat, j: nat, e: RawIovec)
    requires i < n && j < max && |iov| == n * max
    ensures i * max + j < |iov|
    ensures forall k :: 0 <= k < n ==>
              Stretch(iov[i * max + j := e], k, max, n)
              == if k == i then Stretch(iov, i, max, n)[j := e] else Stretch(iov, k, max, n)
  {
    BlockBounds(i, n, max);
    var iov' := iov[i * max + j := e];
    forall k | 0 <= k < n
      ensures Stretch(iov', k, max, n) == if k == i then Stretch(iov, i, max, n)[j := e] else Stretch(iov, k, max, n)
    {
      BlockBounds(k, n, max);
      if k != i {
        BlocksApart(k, i, max);
      }
    }
  }

  class MsghdrPool {
    const capacity: nat
    const maxIov: nat
    const names: array<seq<byte>>   // the first msg_namelen bytes of each address
    const counts: array<nat>        // msg_iovlen
    const iovecs: array<RawIovec>
    const pool: array<nat>
    var head: nat
    var tail: nat
    ghost var free: seq<nat>
    ghost var slots: seq<Header>

    ghost predicate Shape()
      reads this, names, counts, iovecs, pool
    {
      && IsPow2(capacity) && maxIov > 0 && capacity < I32_LIMIT
      && names.Length == capacity && counts.Length == capacity && pool.Length == capacity
      && iovecs.Length == capacity * maxIov && pool != counts
      && RingOk(capacity, head, tail, U32)
      && free == Live(pool[..], head, tail, U32)
      && slots == HeadersOf(names[..], counts[..], iovecs[..], maxIov)
    }

    /** Free headers are distinct and zeroed; no header claims more entries than it has. */
    ghost predicate Valid()
      reads this, names, counts, iovecs, pool
    {
      && Shape() && Once(multiset(free), capacity)
      && (forall i :: i in free ==> i < capacity && slots[i] == Zeroed(maxIov))
      && (forall i :: 0 <= i < capacity ==> slots[i].count <= maxIov)
    }

    constructor (capacity: nat, maxIov: nat)
      requires capacity > 0 && And(capacity, capacity - 1) == 0 && capacity < I32_LIMIT && maxIov > 0
      ensures Valid() && this.capacity == capacity && this.maxIov == maxIov
      ensures free == Numbers(capacity) && forall i :: 0 <= i < capacity ==> slots[i] == Zeroed(maxIov)
      ensures fresh(names) && fresh(counts) && fresh(iovecs) && fresh(pool)
    {
      this.capacity := capacity;
      this.maxIov := maxIov;
      names := new seq<byte>[capacity](_ => NoMessage().name);
      counts := new nat[capacity](_ => 0);
      iovecs := new RawIovec[capacity * maxIov](_ => RawIovec(0, 0));
      pool := new nat[capacity](i => i);
      head, tail := 0, capacity;
      free := Numbers(capacity);
      slots := seq(capacity, i => Zeroed(maxIov));
      new;
      FullRing(capacity, pool[..]);
      AllOnce(capacity);
      BlankHeaders(names[..], counts[..], iovecs[..], maxIov);
    }

    method Acquire() returns (ok: bool, slot: nat)
      requires Valid()
      modifies this`head, this`free
      ensures Valid() && ok == (old(free) != [])
      ensures ok ==> slot == old(free)[0] < capacity && free == old(free)[1..] && slots[slot] == Zeroed(maxIov)
      ensures ok ==> Once(multiset(free) + multiset{slot}, capacity)
      ensures !ok ==> free == old(free)
    {
      if head == tail {
        return false, 0;
      }
      ghost var before := free;
      PopFront(pool[..], head, tail, U32);
      slot := pool[SlotOf(head, capacity)];
      assert slot in before;
      head := Inc(head, U32);
      free := free[1..];
      assert before == [slot] + free;
      assert multiset(free) + multiset{slot} == multiset(before);
      OncePart(multiset(free), multiset(before), capacity);
      return true, slot;
    }

    method SetName(slot: nat, name: seq<byte>)
      requires Valid() && slot < capacity && slot !in free
      modifies names, this`slots
      ensures Valid() && slots == old(slots)[slot := old(slots)[slot].(name := name)]
    {
      names[slot] := name;
      slots := slots[slot := slots[slot].(name := name)];
      assert slots == HeadersOf(names[..], counts[..], iovecs[..], maxIov);
    }

    method SetEntry(slot: nat, j: nat, e: RawIovec)
      requires Valid() && slot < capacity && slot !in free && j < maxIov
      modifies iovecs, this`slots
      ensures Valid() && |old(slots)[slot].iov| == maxIov
      ensures slots == old(slots)[slot := old(slots)[slot].(iov := old(slots)[slot].iov[j := e])]
    {
      ghost var before := iovecs[..];
      StretchStore(before, maxIov, capacity, slot, j, e);
      iovecs[slot * maxIov + j] := e;
      assert iovecs[..] == before[slot * maxIov + j := e];
      slots := slots[slot := slots[slot].(iov := slots[slot].iov[j := e])];
      assert slots == HeadersOf(names[..], counts[..], iovecs[..], maxIov);
    }

    method SetCount(slot: nat, n: nat)
      requires Valid() && slot < capacity && slot !in free && n <= maxIov
      modifies counts, this`slots
      ensures Valid() && slots == old(slots)[slot := old(slots)[slot].(count := n)]
    {
      counts[slot] := n;
      slots := slots[slot := slots[slot].(count := n)];
      assert slots == HeadersOf(names[..], counts[..], iovecs[..], maxIov);
    }

    /** `std::memset` over the header's stretch of the iovec array. */
    method ClearEntries(slot: nat)
      requires Valid() && slot < capacity && slot !in free
      modifies iovecs, this`slots
      ensures Valid() && slots == old(slots)[slot := old(slots)[slot].(iov := Zeroed(maxIov).iov)]
    {
      ghost var before := slots;
      for j := 0 to maxIov
        invariant Valid() && |slots| == |before| == capacity && |slots[slot].iov| == maxIov
        invariant slots == before[slot := before[slot].(iov := slots[slot].iov)]
        invariant forall k :: 0 <= k < j ==> slots[slot].iov[k] == RawIovec(0, 0)
      {
        SetEntry(slot, j, RawIovec(0, 0));
      }
      assert slots[slot].iov == Zeroed(maxIov).iov;
    }

    /** The overflow assertion of the source holds because a header in use is not in the queue. */
    method Release(slot: nat)
      requires Valid() && slot < capacity && Once(multiset(free) + multiset{slot}, capacity)
      modifies this`tail, this`free, this`slots, names, counts, iovecs, pool
      ensures Valid() && free == old(free) + [slot] && slots == old(slots)[slot := Zeroed(maxIov)]
    {
      NotFree(slot);
      assert Sub(tail, head, U32) < capacity;
      SetName(slot, NoMessage().name);
      SetCount(slot, 0);
      ClearEntries(slot);
      Push(slot);
    }

    lemma NotFree(slot: nat)
      requires Valid() && Once(multiset(free) + multiset{slot}, capacity)
      ensures slot !in free && |free| < capacity && Sub(tail, head, U32) == |free|
    {
      var m := multiset(free) + multiset{slot};
      assert m[slot] == multiset(free)[slot] + 1;
      OnceAtMost(m, capacity);
    }

    method Push(slot: nat)
      requires Valid() && slot < capacity && slots[slot] == Zeroed(maxIov)
      requires Once(multiset(free) + multiset{slot}, capacity)
      modifies this`tail, this`free, pool
      ensures Valid() && free == old(free) + [slot]
    {
      NotFree(slot);
      ghost var ring, at := pool[..], tail % capacity;
      PushBack(ring, head, tail, U32, slot);
      pool[SlotOf(tail, capacity)] := slot;
      tail := Inc(tail, U32);
      assert pool[..] == ring[at := slot];
      assert multiset(free + [slot]) == multiset(free) + multiset{slot};
      free := free + [slot];
    }
  }

  lemma FullRing(cap: nat, a: seq<nat>)
    requires cap > 0 && And(cap, cap - 1) == 0 && cap < I32_LIMIT
    requires |a| == cap && forall i :: 0 <= i < cap ==> a[i] == i
    ensures IsPow2(cap) && RingOk(cap, 0, cap, U32) && Live(a, 0, cap, U32) == Numbers(cap)
  {
    PowerOfTwoTest(cap);
    EmptyRing(cap, 0, U32);
    forall i | 0 <= i < cap ensures Place(0, i, cap) == i {
      ModUnique(i, 0, i, cap);
    }
  }

  lemma BlankHeaders(names: seq<seq<byte>>, counts: seq<nat>, iov: seq<RawIovec>, max: nat)
    requires |names| == |counts| && |iov| == |counts| * max
    requires forall i :: 0 <= i < |counts| ==> names[i] == NoMessage().name && counts[i] == 0
    requires forall i :: 0 <= i < |iov| ==> iov[i] == RawIovec(0, 0)
    ensures HeadersOf(names, counts, iov, max) == seq(|counts|, i => Zeroed(max))
  {
    forall i | 0 <= i < |counts| ensures Stretch(iov, i, max, |counts|) == Zeroed(max).iov {
      BlockBounds(i, |counts|, max);
    }
  }
}
