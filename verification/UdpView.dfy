/**
  A UDP channel as the application and the kernel see it: the draft, the datagrams submitted,
  those with the kernel and those completed, by the events of the run alone.
 */
module UdpView {
  import opened Bits
  import opened Blocks
  import opened WriteSpec
  import opened UdpWorker

  datatype Post = Post(draft: seq<byte>, submitted: seq<Datagram>, out: seq<Datagram>, done: seq<Datagram>)

  ghost function PostOf(u: Udp): Post {
    Post(u.draft, u.submitted, WhatOf(u.flying), u.done)
  }

  /** Whether an event has its effect, by counting blocks, bytes, slots and requests. */
  ghost predicate Counts(u: Udp, e: Event)
    requires Inv(u)
  {
    var spare, size := Min(u.cap - |u.pending|, |u.pool.free|), u.pool.blockSize;
    match e
    case Append(bytes) =>
      if u.pending == [] then spare > 0 && |bytes| <= spare * size
      else |bytes| <= size - |u.pool.data[u.pending[|u.pending| - 1]]| + spare * size
    case Prepend(bytes) => |bytes| <= spare * size
    case Submit(_, _) => 0 < |u.pending| <= u.maxIov && u.free != []
    case Complete(k) => k < |u.flying|
  }

  /** What an event makes of it: a submit that fails discards the draft, every other event that fails does nothing. */
  function Posted(p: Post, e: Event, counts: bool): Post {
    match e
    case Append(bytes) => if counts then p.(draft := p.draft + bytes) else p
    case Prepend(bytes) => if counts then p.(draft := bytes + p.draft) else p
    case Submit(name, _) =>
      var d := Datagram(name, p.draft);
      if counts then p.(draft := [], submitted := p.submitted + [d], out := p.out + [d]) else p.(draft := [])
    case Complete(k) =>
      if counts && k < |p.out| then p.(out := p.out[..k] + p.out[k + 1..], done := p.done + [p.out[k]]) else p
  }

  lemma AppendPosts(u: Udp, e: Event)
    requires Inv(u) && e.Append?
    ensures Sound(u) && PostOf(Step(u, e)) == Posted(PostOf(u), e, Counts(u, e))
  {
    InvSound(u);
    hide AppendSpec, BlocksOwned, SlotsOwned;
    AppendFitsIff(u.pool, u.pending, u.cap, e.bytes);
  }

  lemma PrependPosts(u: Udp, e: Event)
    requires Inv(u) && e.Prepend? && Sane(e, u.pool.blockSize)
    ensures Sound(u) && PostOf(Step(u, e)) == Posted(PostOf(u), e, Counts(u, e))
  {
    InvSound(u);
    hide PrependSpec, BlocksOwned, SlotsOwned;
    PrependFitsIff(u.pool, u.pending, u.cap, e.bytes);
  }

  lemma SubmitPosts(u: Udp, e: Event)
    requires Inv(u) && e.Submit?
    ensures Sound(u) && PostOf(Step(u, e)) == Posted(PostOf(u), e, Counts(u, e))
  {
    SubmitIsTransactional(u, e.name, e.twice);
    SubmitCompletesNone(u, e.name, e.twice);
    hide SubmitStep, BlocksOwned, SlotsOwned, Sound;
    if Counts(u, e) {
      var f := Flight(u.free[0], Datagram(e.name, u.draft));
      assert WhatOf(u.flying + [f]) == WhatOf(u.flying) + [f.what];
    }
  }

  lemma SubmitCompletesNone(u: Udp, name: seq<byte>, twice: bool)
    requires Sound(u)
    ensures SubmitStep(u, name, twice).done == u.done
  {
  }

  lemma WhatWithout(fs: seq<Flight>, k: nat)
    requires k < |fs|
    ensures WhatOf(fs[..k] + fs[k + 1..]) == WhatOf(fs)[..k] + WhatOf(fs)[k + 1..]
  {
  }

  lemma CompleteRecords(u: Udp, k: nat)
    requires Sound(u)
    ensures var u' := CompleteStep(u, k);
            && u'.draft == u.draft && u'.submitted == u.submitted
            && u'.flying == (if k < |u.flying| then u.flying[..k] + u.flying[k + 1..] else u.flying)
            && (k >= |u.flying| ==> u'.done == u.done)
  {
  }

  lemma CompletePosts(u: Udp, e: Event)
    requires Inv(u) && e.Complete?
    ensures Sound(u) && PostOf(Step(u, e)) == Posted(PostOf(u), e, Counts(u, e))
  {
    hide Inv, Sound, CompleteStep, WhatOf, Undisturbed;
    CompleteKept(u, e.k);
    CompleteRecords(u, e.k);
    if e.k < |u.flying| {
      WhatWithout(u.flying, e.k);
    }
  }

  /** Every event changes draft, submitted, outstanding and completed datagrams exactly as it should. */
  lemma StepPosts(u: Udp, e: Event)
    requires Inv(u) && Sane(e, u.pool.blockSize)
    ensures Sound(u) && PostOf(Step(u, e)) == Posted(PostOf(u), e, Counts(u, e))
  {
    hide Inv, Step, Counts, PostOf, Posted;
    match e
    case Append(_) => AppendPosts(u, e);
    case Prepend(_) => PrependPosts(u, e);
    case Submit(_, _) => SubmitPosts(u, e);
    case Complete(_) => CompletePosts(u, e);
  }

  ghost function PostedAll(u: Udp, es: seq<Event>, p: Post): Post
    requires Inv(u) && AllSane(es, u.pool.blockSize)
    decreases |es|
  {
    if es == [] then p
    else
      StepInv(u, es[0]);
      PostedAll(Step(u, es[0]), es[1..], Posted(p, es[0], Counts(u, es[0])))
  }

  /**
    In every run: the draft is what the successful calls since the last submit make it, the datagrams submitted are the
    drafts at the successful submits with their destinations, in order, and the completions take datagrams from the
    outstanding ones, one each.
   */
  lemma {:induction false} RunPosts(u: Udp, es: seq<Event>)
    requires Inv(u) && AllSane(es, u.pool.blockSize)
    ensures PostOf(Exec(u, es)) == PostedAll(u, es, PostOf(u))
    decreases |es|
  {
    hide Inv, Step, Counts, PostOf, Posted;
    if es != [] {
      StepInv(u, es[0]);
      StepPosts(u, es[0]);
      RunPosts(Step(u, es[0]), es[1..]);
    }
  }
}
