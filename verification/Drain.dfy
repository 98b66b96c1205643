/** Serving a kicked queue: pop, let the device handle the chain, complete it, repeat. */
module Drains {
  import opened Bytes
  import opened Memory
  import opened VirtQueues
  import opened UsedRings

  datatype Outcome = Done(written: u32) | Deferred

  /** What a device does with one chain: bytes it stores into guest memory, and
      whether the chain is finished now or will be completed later. */
  datatype Reply<D> = Reply(dev: D, writes: seq<Write>, outcome: Outcome)

  type Device<!D(!new)> = (D, Image, Chain) -> Reply<D>

  // --- What a drain takes off the queue -------------------------------------

  lemma PopTakesOne(m: Image, q: Queue)
    requires PopOf(m, q).Got?
    ensures Pending(m, q) > 0 && Pending(m, AfterPop(q, PopOf(m, q))) == Pending(m, q) - 1
  {
    hide Walk, TableOf, RingSlot, GetU16;
  }

  lemma GotLive(m: Image, q: Queue)
    requires PopOf(m, q).Got?
    ensures Live(q)
  {
    hide Walk, TableOf, RingSlot, GetU16;
  }

  lemma NothingPending(m: Image, q: Queue)
    requires Pending(m, q) == 0
    ensures PopOf(m, q).Idle?
  {
    hide Walk, TableOf, RingSlot, GetU16;
  }

  /** The chains between the device's index and the driver's, in ring order, up
      to the first malformed one; all read from the same memory. */
  function Handled(m: Image, q: Queue): seq<Chain>
    decreases Pending(m, q)
  {
    var r := PopOf(m, q);
    if !r.Got? then []
    else
      PopTakesOne(m, q);
      [r.chain] + Handled(m, AfterPop(q, r))
  }

  function AfterDrain(m: Image, q: Queue): Queue
    decreases Pending(m, q)
  {
    var r := PopOf(m, q);
    if !r.Got? then AfterPop(q, r)
    else
      PopTakesOne(m, q);
      AfterDrain(m, AfterPop(q, r))
  }

  lemma NothingHandled(m: Image, q: Queue)
    requires !PopOf(m, q).Got?
    ensures Handled(m, q) == [] && AfterDrain(m, q) == AfterPop(q, PopOf(m, q))
  {
    hide PopOf, Pending;
  }

  lemma DrainStep(m: Image, q: Queue)
    requires PopOf(m, q).Got?
    ensures AfterDrain(m, q) == AfterDrain(m, AfterPop(q, PopOf(m, q)))
  {
    hide PopOf, Pending;
  }

  function Ahead(q: Queue, k: nat): Queue {
    q.(lastAvail := (q.lastAvail + k) % 0x1_0000)
  }

  lemma AheadNext(q: Queue, k: nat)
    ensures Ahead(q.(lastAvail := Next(q.lastAvail)), k) == Ahead(q, k + 1)
  {
    var x := q.lastAvail + 1;
    if x < 0x1_0000 {
      DivMod(x, 0x1_0000, 0, x);
    } else {
      DivMod(x, 0x1_0000, 1, 0);
      var y, z := k / 0x1_0000, k % 0x1_0000;
      DivMod(0x1_0000 + k, 0x1_0000, y + 1, z);
    }
  }

  /** Chain `k` is the one at ring position `lastAvail + k`; the drain stops
      short of the driver's index only at a position that does not pop. */
  lemma {:induction false} HandledInRingOrder(m: Image, q: Queue)
    ensures var h := Handled(m, q);
            && |h| <= Pending(m, q)
            && (forall k :: 0 <= k < |h| ==> PopOf(m, Ahead(q, k)) == Got(h[k]))
            && !PopOf(m, Ahead(q, |h|)).Got?
            && AfterDrain(m, q) == AfterPop(Ahead(q, |h|), PopOf(m, Ahead(q, |h|)))
            && (|h| == Pending(m, q) ==> PopOf(m, Ahead(q, |h|)).Idle?)
    decreases Pending(m, q)
  {
    hide PopOf, Pending, Next;
    var r := PopOf(m, q);
    assert Ahead(q, 0) == q;
    if !r.Got? {
      if Pending(m, q) == 0 {
        NothingPending(m, q);
      }
    } else {
      PopTakesOne(m, q);
      var q', h := AfterPop(q, r), Handled(m, q);
      HandledInRingOrder(m, q');
      var h' := Handled(m, q');
      forall k | 0 <= k < |h|
        ensures PopOf(m, Ahead(q, k)) == Got(h[k])
      {
        if k > 0 {
          AheadNext(q, k - 1);
          assert h[k] == h'[k - 1];
        }
      }
      AheadNext(q, |h'|);
    }
  }

  // --- Memory the drain reads stays as it was --------------------------------

  ghost predicate SameQueueArea(m: Image, m': Image, q: Queue) {
    && Agree(m, m', q.desc, q.desc + DESC_SIZE * q.size)
    && Agree(m, m', q.avail, q.avail + 4 + 2 * q.size)
  }

  /** The used ring of a queue in use overlaps neither its descriptor table nor its
      available ring. */
  ghost predicate RingsApart(q: Queue) {
    Live(q) ==>
      && (UsedEnd(q) <= q.desc || q.desc + DESC_SIZE * q.size <= q.used)
      && (UsedEnd(q) <= q.avail || q.avail + 4 + 2 * q.size <= q.used)
  }

  lemma SameArea(m0: Image, m1: Image, m2: Image, q: Queue)
    ensures SameQueueArea(m0, m0, q)
    ensures SameQueueArea(m0, m1, q) && SameQueueArea(m1, m2, q) ==> SameQueueArea(m0, m2, q)
  {}

  lemma SameTable(m: Image, m': Image, desc: nat, size: nat)
    requires Agree(m, m', desc, desc + DESC_SIZE * size)
    ensures TableOf(m', desc, size) == TableOf(m, desc, size)
  {
    forall i | 0 <= i < size
      ensures DescAt(m', desc + DESC_SIZE * i) == DescAt(m, desc + DESC_SIZE * i)
    {
      var a := desc + DESC_SIZE * i;
      if a + DESC_SIZE <= |m| {
        AgreeSlice(m, m', desc, desc + DESC_SIZE * size, a, DESC_SIZE);
      }
    }
  }

  lemma SameU16(m: Image, m': Image, lo: nat, hi: nat, a: nat)
    requires Agree(m, m', lo, hi) && lo <= a && a + 2 <= hi
    ensures GetU16(m', a) == GetU16(m, a)
  {
    if a + 2 <= |m| {
      AgreeSlice(m, m', lo, hi, a, 2);
    }
  }

  lemma SamePop(m: Image, m': Image, q: Queue)
    requires SameQueueArea(m, m', q)
    ensures PopOf(m', q) == PopOf(m, q)
  {
    hide Walk, TableOf, GetU16;
    if q.size != 0 {
      SameTable(m, m', q.desc, q.size);
      SameU16(m, m', q.avail, q.avail + 4 + 2 * q.size, q.avail + 2);
      SameU16(m, m', q.avail, q.avail + 4 + 2 * q.size, RingSlot(q, q.lastAvail));
    }
  }

  lemma PushKeeps(m: Image, q: Queue, head: u16, len: u32, lo: nat, hi: nat)
    requires hi <= q.used || UsedEnd(q) <= lo
    ensures Agree(m, PushUsed(m, q, head, len), lo, hi)
  {
    hide Pushed, SlotIndex;
    if Live(q) {
      var idx := UsedIdx(m, q.used);
      PushedElsewhere(m, q.used, SlotIndex(idx, q.size), idx, head, len, lo, hi);
    }
  }

  lemma {:induction false} PlayKeeps(m: Image, q: Queue, events: seq<Event>, lo: nat, hi: nat)
    requires AllAvoid(events, lo, hi) && (hi <= q.used || UsedEnd(q) <= lo)
    ensures Agree(m, Play(m, q, events), lo, hi)
    decreases |events|
  {
    hide PushUsed, Put;
    if events != [] {
      var e := events[0];
      if e.Complete? {
        PushKeeps(m, q, e.head, e.len, lo, hi);
      } else {
        assert Avoids(e, lo, hi);
        PutAgree(m, e.w.addr, e.w.data, lo, hi);
      }
      PlayKeeps(Effect(m, q, e), q, events[1..], lo, hi);
    }
  }

  lemma PlayNothing(m: Image, q: Queue)
    ensures Play(m, q, []) == m
  {}

  lemma NoCompletions()
    ensures Completions([]) == []
  {}

  lemma {:induction false} PlayConcat(m: Image, q: Queue, a: seq<Event>, b: seq<Event>)
    ensures Play(m, q, a + b) == Play(Play(m, q, a), q, b)
    decreases |a|
  {
    if a == [] {
      assert a + b == b;
    } else {
      assert (a + b)[0] == a[0] && (a + b)[1..] == a[1..] + b;
      PlayConcat(Effect(m, q, a[0]), q, a[1..], b);
    }
  }

  // --- Serving the chains -----------------------------------------------------

  function Stores(writes: seq<Write>): (es: seq<Event>)
    ensures |es| == |writes|
  {
    seq(|writes|, i requires 0 <= i < |writes| => Store(writes[i]))
  }

  function ChainEvents<D>(r: Reply<D>, head: u16): seq<Event> {
    Stores(r.writes) + if r.outcome.Done? then [Complete(head, r.outcome.written)] else []
  }

  /** A chain is published after everything the device stored for it, and with the length
      the device reports; a deferred chain is not published. */
  lemma CompletedLast<D>(r: Reply<D>, head: u16)
    ensures var events, n := ChainEvents(r, head), |r.writes|;
            && |events| == n + (if r.outcome.Done? then 1 else 0)
            && (forall i :: 0 <= i < n ==> events[i] == Store(r.writes[i]))
            && (r.outcome.Done? ==> events[n] == Complete(head, r.outcome.written))
  {}

  /** The events of handling `chains` one after another, from memory `m`. */
  function Serve<D(!new)>(process: Device<D>, q: Queue, d: D, m: Image, chains: seq<Chain>): (D, seq<Event>)
    decreases |chains|
  {
    if chains == [] then (d, [])
    else
      var r := process(d, m, chains[0]);
      var events := ChainEvents(r, chains[0].head);
      var (d', rest) := Serve(process, q, r.dev, Play(m, q, events), chains[1..]);
      (d', events + rest)
  }

  lemma ServeCons<D(!new)>(process: Device<D>, q: Queue, d: D, m: Image, c: Chain, chains: seq<Chain>, done: seq<Event>)
    ensures var r := process(d, m, c);
            var events := ChainEvents(r, c.head);
            var rest := Serve(process, q, r.dev, Play(m, q, events), chains);
            var all := Serve(process, q, d, m, [c] + chains);
            (all.0, done + all.1) == (rest.0, done + events + rest.1)
  {
    var r := process(d, m, c);
    var events := ChainEvents(r, c.head);
    var rest := Serve(process, q, r.dev, Play(m, q, events), chains);
    assert ([c] + chains)[1..] == chains;
    assert done + (events + rest.1) == done + events + rest.1;
  }

  lemma ServeNone<D(!new)>(process: Device<D>, q: Queue, d: D, m: Image, done: seq<Event>)
    ensures Serve(process, q, d, m, []) == (d, []) && done + [] == done
  {}

  lemma {:induction false} CompletionsConcat(a: seq<Event>, b: seq<Event>)
    ensures Completions(a + b) == Completions(a) + Completions(b)
  {
    if a == [] {
      assert a + b == b;
    } else {
      assert (a + b)[0] == a[0] && (a + b)[1..] == a[1..] + b;
      CompletionsConcat(a[1..], b);
    }
  }

  lemma {:induction false} StoresCompleteNothing(writes: seq<Write>)
    ensures Completions(Stores(writes)) == []
  {
    if writes != [] {
      assert Stores(writes)[1..] == Stores(writes[1..]);
      StoresCompleteNothing(writes[1..]);
    }
  }

  lemma ChainCompletions<D>(r: Reply<D>, head: u16, done: seq<Event>)
    ensures Completions(done + ChainEvents(r, head)) ==
            Completions(done) + if r.outcome.Done? then [Entry(head, r.outcome.written)] else []
  {
    hide Stores;
    var end := if r.outcome.Done? then [Complete(head, r.outcome.written)] else [];
    CompletionsConcat(done, ChainEvents(r, head));
    CompletionsConcat(Stores(r.writes), end);
    StoresCompleteNothing(r.writes);
  }

  // --- Where a device stores ---------------------------------------------------

  ghost predicate Inside(w: Write, b: Buf) {
    b.writable && b.addr <= w.addr && w.addr + |w.data| <= b.addr + b.len
  }

  /** Whatever it is given, the device stores only into device-writable buffers of
      the chain at hand. */
  ghost predicate StoresInBuffers<D(!new)>(process: Device<D>) {
    forall d: D, m: Image, c: Chain, w: Write ::
      w in process(d, m, c).writes ==> exists b :: b in c.bufs && Inside(w, b)
  }

  /** No device-writable buffer of the chain reaches into `[lo, hi)`. */
  ghost predicate BuffersAvoid(c: Chain, lo: nat, hi: nat) {
    forall b :: b in c.bufs && b.writable ==> b.len == 0 || b.addr + b.len <= lo || hi <= b.addr
  }

  ghost predicate ChainsAvoid(chains: seq<Chain>, lo: nat, hi: nat) {
    forall c :: c in chains ==> BuffersAvoid(c, lo, hi)
  }

  /** The available chains have no device-writable buffer over the descriptor table or
      the available ring they are read from. */
  ghost predicate BuffersApart(m: Image, q: Queue) {
    && ChainsAvoid(Handled(m, q), q.desc, q.desc + DESC_SIZE * q.size)
    && ChainsAvoid(Handled(m, q), q.avail, q.avail + 4 + 2 * q.size)
  }

  lemma ChainStoresAvoid<D(!new)>(process: Device<D>, d: D, m: Image, c: Chain, lo: nat, hi: nat)
    requires StoresInBuffers(process) && BuffersAvoid(c, lo, hi)
    ensures AllAvoid(ChainEvents(process(d, m, c), c.head), lo, hi)
    ensures forall w :: w in process(d, m, c).writes ==> |w.data| < 0x1_0000_0000
  {
    var r := process(d, m, c);
    forall w | w in r.writes
      ensures Avoids(Store(w), lo, hi) && |w.data| < 0x1_0000_0000
    {
      var b :| b in c.bufs && Inside(w, b);
    }
  }

  lemma {:induction false} ServeAvoids<D(!new)>(
    process: Device<D>, q: Queue, d: D, m: Image, chains: seq<Chain>, lo: nat, hi: nat)
    requires StoresInBuffers(process) && ChainsAvoid(chains, lo, hi)
    ensures AllAvoid(Serve(process, q, d, m, chains).1, lo, hi)
    decreases |chains|
  {
    hide Play, ChainEvents, StoresInBuffers, BuffersAvoid;
    if chains != [] {
      var r := process(d, m, chains[0]);
      var events := ChainEvents(r, chains[0].head);
      ChainStoresAvoid(process, d, m, chains[0], lo, hi);
      ServeAvoids(process, q, r.dev, Play(m, q, events), chains[1..], lo, hi);
    }
  }

  /** After a drain the driver finds the completed chains in the order they were
      made available. */
  lemma DrainPublishesInOrder<D(!new)>(process: Device<D>, q: Queue, d: D, m: Image)
    requires Live(q) && UsedEnd(q) <= |m| && 0x1_0000 % q.size == 0
    requires StoresInBuffers(process) && ChainsAvoid(Handled(m, q), q.used, UsedEnd(q))
    ensures var events := Serve(process, q, d, m, Handled(m, q)).1;
            && |Play(m, q, events)| == |m|
            && Holds(RingOf(Play(m, q, events), q), RingOf(m, q).idx, Completions(events))
  {
    hide Serve, Handled, Play, RingOf, Holds, StoresInBuffers, ChainsAvoid, Completions;
    ServeAvoids(process, q, d, m, Handled(m, q), q.used, UsedEnd(q));
    UsedRingHistory(m, q, Serve(process, q, d, m, Handled(m, q)).1);
  }

  lemma ChainKeepsArea<D(!new)>(process: Device<D>, q: Queue, d: D, m: Image, c: Chain)
    requires Live(q) && StoresInBuffers(process) && RingsApart(q)
    requires BuffersAvoid(c, q.desc, q.desc + DESC_SIZE * q.size) && BuffersAvoid(c, q.avail, q.avail + 4 + 2 * q.size)
    ensures SameQueueArea(m, Play(m, q, ChainEvents(process(d, m, c), c.head)), q)
    ensures forall w :: w in process(d, m, c).writes ==> |w.data| < 0x1_0000_0000
  {
    hide Play, ChainEvents, StoresInBuffers, BuffersAvoid, AllAvoid;
    var events := ChainEvents(process(d, m, c), c.head);
    ChainStoresAvoid(process, d, m, c, q.desc, q.desc + DESC_SIZE * q.size);
    ChainStoresAvoid(process, d, m, c, q.avail, q.avail + 4 + 2 * q.size);
    PlayKeeps(m, q, events, q.desc, q.desc + DESC_SIZE * q.size);
    PlayKeeps(m, q, events, q.avail, q.avail + 4 + 2 * q.size);
  }

  /** The first available chain and the ones after it. */
  lemma ApartStep(m: Image, q: Queue)
    requires BuffersApart(m, q) && PopOf(m, q).Got?
    ensures var c := PopOf(m, q).chain;
            && BuffersAvoid(c, q.desc, q.desc + DESC_SIZE * q.size)
            && BuffersAvoid(c, q.avail, q.avail + 4 + 2 * q.size)
            && BuffersApart(m, AfterPop(q, PopOf(m, q)))
            && Handled(m, q) == [c] + Handled(m, AfterPop(q, PopOf(m, q)))
  {
    hide PopOf, BuffersAvoid, Pending;
    var c, rest := PopOf(m, q).chain, Handled(m, AfterPop(q, PopOf(m, q)));
    PopTakesOne(m, q);
    assert Handled(m, q) == [c] + rest;
    assert c in Handled(m, q) && forall x :: x in rest ==> x in Handled(m, q);
  }

  method StoreEntry(mem: GuestMemory, used: u64, s: u16, idx: u16, head: u16, len: u32)
    requires mem.Valid() && used + 12 + 8 * s < 0x1_0000_0000_0000_0000
    modifies mem.cells
    ensures mem.Image() == Pushed(old(mem.Image()), used, s, idx, head, len)
  {
    hide Put, Le4, Le2;
    var slot := used + 4 + s * 8;
    var _ := mem.WriteChecked(slot, Le4(head));
    var _ := mem.WriteChecked(slot + 4, Le4(len));
    var _ := mem.WriteChecked(used + 2, Le2((idx + 1) % 0x1_0000));
  }

  method PushUsedHead(queue: VirtQueue, mem: GuestMemory, head: u16, len: u32)
    requires mem.Valid() && Headroom(queue.Spec())
    modifies mem.cells
    ensures mem.Image() == PushUsed(old(mem.Image()), queue.Spec(), head, len)
  {
    if !(queue.enabled && queue.size != 0) {
      return;
    }
    hide Pushed, SlotIndex, UsedIdx;
    var idx := ReadUsedIdx(queue, mem);
    StoreEntry(mem, queue.used, SlotIndex(idx, queue.size), idx, head, len);
  }

  method ReadUsedIdx(queue: VirtQueue, mem: GuestMemory) returns (idx: u16)
    requires mem.Valid() && Live(queue.Spec()) && Headroom(queue.Spec())
    ensures idx == UsedIdx(mem.Image(), queue.used)
  {
    var read := mem.ReadU16Checked(queue.used + 2);
    idx := if read.Some? then read.value else 0;
  }

  /** A device's own stores, in order. */
  method StoreAll(mem: GuestMemory, writes: seq<Write>, ghost q: Queue)
    requires mem.Valid() && forall w :: w in writes ==> |w.data| < 0x1_0000_0000_0000_0000
    modifies mem.cells
    ensures mem.Image() == Play(old(mem.Image()), q, Stores(writes))
  {
    for i := 0 to |writes|
      invariant mem.Image() == Play(old(mem.Image()), q, Stores(writes[..i]))
    {
      var _ := mem.WriteChecked(writes[i].addr, writes[i].data);
      assert Stores(writes[..i + 1]) == Stores(writes[..i]) + [Store(writes[i])];
      PlayConcat(old(mem.Image()), q, Stores(writes[..i]), [Store(writes[i])]);
    }
    assert writes[..|writes|] == writes;
  }

  /** The effect of one reply on guest memory. */
  method HandleChain<D>(queue: VirtQueue, mem: GuestMemory, reply: Reply<D>, head: u16, ghost q: Queue)
    requires mem.Valid() && Headroom(queue.Spec()) && queue.Spec() == q.(lastAvail := queue.lastAvail)
    requires forall w :: w in reply.writes ==> |w.data| < 0x1_0000_0000_0000_0000
    modifies mem.cells
    ensures mem.Image() == Play(old(mem.Image()), q, ChainEvents(reply, head))
  {
    hide Stores, Put, Pushed;
    StoreAll(mem, reply.writes, q);
    if reply.outcome.Done? {
      PlayConcat(old(mem.Image()), q, Stores(reply.writes), [Complete(head, reply.outcome.written)]);
      PushUsedHead(queue, mem, head, reply.outcome.written);
    } else {
      assert ChainEvents(reply, head) == Stores(reply.writes);
    }
  }

  /** The loop reads rings and descriptors from memory that the device and the
      used ring are changing, one chain at a time; it comes to the same as reading
      all chains first and then serving them. */
  method DrainQueue<D(!new)>(wantsNotify: bool, queue: VirtQueue, mem: GuestMemory, process: Device<D>, dev: D)
    returns (d: D, processedAny: bool, ghost events: seq<Event>)
    requires mem.Valid() && Headroom(queue.Spec())
    requires StoresInBuffers(process) && RingsApart(queue.Spec()) && BuffersApart(mem.Image(), queue.Spec())
    modifies queue, mem.cells
    ensures !wantsNotify ==>
              d == dev && events == [] && queue.Spec() == old(queue.Spec())
    ensures wantsNotify ==>
              && (d, events) == Serve(process, old(queue.Spec()), dev, old(mem.Image()),
                                      Handled(old(mem.Image()), old(queue.Spec())))
              && queue.Spec() == AfterDrain(old(mem.Image()), old(queue.Spec()))
    ensures mem.Image() == Play(old(mem.Image()), old(queue.Spec()), events)
    ensures processedAny <==> Completions(events) != []
  {
    hide PopOf, Put, PushUsed, Stores, Serve, Pending, StoresInBuffers, BuffersAvoid, BuffersApart, Handled,
         AfterDrain, Play, Completions, ChainEvents, Agree, RingsApart;
    d, processedAny, events := dev, false, [];
    ghost var q0, m0 := queue.Spec(), mem.Image();
    PlayNothing(m0, q0);
    NoCompletions();
    if !wantsNotify {
      return;
    }
    SameArea(m0, m0, m0, q0);
    assert [] + Serve(process, q0, dev, m0, Handled(m0, q0)).1 == Serve(process, q0, dev, m0, Handled(m0, q0)).1;
    while true
      invariant queue.Spec() == q0.(lastAvail := queue.lastAvail)
      invariant SameQueueArea(m0, mem.Image(), q0) && BuffersApart(m0, queue.Spec())
      invariant mem.Image() == Play(m0, q0, events)
      invariant processedAny <==> Completions(events) != []
      invariant AfterDrain(m0, q0) == AfterDrain(m0, queue.Spec())
      invariant var rest := Serve(process, q0, d, mem.Image(), Handled(m0, queue.Spec()));
                Serve(process, q0, dev, m0, Handled(m0, q0)) == (rest.0, events + rest.1)
      decreases Pending(m0, queue.Spec())
    {
      ghost var q, m := queue.Spec(), mem.Image();
      SamePop(m0, m, q);
      var chain, ok := queue.TryPop(mem);
      if !ok {
        NothingHandled(m0, q);
        ServeNone(process, q0, d, m, events);
        return;
      }
      PopTakesOne(m0, q);
      GotLive(m0, q);
      ApartStep(m0, q);
      DrainStep(m0, q);
      ServeCons(process, q0, d, m, chain, Handled(m0, queue.Spec()), events);
      ChainKeepsArea(process, q0, d, m, chain);
      var reply := process(d, mem.cells[..], chain);
      ghost var done := ChainEvents(reply, chain.head);
      ChainCompletions(reply, chain.head, events);
      PlayConcat(m0, q0, events, done);
      HandleChain(queue, mem, reply, chain.head, q0);
      SameArea(m0, m, mem.Image(), q0);
      if reply.outcome.Done? {
        processedAny := true;
      }
      d := reply.dev;
      events := events + done;
    }
  }
}
