/** The legacy virtio PCI transport: its register file, its queues, and what
    survives saving and restoring it. */
module LegacyTransport {
  import opened Bytes
  import opened Memory
  import opened VirtQueues
  import opened UsedRings
  import opened Drains
  import opened Deliveries
  import opened Postings
  import S = Snapshots

  const REG_HOST_FEATURES := 0x00
  const REG_GUEST_FEATURES := 0x04
  const REG_QUEUE_ADDRESS := 0x08
  const REG_QUEUE_SIZE := 0x0c
  const REG_QUEUE_SELECT := 0x0e
  const REG_QUEUE_NOTIFY := 0x10
  const REG_DEVICE_STATUS := 0x12
  const REG_ISR_STATUS := 0x13
  const DEVICE_CONFIG_START := 0x14

  datatype Regs = Regs(guestFeatures: u32, queueSelect: u16, status: u8, isr: u8, queues: seq<Queue>)

  /** The device behind the transport; `D` is its own state. */
  datatype Ops<!D(!new)> = Ops(
    hostFeatures: u32,
    readConfig: (D, nat, nat) -> seq<u8>,
    writeConfig: (D, nat, seq<u8>) -> D,
    wantsNotify: u16 -> bool,
    process: (u16, D, Image, Chain) -> Reply<D>)

  /** Transport, device and guest memory. */
  datatype System<D> = System(regs: Regs, dev: D, mem: Image)

  // --- The register file -----------------------------------------------------------

  function Zeros(n: nat): seq<u8> {
    seq(n, _ => 0)
  }

  /** The low bytes of a register, zero-filled to the access width. */
  function ReadLe(bytes: seq<u8>, n: nat): seq<u8> {
    var k := Min(n, |bytes|);
    bytes[..k] + Zeros(n - k)
  }

  function RaiseUsed(isr: u8): u8 {
    if isr % 2 == 0 then isr + 1 else isr
  }

  function SelectedQueue(r: Regs): Option<Queue> {
    if r.queueSelect < |r.queues| then Some(r.queues[r.queueSelect]) else None
  }

  function Read<D(!new)>(ops: Ops<D>, r: Regs, d: D, off: nat, n: nat): (Regs, seq<u8>) {
    var q := SelectedQueue(r);
    if off >= DEVICE_CONFIG_START then (r, ops.readConfig(d, off - DEVICE_CONFIG_START, n))
    else if off == REG_HOST_FEATURES then (r, ReadLe(Le4(ops.hostFeatures), n))
    else if off == REG_GUEST_FEATURES then (r, ReadLe(Le4(r.guestFeatures), n))
    else if off == REG_QUEUE_ADDRESS then (r, ReadLe(Le4(if q.Some? then q.value.pfn else 0), n))
    else if off == REG_QUEUE_SIZE then (r, ReadLe(Le2(if q.Some? then q.value.size else 0), n))
    else if off == REG_QUEUE_SELECT then (r, ReadLe(Le2(r.queueSelect), n))
    else if off == REG_DEVICE_STATUS then (r, ReadLe([r.status], n))
    else if off == REG_ISR_STATUS then (r.(isr := 0), ReadLe([r.isr], n)) // read-to-clear
    else (r, Zeros(n))
  }

  function Reset(q: Queue): Queue {
    WithPfn(q, 0).(lastAvail := 0)
  }

  function ResetAll(qs: seq<Queue>): (rs: seq<Queue>)
    ensures |rs| == |qs|
  {
    seq(|qs|, i requires 0 <= i < |qs| => Reset(qs[i]))
  }

  /** A register write; serving a notified queue is a separate operation. */
  function Write<D(!new)>(ops: Ops<D>, r: Regs, d: D, off: nat, data: seq<u8>): (Regs, D) {
    if off >= DEVICE_CONFIG_START then (r, ops.writeConfig(d, off - DEVICE_CONFIG_START, data))
    else if off == REG_GUEST_FEATURES && |data| == 4 then (r.(guestFeatures := FromLe4(data)), d)
    else if off == REG_QUEUE_ADDRESS && |data| == 4 && r.queueSelect < |r.queues| then
      (r.(queues := r.queues[r.queueSelect := WithPfn(r.queues[r.queueSelect], FromLe4(data))]), d)
    else if off == REG_QUEUE_SELECT && |data| == 2 then (r.(queueSelect := FromLe2(data)), d)
    else if off == REG_DEVICE_STATUS && data != [] then
      if data[0] == 0 then (r.(status := 0, queues := ResetAll(r.queues), isr := 0), d) else (r.(status := data[0]), d)
    else (r, d)
  }

  /** What the driver writes it reads back, and a page frame enables its queue. */
  lemma WrittenReadsBack<D(!new)>(ops: Ops<D>, r: Regs, d: D, data: seq<u8>)
    ensures |data| == 4 ==>
              Read(ops, Write(ops, r, d, 0x04, data).0, d, 0x04, 4).1 == data
    ensures |data| == 2 ==>
              Read(ops, Write(ops, r, d, 0x0e, data).0, d, 0x0e, 2).1 == data
    ensures |data| == 1 ==>
              Read(ops, Write(ops, r, d, 0x12, data).0, d, 0x12, 1).1 == data
    ensures |data| == 4 && SelectedQueue(r).Some? ==>
              var r' := Write(ops, r, d, 0x08, data).0;
              && Read(ops, r', d, 0x08, 4).1 == data
              && SelectedQueue(r').Some? && (SelectedQueue(r').value.enabled <==> data != [0, 0, 0, 0])
  {
    if |data| == 4 {
      FromLe4RoundTrip(data);
      assert ReadLe(data, 4) == data;
      assert FromLe4(data) == 0 ==> data == Le4(0) == [0, 0, 0, 0];
    } else if |data| == 2 {
      assert Le2(FromLe2(data)) == data;
      assert ReadLe(data, 2) == data;
    }
  }

  // --- The operations -----------------------------------------------------------------

  /** `Serve` is one turn of the loop that a notification runs on a queue, `Deliver`
      a receive delivery, `Finish` a completion that had been deferred. */
  datatype Op =
    | ReadReg(off: nat, n: nat)
    | WriteReg(off: nat, data: seq<u8>)
    | Serve(queue: u16)
    | Deliver(queue: u16, data: seq<u8>)
    | Finish(queue: u16, head: u16, len: u32, status: u8, statusAddr: u64)

  datatype Output = Nothing | Bytes(bytes: seq<u8>) | Popped(r: Pop) | Flag(b: bool)

  function Step<D(!new)>(ops: Ops<D>, s: System<D>, op: Op): (System<D>, Output) {
    var r := s.regs;
    match op
    case ReadReg(off, n) =>
      var (r', bytes) := Read(ops, r, s.dev, off, n);
      (s.(regs := r'), Bytes(bytes))
    case WriteReg(off, data) =>
      var (r', d') := Write(ops, r, s.dev, off, data);
      (s.(regs := r', dev := d'), Nothing)
    case Serve(qi) =>
      if qi >= |r.queues| || !ops.wantsNotify(qi) then (s, Nothing) else ServeOne(ops, s, qi)
    case Deliver(qi, data) =>
      if qi >= |r.queues| then (s, Flag(false))
      else
        var q := r.queues[qi];
        var r' := r.(queues := r.queues[qi := AfterPop(q, PopOf(s.mem, q))]);
        (match RxDelivered(s.mem, q, data)
         case Some(m) => (s.(regs := r'.(isr := RaiseUsed(r.isr)), mem := m), Flag(true))
         case None => (s.(regs := r'), Flag(false)))
    case Finish(_, _, _, _, _) => (System(r.(isr := RaiseUsed(r.isr)), s.dev, FinishedMem(s.mem, r.queues, op)), Nothing)
  }

  /** Memory with a deferred completion's status byte stored and its head published. */
  function FinishedMem(m: Image, queues: seq<Queue>, op: Op): Image
    requires op.Finish?
  {
    var m1 := Put(m, op.statusAddr, [op.status]);
    if op.queue < |queues| then PushUsed(m1, queues[op.queue], op.head, (op.len + 1) % 0x1_0000_0000) else m1
  }

  function ServeOne<D(!new)>(ops: Ops<D>, s: System<D>, qi: u16): (System<D>, Output)
    requires qi < |s.regs.queues|
  {
    var r, q := s.regs, s.regs.queues[qi];
    var p := PopOf(s.mem, q);
    var r' := r.(queues := r.queues[qi := AfterPop(q, p)]);
    if !p.Got? then (s.(regs := r'), Popped(p))
    else
      var reply := ops.process(qi, s.dev, s.mem, p.chain);
      var m := Play(s.mem, q, ChainEvents(reply, p.chain.head));
      (System(if reply.outcome.Done? then r'.(isr := RaiseUsed(r.isr)) else r', reply.dev, m), Popped(p))
  }

  function Run<D(!new)>(ops: Ops<D>, s: System<D>, trace: seq<Op>): (System<D>, seq<Output>)
    decreases |trace|
  {
    if trace == [] then (s, [])
    else
      var (s1, out) := Step(ops, s, trace[0]);
      var (s2, outs) := Run(ops, s1, trace[1..]);
      (s2, [out] + outs)
  }

  lemma {:induction false} RunSnoc<D(!new)>(ops: Ops<D>, s: System<D>, trace: seq<Op>, op: Op)
    ensures Run(ops, s, trace + [op]).0 == Step(ops, Run(ops, s, trace).0, op).0
    decreases |trace|
  {
    hide Step;
    if trace == [] {
      assert trace + [op] == [op] && [op][1..] == [];
    } else {
      assert (trace + [op])[1..] == trace[1..] + [op];
      RunSnoc(ops, Step(ops, s, trace[0]).0, trace[1..], op);
    }
  }

  // --- Every reachable queue has the legacy layout ---------------------------------------

  /** A queue is enabled exactly when it has a page frame, and then lies there. */
  ghost predicate QueueOk(q: Queue) {
    && (q.enabled <==> q.pfn != 0)
    && (q.enabled ==> WithPfn(q, q.pfn) == q)
  }

  ghost predicate RegsOk(r: Regs) {
    forall i :: 0 <= i < |r.queues| ==> QueueOk(r.queues[i])
  }

  function FreshRegs(sizes: seq<u16>): Regs {
    Regs(0, 0, 0, 0, seq(|sizes|, i requires 0 <= i < |sizes| => FreshQueue(sizes[i])))
  }

  lemma FreshOk(sizes: seq<u16>)
    ensures RegsOk(FreshRegs(sizes))
  {}

  lemma StepKeepsOk<D(!new)>(ops: Ops<D>, s: System<D>, op: Op)
    requires RegsOk(s.regs)
    ensures RegsOk(Step(ops, s, op).0.regs)
  {
    hide PopOf, AfterPop, Play, PushUsed, RxDelivered, Read, Write, QueueOk;
    var r := s.regs;
    match op
    case ReadReg(off, n) => ReadKeepsQueues(ops, r, s.dev, off, n);
    case WriteReg(off, data) => WriteKeepsOk(ops, r, s.dev, off, data);
    case Serve(qi) =>
      if qi < |r.queues| {
        PopKeepsOk(r.queues[qi], PopOf(s.mem, r.queues[qi]));
      }
    case Deliver(qi, data) =>
      if qi < |r.queues| {
        PopKeepsOk(r.queues[qi], PopOf(s.mem, r.queues[qi]));
      }
    case Finish(_, _, _, _, _) =>
  }

  lemma PopKeepsOk(q: Queue, p: Pop)
    requires QueueOk(q)
    ensures QueueOk(AfterPop(q, p))
  {
    hide Next;
  }

  lemma PlacedOk(q: Queue, pfn: u32)
    ensures QueueOk(WithPfn(q, pfn)) && QueueOk(Reset(q))
  {}

  lemma ReadKeepsQueues<D(!new)>(ops: Ops<D>, r: Regs, d: D, off: nat, n: nat)
    ensures Read(ops, r, d, off, n).0.queues == r.queues
  {
    hide Le4, Le2, ReadLe;
  }

  lemma WriteKeepsOk<D(!new)>(ops: Ops<D>, r: Regs, d: D, off: nat, data: seq<u8>)
    requires RegsOk(r)
    ensures RegsOk(Write(ops, r, d, off, data).0)
  {
    hide QueueOk, WithPfn, Reset, FromLe4, FromLe2;
    forall i | 0 <= i < |r.queues|
      ensures QueueOk(ResetAll(r.queues)[i])
    {
      PlacedOk(r.queues[i], 0);
    }
    if r.queueSelect < |r.queues| && |data| == 4 {
      PlacedOk(r.queues[r.queueSelect], FromLe4(data));
    }
  }

  lemma {:induction false} RunKeepsOk<D(!new)>(ops: Ops<D>, s: System<D>, trace: seq<Op>)
    requires RegsOk(s.regs)
    ensures RegsOk(Run(ops, s, trace).0.regs)
    decreases |trace|
  {
    hide Step, RegsOk;
    if trace != [] {
      StepKeepsOk(ops, s, trace[0]);
      RunKeepsOk(ops, Step(ops, s, trace[0]).0, trace[1..]);
    }
  }

  /** The three parts of an enabled queue do not overlap, and no address overflows:
      what serving a queue relies on holds of every legacy queue. */
  lemma LayoutDisjoint(q: Queue)
    requires QueueOk(q) && q.enabled
    ensures Headroom(q) && RingsApart(q)
    ensures q.desc == q.pfn * 4096 && q.avail == q.desc + DESC_SIZE * q.size
    ensures q.avail + 6 + 2 * q.size <= q.used < q.avail + 6 + 2 * q.size + 4096 && q.used % 4096 == 0
  {
    PageUp(q.avail + 6 + 2 * q.size);
  }

  /** The next page boundary at or after an address. */
  lemma PageUp(a: nat)
    ensures var up := (a + 4096 - 1) / 4096 * 4096;
            a <= up < a + 4096 && up % 4096 == 0
  {
    var k := (a + 4095) / 4096;
    DivMod(k * 4096, 4096, k, 0);
  }

  /** After any run of operations on a new device, each of its queues is enabled
      exactly when its page frame is non-zero, in the legacy layout of that frame. */
  lemma ReachableQueues<D(!new)>(ops: Ops<D>, sizes: seq<u16>, d: D, m: Image, trace: seq<Op>, i: nat)
    requires i < |Run(ops, System(FreshRegs(sizes), d, m), trace).0.regs.queues|
    ensures var q := Run(ops, System(FreshRegs(sizes), d, m), trace).0.regs.queues[i];
            && (q.enabled <==> q.pfn != 0)
            && (q.enabled ==>
                  && q.desc == q.pfn * 4096 && q.avail == q.desc + DESC_SIZE * q.size
                  && q.avail + 6 + 2 * q.size <= q.used < q.avail + 6 + 2 * q.size + 4096 && q.used % 4096 == 0)
            && Headroom(q) && RingsApart(q)
  {
    hide Run;
    RunKeepsOk(ops, System(FreshRegs(sizes), d, m), trace);
    var q := Run(ops, System(FreshRegs(sizes), d, m), trace).0.regs.queues[i];
    if q.enabled {
      LayoutDisjoint(q);
    }
  }

  // --- Saving and restoring ------------------------------------------------------------------

  function EncodeQueues(qs: seq<Queue>): seq<u8> {
    if qs == [] then [] else Le4(qs[0].pfn) + Le2(qs[0].lastAvail) + EncodeQueues(qs[1..])
  }

  function HeadBytes(r: Regs): seq<u8> {
    Le4(r.guestFeatures) + (Le2(r.queueSelect) + ([r.status] + ([r.isr] + Le4(|r.queues| % 0x1_0000_0000))))
  }

  function SaveState(r: Regs): seq<u8> {
    HeadBytes(r) + EncodeQueues(r.queues)
  }

  /** What was saved of one queue: its page frame and how far it was read. */
  function TakeQueue(bs: seq<u8>): Result<((u32, u16), seq<u8>)> {
    var (pfn, rest) :- S.Take(bs, 4);
    var (last, rest') :- S.Take(rest, 2);
    Ok(((FromLe4(pfn), FromLe2(last)), rest'))
  }

  function RestoredQueue(q: Queue, saved: (u32, u16)): Queue {
    WithPfn(q, saved.0).(lastAvail := saved.1)
  }

  function RestoreQueues(qs: seq<Queue>, bs: seq<u8>): Result<seq<Queue>>
    decreases |qs|
  {
    if qs == [] then Ok([])
    else
      var (saved, rest) :- TakeQueue(bs);
      var qs' :- RestoreQueues(qs[1..], rest);
      Ok([RestoredQueue(qs[0], saved)] + qs')
  }

  /** The registers, the number of queues saved with them, and what follows. */
  function TakeHead(bs: seq<u8>): Result<(Regs, u32, seq<u8>)> {
    var (features, rest0) :- S.Take(bs, 4);
    var (select, rest1) :- S.Take(rest0, 2);
    var (status, rest2) :- S.Take(rest1, 1);
    var (isr, rest3) :- S.Take(rest2, 1);
    var (n, rest4) :- S.Take(rest3, 4);
    Ok((Regs(FromLe4(features), FromLe2(select), status[0], isr[0], []), FromLe4(n), rest4))
  }

  function RestoreState(r: Regs, bs: seq<u8>): Result<Regs> {
    var (head, n, rest) :- TakeHead(bs);
    if n != |r.queues| then Err
    else
      var qs :- RestoreQueues(r.queues, rest);
      Ok(head.(queues := qs))
  }

  /** Equal but for the addresses a disabled queue happens to hold. */
  ghost predicate Alike(q: Queue, p: Queue) {
    && q.size == p.size && q.pfn == p.pfn && q.enabled == p.enabled && q.lastAvail == p.lastAvail
    && (q.enabled ==> q == p)
  }

  ghost predicate AlikeAll(qs: seq<Queue>, ps: seq<Queue>) {
    |qs| == |ps| && forall i :: 0 <= i < |qs| ==> Alike(qs[i], ps[i])
  }

  ghost predicate Bisimilar(r: Regs, s: Regs) {
    r == s.(queues := r.queues) && AlikeAll(r.queues, s.queues)
  }

  lemma {:induction false} QueuesRestored(qs: seq<Queue>, ps: seq<Queue>)
    requires |qs| == |ps|
    requires forall i :: 0 <= i < |qs| ==> QueueOk(qs[i]) && ps[i] == FreshQueue(qs[i].size)
    ensures RestoreQueues(ps, EncodeQueues(qs)).Ok?
    ensures AlikeAll(qs, RestoreQueues(ps, EncodeQueues(qs)).value)
    decreases |qs|
  {
    hide S.Take, Le4, Le2, FromLe4, FromLe2;
    if qs != [] {
      var tail := EncodeQueues(qs[1..]);
      var pfn, last := Le4(qs[0].pfn), Le2(qs[0].lastAvail);
      assert EncodeQueues(qs) == pfn + (last + tail);
      S.TakeFront(pfn, last + tail);
      S.TakeFront(last, tail);
      Le4RoundTrip(qs[0].pfn);
      Le2RoundTrip(qs[0].lastAvail);
      QueuesRestored(qs[1..], ps[1..]);
      var q := WithPfn(ps[0], qs[0].pfn).(lastAvail := qs[0].lastAvail);
      assert Alike(qs[0], q);
      AlikeCons(qs[0], qs[1..], q, RestoreQueues(ps[1..], tail).value);
      assert [qs[0]] + qs[1..] == qs;
    }
  }

  lemma AlikeCons(q: Queue, qs: seq<Queue>, p: Queue, ps: seq<Queue>)
    requires Alike(q, p) && AlikeAll(qs, ps)
    ensures AlikeAll([q] + qs, [p] + ps)
  {}

  /** Restoring a saved device into a new one of the same configuration. */
  lemma RestoredBisimilar(r: Regs, blank: Regs)
    requires RegsOk(r) && |r.queues| == |blank.queues| < 0x1_0000_0000
    requires forall i :: 0 <= i < |r.queues| ==> blank.queues[i] == FreshQueue(r.queues[i].size)
    ensures RestoreState(blank, SaveState(r)).Ok?
    ensures Bisimilar(r, RestoreState(blank, SaveState(r)).value)
  {
    hide TakeHead, RestoreQueues, EncodeQueues, Alike, HeadBytes;
    HeadTaken(r);
    QueuesRestored(r.queues, blank.queues);
  }

  lemma HeadTaken(r: Regs)
    requires |r.queues| < 0x1_0000_0000
    ensures TakeHead(SaveState(r)) == Ok((r.(queues := []), |r.queues|, EncodeQueues(r.queues)))
  {
    hide S.Take, Le4, Le2, FromLe4, FromLe2, EncodeQueues;
    var qs := EncodeQueues(r.queues);
    var r4 := Le4(|r.queues|) + qs;
    var r3 := [r.isr] + r4;
    var r2 := [r.status] + r3;
    var r1 := Le2(r.queueSelect) + r2;
    assert SaveState(r) == Le4(r.guestFeatures) + r1;
    S.TakeFront(Le4(r.guestFeatures), r1);
    S.TakeFront(Le2(r.queueSelect), r2);
    S.TakeFront([r.status], r3);
    S.TakeFront([r.isr], r4);
    S.TakeFront(Le4(|r.queues|), qs);
    Le4RoundTrip(r.guestFeatures);
    Le2RoundTrip(r.queueSelect);
    Le4RoundTrip(|r.queues|);
    DivMod(|r.queues|, 0x1_0000_0000, 0, |r.queues|);
  }

  // --- Nothing tells bisimilar devices apart --------------------------------------------------

  lemma AlikePop(m: Image, q: Queue, p: Queue)
    requires Alike(q, p)
    ensures PopOf(m, q) == PopOf(m, p) && Alike(AfterPop(q, PopOf(m, q)), AfterPop(p, PopOf(m, p)))
  {
    hide Walk, TableOf, RingSlot, GetU16;
  }

  lemma AlikeAt(qs: seq<Queue>, ps: seq<Queue>, i: nat, q: Queue, p: Queue)
    requires AlikeAll(qs, ps) && i < |qs| && Alike(q, p)
    ensures AlikeAll(qs[i := q], ps[i := p])
  {}

  lemma {:induction false} AlikePlay(m: Image, q: Queue, p: Queue, events: seq<Event>)
    requires Alike(q, p)
    ensures Play(m, q, events) == Play(m, p, events)
    decreases |events|
  {
    hide Put, Pushed, UsedIdx, SlotIndex;
    if events != [] {
      assert Effect(m, q, events[0]) == Effect(m, p, events[0]);
      AlikePlay(Effect(m, q, events[0]), q, p, events[1..]);
    }
  }

  lemma ResetAlike(qs: seq<Queue>, ps: seq<Queue>)
    requires AlikeAll(qs, ps)
    ensures AlikeAll(ResetAll(qs), ResetAll(ps))
  {
    forall i | 0 <= i < |qs|
      ensures Alike(ResetAll(qs)[i], ResetAll(ps)[i])
    {
      assert Alike(qs[i], ps[i]);
    }
  }

  lemma BisimilarWrite<D(!new)>(ops: Ops<D>, r: Regs, s: Regs, d: D, off: nat, data: seq<u8>)
    requires Bisimilar(r, s)
    ensures Write(ops, r, d, off, data).1 == Write(ops, s, d, off, data).1
    ensures Bisimilar(Write(ops, r, d, off, data).0, Write(ops, s, d, off, data).0)
  {
    hide FromLe4, FromLe2, ResetAll;
    ResetAlike(r.queues, s.queues);
    if r.queueSelect < |r.queues| && |data| == 4 {
      var i, pfn := r.queueSelect, FromLe4(data);
      assert Alike(r.queues[i], s.queues[i]);
      AlikeAt(r.queues, s.queues, i, WithPfn(r.queues[i], pfn), WithPfn(s.queues[i], pfn));
    }
  }

  lemma BisimilarRead<D(!new)>(ops: Ops<D>, r: Regs, s: Regs, d: D, off: nat, n: nat)
    requires Bisimilar(r, s)
    ensures Read(ops, r, d, off, n).1 == Read(ops, s, d, off, n).1
    ensures Bisimilar(Read(ops, r, d, off, n).0, Read(ops, s, d, off, n).0)
  {
    hide Le4, Le2, ReadLe;
    if r.queueSelect < |r.queues| {
      assert Alike(r.queues[r.queueSelect], s.queues[r.queueSelect]);
    }
  }

  lemma BisimilarStep<D(!new)>(ops: Ops<D>, r: Regs, s: Regs, d: D, m: Image, op: Op)
    requires Bisimilar(r, s)
    ensures var (a, x) := Step(ops, System(r, d, m), op);
            var (b, y) := Step(ops, System(s, d, m), op);
            x == y && Bisimilar(a.regs, b.regs) && a.dev == b.dev && a.mem == b.mem
  {
    hide PopOf, AfterPop, Play, PushUsed, Read, Write, Scatter, Put, Alike, Reported;
    match op
    case ReadReg(off, n) => BisimilarRead(ops, r, s, d, off, n);
    case WriteReg(off, data) => BisimilarWrite(ops, r, s, d, off, data);
    case Serve(qi) =>
      if qi < |r.queues| && ops.wantsNotify(qi) {
        var q, p := r.queues[qi], s.queues[qi];
        AlikePop(m, q, p);
        AlikeAt(r.queues, s.queues, qi, AfterPop(q, PopOf(m, q)), AfterPop(p, PopOf(m, p)));
        if PopOf(m, q).Got? {
          var c := PopOf(m, q).chain;
          AlikePlay(m, q, p, ChainEvents(ops.process(qi, d, m, c), c.head));
        }
      }
    case Deliver(qi, data) =>
      if qi < |r.queues| {
        var q, p := r.queues[qi], s.queues[qi];
        AlikePop(m, q, p);
        AlikeAt(r.queues, s.queues, qi, AfterPop(q, PopOf(m, q)), AfterPop(p, PopOf(m, p)));
        if PopOf(m, q).Got? {
          var c := PopOf(m, q).chain;
          AlikePush(Scatter(m, c.bufs, data), q, p, c.head, Reported(Min(|data|, Capacity(c.bufs))));
        }
      }
    case Finish(qi, head, len, status, a) =>
      if qi < |r.queues| {
        AlikePush(Put(m, a, [status]), r.queues[qi], s.queues[qi], head, (len + 1) % 0x1_0000_0000);
      }
  }

  lemma AlikePush(m: Image, q: Queue, p: Queue, head: u16, len: u32)
    requires Alike(q, p)
    ensures PushUsed(m, q, head, len) == PushUsed(m, p, head, len)
  {
    hide Pushed, UsedIdx, SlotIndex;
  }

  lemma {:induction false} BisimilarRun<D(!new)>(ops: Ops<D>, r: Regs, s: Regs, d: D, m: Image, trace: seq<Op>)
    requires Bisimilar(r, s)
    ensures var (a, x) := Run(ops, System(r, d, m), trace);
            var (b, y) := Run(ops, System(s, d, m), trace);
            x == y && a.dev == b.dev && a.mem == b.mem
    decreases |trace|
  {
    hide Step, Bisimilar;
    if trace != [] {
      BisimilarStep(ops, r, s, d, m, trace[0]);
      var a, b := Step(ops, System(r, d, m), trace[0]).0, Step(ops, System(s, d, m), trace[0]).0;
      BisimilarRun(ops, a.regs, b.regs, a.dev, a.mem, trace[1..]);
    }
  }

  /** A device brought to any state, saved and restored into a new one, behaves from
      then on exactly as the original: every register read, every pop, every chain's
      handling and all of guest memory are the same. */
  lemma RestoredRunsTheSame<D(!new)>(
    ops: Ops<D>, sizes: seq<u16>, d: D, m: Image, past: seq<Op>, future: seq<Op>)
    requires |sizes| < 0x1_0000_0000
    ensures var s := Run(ops, System(FreshRegs(sizes), d, m), past).0;
            var restored := RestoreState(FreshRegs(sizes), SaveState(s.regs));
            && restored.Ok?
            && var (a, x) := Run(ops, s, future);
               var (b, y) := Run(ops, System(restored.value, s.dev, s.mem), future);
               x == y && a.dev == b.dev && a.mem == b.mem
  {
    hide Run, RestoreState, SaveState, Bisimilar, RegsOk;
    FreshOk(sizes);
    RunKeepsOk(ops, System(FreshRegs(sizes), d, m), past);
    RunKeepsSizes(ops, System(FreshRegs(sizes), d, m), past);
    var s := Run(ops, System(FreshRegs(sizes), d, m), past).0;
    RestoredBisimilar(s.regs, FreshRegs(sizes));
    BisimilarRun(ops, s.regs, RestoreState(FreshRegs(sizes), SaveState(s.regs)).value, s.dev, s.mem, future);
  }

  ghost predicate SameSizes(r: Regs, s: Regs) {
    |r.queues| == |s.queues| && forall i :: 0 <= i < |r.queues| ==> r.queues[i].size == s.queues[i].size
  }

  lemma {:induction false} RunKeepsSizes<D(!new)>(ops: Ops<D>, s: System<D>, trace: seq<Op>)
    ensures SameSizes(Run(ops, s, trace).0.regs, s.regs)
    decreases |trace|
  {
    hide Step, PopOf;
    if trace != [] {
      StepKeepsSizes(ops, s, trace[0]);
      RunKeepsSizes(ops, Step(ops, s, trace[0]).0, trace[1..]);
    }
  }

  lemma StepKeepsSizes<D(!new)>(ops: Ops<D>, s: System<D>, op: Op)
    ensures SameSizes(Step(ops, s, op).0.regs, s.regs)
  {
    hide PopOf, Play, PushUsed, RxDelivered, FromLe4, FromLe2, Le4, Le2;
  }

  // --- A notification --------------------------------------------------------------------------

  /** The device as one queue sees it. */
  function DeviceAt<D(!new)>(ops: Ops<D>, qi: u16): Device<D> {
    (d: D, m: Image, c: Chain) => ops.process(qi, d, m, c)
  }

  function Turns(qi: u16, n: nat): (ops: seq<Op>)
    ensures |ops| == n
  {
    seq(n, _ => Op.Serve(qi))
  }

  /** How far the device has read does not bear on what it stores. */
  lemma {:induction false} PlayAhead(m: Image, q: Queue, i: u16, events: seq<Event>)
    ensures Play(m, q.(lastAvail := i), events) == Play(m, q, events)
    decreases |events|
  {
    hide Put, Pushed, UsedIdx, SlotIndex;
    if events != [] {
      PlayAhead(Effect(m, q, events[0]), q, i, events[1..]);
    }
  }

  lemma {:induction false} ServeAhead<D(!new)>(process: Device<D>, q: Queue, i: u16, d: D, m: Image, chains: seq<Chain>)
    ensures Drains.Serve(process, q.(lastAvail := i), d, m, chains) == Drains.Serve(process, q, d, m, chains)
    decreases |chains|
  {
    if chains != [] {
      var r := process(d, m, chains[0]);
      var events := ChainEvents(r, chains[0].head);
      PlayAhead(m, q, i, events);
      ServeAhead(process, q, i, r.dev, Play(m, q, events), chains[1..]);
    }
  }

  /** The machine after a register write other than a notification. */
  function Written<D(!new)>(ops: Ops<D>, s: System<D>, off: nat, data: seq<u8>): System<D> {
    var (r, d) := Write(ops, s.regs, s.dev, off, data);
    System(r, d, s.mem)
  }

  /** What draining a queue does, its chains read from `m0`. */
  ghost function DrainEvents<D(!new)>(ops: Ops<D>, s: System<D>, qi: u16, m0: Image): seq<Event>
    requires qi < |s.regs.queues|
  {
    Drains.Serve(DeviceAt(ops, qi), s.regs.queues[qi], s.dev, s.mem, Handled(m0, s.regs.queues[qi])).1
  }

  /** The machine once a notified queue has been drained, its chains read from `m0`. */
  ghost function Drained<D(!new)>(ops: Ops<D>, s: System<D>, qi: u16, m0: Image): System<D>
    requires qi < |s.regs.queues|
  {
    var r, q := s.regs, s.regs.queues[qi];
    var (d, events) := Drains.Serve(DeviceAt(ops, qi), q, s.dev, s.mem, Handled(m0, q));
    System(r.(queues := r.queues[qi := AfterDrain(m0, q)],
              isr := if Completions(events) == [] then r.isr else RaiseUsed(r.isr)),
           d, Play(s.mem, q, events))
  }

  /** Serving the first chain and draining what is left is draining the lot. */
  lemma DrainedStep<D(!new)>(ops: Ops<D>, s: System<D>, qi: u16, m0: Image)
    requires qi < |s.regs.queues| && PopOf(m0, s.regs.queues[qi]).Got?
    requires PopOf(s.mem, s.regs.queues[qi]) == PopOf(m0, s.regs.queues[qi])
    ensures |ServeOne(ops, s, qi).0.regs.queues| == |s.regs.queues|
    ensures Drained(ops, ServeOne(ops, s, qi).0, qi, m0) == Drained(ops, s, qi, m0)
  {
    hide PopOf, Play, Completions, ChainEvents;
    var r, q := s.regs, s.regs.queues[qi];
    var p := PopOf(m0, q);
    var c := p.chain;
    PopTakesOne(m0, q);
    var q', s' := AfterPop(q, p), ServeOne(ops, s, qi).0;
    var process := DeviceAt(ops, qi);
    var reply := process(s.dev, s.mem, c);
    var events := ChainEvents(reply, c.head);
    var rest := Handled(m0, q');
    ServeCons(process, q, s.dev, s.mem, c, rest, []);
    ServeAhead(process, q, q'.lastAvail, reply.dev, Play(s.mem, q, events), rest);
    var (d, more) := Drains.Serve(process, q, reply.dev, Play(s.mem, q, events), rest);
    assert Handled(m0, q) == [c] + rest;
    assert Drains.Serve(process, q, s.dev, s.mem, [c] + rest) == (d, events + more) by {
      var all := Drains.Serve(process, q, s.dev, s.mem, [c] + rest);
      assert [] + all.1 == all.1 && [] + events + more == events + more;
    }
    PlayConcat(s.mem, q, events, more);
    PlayAhead(Play(s.mem, q, events), q, q'.lastAvail, more);
    CompletionsConcat(events, more);
    ChainCompletions(reply, c.head, []);
    assert [] + events == events;
    assert Completions([]) == [] by { NoCompletions(); }
    assert r.queues[qi := q'][qi := AfterDrain(m0, q)] == r.queues[qi := AfterDrain(m0, q)];
  }

  /** A notification drains its queue, and the drain is so many turns: for a device that
      stores into its chains' buffers, and buffers that lie apart from the rings, serving
      one chain more than there are to handle leaves what the drain leaves, the interrupt
      status included. */
  lemma {:induction false} NotifyIsTurns<D(!new)>(ops: Ops<D>, s: System<D>, qi: u16, m0: Image)
    requires qi < |s.regs.queues| && ops.wantsNotify(qi)
    requires StoresInBuffers(DeviceAt(ops, qi)) && RingsApart(s.regs.queues[qi])
    requires SameQueueArea(m0, s.mem, s.regs.queues[qi]) && BuffersApart(m0, s.regs.queues[qi])
    ensures Run(ops, s, Turns(qi, |Handled(m0, s.regs.queues[qi])| + 1)).0 == Drained(ops, s, qi, m0)
    decreases Pending(m0, s.regs.queues[qi])
  {
    hide Handled, Drained, PopOf, Pending, StoresInBuffers, BuffersApart, RingsApart, SameQueueArea;
    var q := s.regs.queues[qi];
    SamePop(m0, s.mem, q);
    var n, s' := |Handled(m0, q)|, ServeOne(ops, s, qi).0;
    assert Turns(qi, n + 1)[1..] == Turns(qi, n);
    assert Run(ops, s, Turns(qi, n + 1)).0 == Run(ops, s', Turns(qi, n)).0;
    if PopOf(m0, q).Got? {
      PopTakesOne(m0, q);
      NextTurn(ops, s, qi, m0);
      DrainedStep(ops, s, qi, m0);
      NotifyIsTurns(ops, s', qi, m0);
    } else {
      LastTurn(ops, s, qi, m0);
    }
  }

  lemma LastTurn<D(!new)>(ops: Ops<D>, s: System<D>, qi: u16, m0: Image)
    requires qi < |s.regs.queues| && !PopOf(m0, s.regs.queues[qi]).Got?
    requires PopOf(s.mem, s.regs.queues[qi]) == PopOf(m0, s.regs.queues[qi])
    ensures Handled(m0, s.regs.queues[qi]) == [] && ServeOne(ops, s, qi).0 == Drained(ops, s, qi, m0)
  {
    hide PopOf;
  }

  /** What a turn relies on holds again after it. */
  lemma NextTurn<D(!new)>(ops: Ops<D>, s: System<D>, qi: u16, m0: Image)
    requires qi < |s.regs.queues| && PopOf(m0, s.regs.queues[qi]).Got?
    requires PopOf(s.mem, s.regs.queues[qi]) == PopOf(m0, s.regs.queues[qi])
    requires StoresInBuffers(DeviceAt(ops, qi)) && RingsApart(s.regs.queues[qi])
    requires SameQueueArea(m0, s.mem, s.regs.queues[qi]) && BuffersApart(m0, s.regs.queues[qi])
    ensures var q, s' := s.regs.queues[qi], ServeOne(ops, s, qi).0;
            && qi < |s'.regs.queues| && s'.regs.queues[qi] == AfterPop(q, PopOf(m0, q))
            && RingsApart(s'.regs.queues[qi]) && BuffersApart(m0, s'.regs.queues[qi])
            && SameQueueArea(m0, s'.mem, s'.regs.queues[qi])
            && |Handled(m0, q)| == 1 + |Handled(m0, s'.regs.queues[qi])|
  {
    hide PopOf, Play, ChainEvents, StoresInBuffers, BuffersAvoid, BuffersApart, Handled;
    var q := s.regs.queues[qi];
    GotLive(m0, q);
    ApartStep(m0, q);
    ChainKeepsArea(DeviceAt(ops, qi), q, s.dev, s.mem, PopOf(m0, q).chain);
  }

  // --- What the driver relies on ---------------------------------------------------------------

  /** The register file by offset, at its natural widths. */
  lemma RegisterMap<D(!new)>(ops: Ops<D>, r: Regs, d: D)
    ensures Read(ops, r, d, 0x00, 4) == (r, Le4(ops.hostFeatures))
    ensures Read(ops, r, d, 0x04, 4) == (r, Le4(r.guestFeatures))
    ensures Read(ops, r, d, 0x0c, 2) == (r, Le2(if r.queueSelect < |r.queues| then r.queues[r.queueSelect].size else 0))
    ensures Read(ops, r, d, 0x08, 4) == (r, Le4(if r.queueSelect < |r.queues| then r.queues[r.queueSelect].pfn else 0))
    ensures Read(ops, r, d, 0x0e, 2) == (r, Le2(r.queueSelect)) && Read(ops, r, d, 0x12, 1) == (r, [r.status])
    ensures Read(ops, r, d, 0x13, 1) == (r.(isr := 0), [r.isr])
    ensures forall off: nat, n: nat :: Read(ops, r, d, 0x14 + off, n) == (r, ops.readConfig(d, off, n))
  {
    hide Le4, Le2;
    FullWidth(Le4(ops.hostFeatures));
    FullWidth(Le4(r.guestFeatures));
    FullWidth(Le2(r.queueSelect));
    FullWidth([r.status]);
    FullWidth([r.isr]);
    var q := SelectedQueue(r);
    FullWidth(Le2(if q.Some? then q.value.size else 0));
    FullWidth(Le4(if q.Some? then q.value.pfn else 0));
  }

  lemma FullWidth(bs: seq<u8>)
    ensures ReadLe(bs, |bs|) == bs
  {}

  /** A narrower access reads the low bytes of a register, a wider one zeros after them. */
  lemma OtherWidths(bs: seq<u8>, n: nat)
    ensures |ReadLe(bs, n)| == n
    ensures forall j :: 0 <= j < n ==> ReadLe(bs, n)[j] == if j < |bs| then bs[j] else 0
  {}

  /** After any run the queue-size register still shows the configured size. */
  lemma SizesShown<D(!new)>(ops: Ops<D>, sizes: seq<u16>, d: D, m: Image, past: seq<Op>)
    ensures var s := Run(ops, System(FreshRegs(sizes), d, m), past).0;
            Read(ops, s.regs, s.dev, 0x0c, 2).1 == Le2(if s.regs.queueSelect < |sizes| then sizes[s.regs.queueSelect] else 0)
  {
    hide Run, Read, Le2;
    var s := Run(ops, System(FreshRegs(sizes), d, m), past).0;
    RunKeepsSizes(ops, System(FreshRegs(sizes), d, m), past);
    RegisterMap(ops, s.regs, s.dev);
  }

  /** A notification that completed a chain shows in the interrupt status, until it is read. */
  lemma CompletionShows<D(!new)>(ops: Ops<D>, s: System<D>, qi: u16, d: D)
    requires qi < |s.regs.queues| && Completions(DrainEvents(ops, s, qi, s.mem)) != []
    ensures var r := Drained(ops, s, qi, s.mem).regs;
            var (r1, first) := Read(ops, r, d, 0x13, 1);
            var (r2, second) := Read(ops, r1, d, 0x13, 1);
            |first| == 1 && first[0] % 2 == 1 && second == [0]
  {
    hide Drains.Serve, Completions, Play, Handled, AfterDrain, Read;
    var r := Drained(ops, s, qi, s.mem).regs;
    RegisterMap(ops, r, d);
    RegisterMap(ops, r.(isr := 0), d);
  }

  /** Writing status 0 starts the device over: given a page frame, each queue is then what
      it would be on a new device. */
  lemma ResetStartsOver<D(!new)>(ops: Ops<D>, r: Regs, d: D, i: nat, pfn: u32)
    requires i < |r.queues| && pfn != 0
    ensures var r' := Write(ops, r, d, 0x12, [0]).0;
            && r'.status == 0 && r'.isr == 0 && |r'.queues| == |r.queues|
            && !r'.queues[i].enabled && WithPfn(r'.queues[i], pfn) == WithPfn(FreshQueue(r.queues[i].size), pfn)
  {}

  lemma PlacedFresh(size: u16, pfn: u32)
    requires pfn != 0
    ensures var q := WithPfn(FreshQueue(size), pfn);
            q.enabled && q.size == size && q.lastAvail == 0
  {}

  /** So a driver that starts at index 0 after a reset has its first chain popped. */
  lemma FirstChainAfterReset<D(!new)>(
    ops: Ops<D>, r: Regs, d: D, i: nat, pfn: u32, m: Image, idx: u16, path: seq<u16>, bufs: seq<Buf>)
    requires i < |r.queues| && r.queues[i].size != 0 && pfn != 0 && idx != 0
    requires var q := WithPfn(FreshQueue(r.queues[i].size), pfn);
             && ChainPosted(m, q.desc, q.size, path, bufs)
             && HoldsAt(m, q.avail + 2, Le2(idx)) && HoldsAt(m, q.avail + 4, Le2(path[0]))
    requires (forall b :: b in bufs ==> b.addr + b.len <= |m|) && TotalLen(bufs) <= |m|
    ensures |Write(ops, r, d, 0x12, [0]).0.queues| == |r.queues|
    ensures PopOf(m, WithPfn(Write(ops, r, d, 0x12, [0]).0.queues[i], pfn)) == Got(Chain(path[0], bufs))
  {
    hide ChainPosted, HoldsAt, PopOf, Write, TotalLen, Le2, WithPfn;
    ResetStartsOver(ops, r, d, i, pfn);
    PlacedFresh(r.queues[i].size, pfn);
    PopsFirst(m, WithPfn(FreshQueue(r.queues[i].size), pfn), idx, path, bufs);
  }

  /** A delivery that found a chain shows in the interrupt status, and leaves in memory what
      `RxDelivered` says; one that did not leaves memory and status alone. */
  lemma DeliveryShows<D(!new)>(ops: Ops<D>, s: System<D>, qi: u16, data: seq<u8>)
    requires qi < |s.regs.queues|
    ensures var (s', out) := Step(ops, s, Deliver(qi, data));
            && (out == Flag(true) <==> PopOf(s.mem, s.regs.queues[qi]).Got?)
            && (out == Flag(true) ==> s'.regs.isr % 2 == 1 && Some(s'.mem) == RxDelivered(s.mem, s.regs.queues[qi], data))
            && (out != Flag(true) ==> s'.regs.isr == s.regs.isr && s'.mem == s.mem)
  {
    hide PopOf, AfterPop, Scatter, PushUsed;
  }

  /** A deferred completion: its status byte is stored, its head is published with one more
      than the length (for that byte), and the interrupt status shows it. */
  lemma CompletionPublished<D(!new)>(ops: Ops<D>, s: System<D>, qi: u16, head: u16, len: u32, status: u8, a: u64)
    requires qi < |s.regs.queues| && Live(s.regs.queues[qi]) && UsedEnd(s.regs.queues[qi]) <= |s.mem|
    requires a < |s.mem| && !(s.regs.queues[qi].used <= a < UsedEnd(s.regs.queues[qi])) && len < 0xffff_ffff
    ensures var s', q := Step(ops, s, Finish(qi, head, len, status, a)).0, s.regs.queues[qi];
            var idx := Value(s.mem[q.used + 2..q.used + 4]);
            var slot := q.used + 4 + 8 * (idx % q.size);
            && |s'.mem| == |s.mem| && s'.regs.isr % 2 == 1 && s'.mem[a] == status && slot + 8 <= |s.mem|
            && s'.mem[slot..slot + 8] == Le4(head) + Le4(len + 1)
            && s'.mem[q.used + 2..q.used + 4] == Le2((idx + 1) % 0x1_0000)
  {
    hide PushUsed, Put, Le4, Le2, Value, FinishedMem, Live, UsedEnd;
    PublishedBytes(s.mem, s.regs.queues, Finish(qi, head, len, status, a));
  }

  lemma PublishedBytes(m: Image, queues: seq<Queue>, op: Op)
    requires op.Finish? && op.queue < |queues| && Live(queues[op.queue]) && UsedEnd(queues[op.queue]) <= |m|
    requires op.statusAddr < |m| && !(queues[op.queue].used <= op.statusAddr < UsedEnd(queues[op.queue]))
    requires op.len < 0xffff_ffff
    ensures var m', q := FinishedMem(m, queues, op), queues[op.queue];
            var idx := Value(m[q.used + 2..q.used + 4]);
            var slot := q.used + 4 + 8 * (idx % q.size);
            && |m'| == |m| && m'[op.statusAddr] == op.status && slot + 8 <= |m|
            && m'[slot..slot + 8] == Le4(op.head) + Le4(op.len + 1)
            && m'[q.used + 2..q.used + 4] == Le2((idx + 1) % 0x1_0000)
  {
    hide PushUsed, Put, Le4, Le2, Value, Agree;
    var q, m1 := queues[op.queue], Put(m, op.statusAddr, [op.status]);
    DivMod(op.len + 1, 0x1_0000_0000, 0, op.len + 1);
    PutAgree(m, op.statusAddr, [op.status], q.used, UsedEnd(q));
    AgreeSlice(m, m1, q.used, UsedEnd(q), q.used + 2, 2);
    PushBytes(m1, q, op.head, op.len + 1);
    StatusKept(m, q, op.head, op.len + 1, op.status, op.statusAddr);
  }

  lemma StatusKept(m0: Image, q: Queue, head: u16, len: u32, status: u8, a: nat)
    requires a < |m0| && !(q.used <= a < UsedEnd(q))
    ensures var m := PushUsed(Put(m0, a, [status]), q, head, len);
            |m| == |m0| && m[a] == status
  {
    hide PushUsed;
    PushKeeps(Put(m0, a, [status]), q, head, len, a, a + 1);
  }

  /** The registers that can be written, and at what widths. */
  predicate TakesWrite(off: nat, width: nat) {
    ((off == 0x04 || off == 0x08) && width == 4) || (off == 0x0e && width == 2) || (off == 0x12 && width >= 1)
  }

  /** Above the registers are the device's own; a write of any other width than a register's,
      or to a register that cannot be written, does nothing. */
  lemma OtherWrites<D(!new)>(ops: Ops<D>, r: Regs, d: D, off: nat, data: seq<u8>)
    ensures Write(ops, r, d, 0x14 + off, data) == (r, ops.writeConfig(d, off, data))
    ensures off < 0x14 && !TakesWrite(off, |data|) ==> Write(ops, r, d, off, data) == (r, d)
  {
    hide FromLe4, FromLe2, WithPfn, ResetAll;
  }

  /** A blob saved with another number of queues is refused. */
  lemma OtherCountRejected(r: Regs, blank: Regs)
    requires |r.queues| < 0x1_0000_0000 && |r.queues| != |blank.queues|
    ensures RestoreState(blank, SaveState(r)) == Err
  {
    hide S.Take, Le4, Le2, FromLe4, FromLe2, EncodeQueues, RestoreQueues;
    HeadTaken(r);
  }
}
