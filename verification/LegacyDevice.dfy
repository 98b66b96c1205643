/** The legacy transport as the object it is: register accesses, notifications and
    snapshots that update its fields, its queues and guest memory in place. */
module LegacyDevices {
  import opened Bytes
  import opened Memory
  import opened Streams
  import opened VirtQueues
  import opened UsedRings
  import opened Drains
  import opened LegacyTransport
  import Deliveries

  /** The queue that a register write notifies, if the device wants to hear of it. */
  function Notified<D(!new)>(ops: Ops<D>, count: nat, off: nat, data: seq<u8>): Option<u16> {
    if off == REG_QUEUE_NOTIFY && |data| == 2 && FromLe2(data) < count && ops.wantsNotify(FromLe2(data))
    then Some(FromLe2(data)) else None
  }

  /** A drained queue, and whether it asks for an interrupt. */
  ghost function AfterNotify<D(!new)>(ops: Ops<D>, s: System<D>, qi: u16): (System<D>, bool)
    requires qi < |s.regs.queues|
  {
    (Drained(ops, s, qi, s.mem), Completions(DrainEvents(ops, s, qi, s.mem)) != [])
  }

  ghost function AfterWrite<D(!new)>(ops: Ops<D>, s: System<D>, off: nat, data: seq<u8>): (System<D>, bool) {
    match Notified(ops, |s.regs.queues|, off, data)
    case Some(qi) => AfterNotify(ops, s, qi)
    case None => (Written(ops, s, off, data), false)
  }

  ghost function Specs(queues: seq<VirtQueue>): (qs: seq<Queue>)
    reads queues
    ensures |qs| == |queues|
  {
    seq(|queues|, i requires 0 <= i < |queues| reads queues => queues[i].Spec())
  }

  ghost predicate Distinct(queues: seq<VirtQueue>) {
    forall i, j :: 0 <= i < j < |queues| ==> queues[i] != queues[j]
  }

  /** Only queue `i` has changed. */
  lemma OneChanged(queues: seq<VirtQueue>, i: nat, before: seq<Queue>)
    requires i < |queues| == |before|
    requires forall j :: 0 <= j < |queues| && j != i ==> queues[j].Spec() == before[j]
    ensures Specs(queues) == before[i := queues[i].Spec()]
  {}

  class VirtioLegacyPci<D(!new)> {
    const ops: Ops<D>
    const mem: GuestMemory
    const queues: seq<VirtQueue>
    var dev: D
    var guestFeatures: u32
    var queueSelect: u16
    var status: u8
    var isr: u8

    ghost predicate Valid() {
      mem.Valid() && Distinct(queues)
    }

    ghost function Spec(): Regs
      reads this, queues
    {
      Regs(guestFeatures, queueSelect, status, isr, Specs(queues))
    }

    /** The device with its queues and the memory they are in. */
    ghost function Machine(): System<D>
      reads this, queues, mem.cells
    {
      System(Spec(), dev, mem.Image())
    }

    /** What draining the queue relies on: its own layout, and where the driver's buffers
        and the device's stores lie. */
    ghost predicate Servable(qi: Option<u16>)
      reads queues, mem.cells
    {
      qi.Some? && qi.value < |queues| ==>
        var q := queues[qi.value].Spec();
        && Headroom(q) && RingsApart(q)
        && StoresInBuffers(DeviceAt(ops, qi.value)) && BuffersApart(mem.Image(), q)
    }

    constructor (ops: Ops<D>, dev: D, mem: GuestMemory, sizes: seq<u16>)
      requires mem.Valid()
      ensures Valid() && this.ops == ops && this.mem == mem
      ensures fresh(queues) && Machine() == System(FreshRegs(sizes), dev, mem.Image())
    {
      var made: seq<VirtQueue> := [];
      for i := 0 to |sizes|
        invariant |made| == i && fresh(made) && Distinct(made)
        invariant forall j :: 0 <= j < i ==> made[j].Spec() == FreshQueue(sizes[j])
      {
        var q := new VirtQueue(sizes[i]);
        made := made + [q];
      }
      this.ops, this.mem, this.queues, this.dev := ops, mem, made, dev;
      guestFeatures, queueSelect, status, isr := 0, 0, 0, 0;
    }

    method Read(off: nat, n: nat) returns (data: seq<u8>)
      modifies this
      ensures dev == old(dev) && (Spec(), data) == LegacyTransport.Read(ops, old(Spec()), dev, off, n)
    {
      hide Le4, Le2, ReadLe;
      if off >= DEVICE_CONFIG_START {
        return ops.readConfig(dev, off - DEVICE_CONFIG_START, n);
      }
      var pfn: u32, size: u16 := 0, 0;
      if queueSelect < |queues| {
        pfn, size := queues[queueSelect].pfn, queues[queueSelect].size;
      }
      data := Zeros(n);
      if off == REG_HOST_FEATURES {
        data := ReadLe(Le4(ops.hostFeatures), n);
      } else if off == REG_GUEST_FEATURES {
        data := ReadLe(Le4(guestFeatures), n);
      } else if off == REG_QUEUE_ADDRESS {
        data := ReadLe(Le4(pfn), n);
      } else if off == REG_QUEUE_SIZE {
        data := ReadLe(Le2(size), n);
      } else if off == REG_QUEUE_SELECT {
        data := ReadLe(Le2(queueSelect), n);
      } else if off == REG_DEVICE_STATUS {
        data := ReadLe([status], n);
      } else if off == REG_ISR_STATUS {
        data := ReadLe([isr], n);
        isr := 0;
      }
    }

    /** A register write. A notification drains its queue before it returns, and asks for
        an interrupt exactly if a chain was completed. */
    method Write(off: nat, data: seq<u8>) returns (interrupt: bool)
      requires Valid()
      requires Servable(Notified(ops, |queues|, off, data))
      modifies this, queues, mem.cells
      ensures (Machine(), interrupt) == AfterWrite(ops, old(Machine()), off, data)
    {
      hide FromLe4, FromLe2, WithPfn, AfterNotify, ResetAll;
      interrupt := false;
      if off >= DEVICE_CONFIG_START {
        dev := ops.writeConfig(dev, off - DEVICE_CONFIG_START, data);
      } else if off == REG_GUEST_FEATURES && |data| == 4 {
        guestFeatures := FromLe4(data);
      } else if off == REG_QUEUE_ADDRESS && |data| == 4 {
        if queueSelect < |queues| {
          Place(queueSelect, FromLe4(data));
        }
      } else if off == REG_QUEUE_SELECT && |data| == 2 {
        queueSelect := FromLe2(data);
      } else if off == REG_QUEUE_NOTIFY && |data| == 2 {
        var qi := FromLe2(data);
        if qi < |queues| {
          interrupt := Notify(qi);
        }
      } else if off == REG_DEVICE_STATUS && data != [] {
        status := data[0];
        if status == 0 {
          ResetQueues();
          isr := 0;
        }
      }
    }

    method Place(qi: u16, pfn: u32)
      requires Distinct(queues) && qi < |queues|
      modifies queues
      ensures Specs(queues) == old(Specs(queues))[qi := WithPfn(old(Specs(queues))[qi], pfn)]
    {
      hide WithPfn;
      ghost var before := Specs(queues);
      queues[qi].SetPfn(pfn);
      OneChanged(queues, qi, before);
    }

    method Notify(qi: u16) returns (interrupt: bool)
      requires Valid() && qi < |queues| && (ops.wantsNotify(qi) ==> Servable(Some(qi)))
      modifies this, queues, mem.cells
      ensures (Machine(), interrupt) ==
              if ops.wantsNotify(qi) then AfterNotify(ops, old(Machine()), qi) else (old(Machine()), false)
    {
      hide Completions, Play, Drains.Serve, Handled, AfterDrain, BuffersApart, RingsApart, Headroom, StoresInBuffers;
      if !ops.wantsNotify(qi) {
        return false;
      }
      var d;
      ghost var events;
      ghost var before := Specs(queues);
      d, interrupt, events := DrainQueue(true, queues[qi], mem, DeviceAt(ops, qi), dev);
      OneChanged(queues, qi, before);
      dev := d;
      if interrupt {
        isr := RaiseUsed(isr);
      }
    }

    /** A packet for the driver: header and frame into the next chain it posted. */
    method TryDeliverRx(qi: u16, header: seq<u8>, frame: seq<u8>) returns (delivered: bool)
      requires Valid() && (qi < |queues| ==> Headroom(queues[qi].Spec()))
      modifies this, queues, mem.cells
      ensures (Machine(), Flag(delivered)) == Step(ops, old(Machine()), Deliver(qi, header + frame))
    {
      hide PopOf, AfterPop, Deliveries.Scatter, PushUsed;
      if qi >= |queues| {
        return false;
      }
      ghost var before := Specs(queues);
      delivered := Deliveries.TryDeliverRx(queues[qi], mem, header, frame);
      OneChanged(queues, qi, before);
      if delivered {
        isr := RaiseUsed(isr);
      }
    }

    /** Finishes what the device reports as done: for each its status byte and its used-ring
        entry, and then one interrupt for all. */
    method DrainCompletions(done: seq<Op>) returns (interrupt: bool)
      requires Valid() && (forall c :: c in done ==> c.Finish?)
      requires forall i :: 0 <= i < |queues| ==> Headroom(queues[i].Spec())
      modifies this, mem.cells
      ensures Machine() == Run(ops, old(Machine()), done).0 && interrupt == (done != [])
    {
      hide Run, Step;
      ghost var s0 := Machine();
      RunNothing(ops, s0);
      if done == [] {
        return false;
      }
      assert done[..0] == [];
      for i := 0 to |done|
        invariant dev == s0.dev && Spec() == s0.regs
        invariant Run(ops, s0, done[..i]).0 ==
                  System(s0.regs.(isr := if i == 0 then isr else RaiseUsed(isr)), s0.dev, mem.Image())
      {
        var c := done[i];
        assert done[..i + 1] == done[..i] + [c] && c in done;
        RunSnoc(ops, s0, done[..i], c);
        FinishStep(ops, Run(ops, s0, done[..i]).0, c);
        FinishOne(c);
      }
      assert done[..|done|] == done;
      isr := RaiseUsed(isr);
      interrupt := true;
    }

    method FinishOne(c: Op)
      requires Valid() && c.Finish? && forall i :: 0 <= i < |queues| ==> Headroom(queues[i].Spec())
      modifies mem.cells
      ensures mem.Image() == FinishedMem(old(mem.Image()), Specs(queues), c)
    {
      hide PushUsed, Put;
      var _ := mem.WriteChecked(c.statusAddr, [c.status]);
      if c.queue < |queues| {
        PushUsedHead(queues[c.queue], mem, c.head, (c.len + 1) % 0x1_0000_0000);
      }
    }

    method ResetQueues()
      requires Distinct(queues)
      modifies queues
      ensures Specs(queues) == ResetAll(old(Specs(queues)))
    {
      hide WithPfn;
      for i := 0 to |queues|
        invariant forall j :: 0 <= j < i ==> queues[j].Spec() == Reset(old(queues[j].Spec()))
        invariant forall j :: i <= j < |queues| ==> queues[j].Spec() == old(queues[j].Spec())
      {
        queues[i].SetPfn(0);
        queues[i].lastAvail := 0;
      }
    }

    method SaveState() returns (blob: seq<u8>)
      ensures blob == LegacyTransport.SaveState(Spec())
    {
      hide Le4, Le2;
      blob := Le4(guestFeatures) + (Le2(queueSelect) + ([status] + ([isr] + Le4(|queues| % 0x1_0000_0000))));
      ghost var head, qs := blob, Specs(queues);
      assert qs[0..] == qs;
      for i := 0 to |queues|
        invariant blob + EncodeQueues(qs[i..]) == head + EncodeQueues(qs)
      {
        ghost var rest := EncodeQueues(qs[i + 1..]);
        assert qs[i..][1..] == qs[i + 1..];
        var one := Le4(queues[i].pfn) + Le2(queues[i].lastAvail);
        assert blob + (one + rest) == (blob + one) + rest;
        blob := blob + one;
      }
    }

    /** The inverse; a blob for another number of queues is refused. */
    method RestoreState(blob: seq<u8>) returns (ok: bool)
      requires Valid()
      modifies this, queues
      ensures dev == old(dev)
      ensures var r := LegacyTransport.RestoreState(old(Spec()), blob);
              ok == r.Ok? && (ok ==> Spec() == r.value)
    {
      hide TakeHead, RestoreQueues;
      var reader := new Reader(blob);
      var head := ReadHead(reader);
      if head.Err? || head.value.1 != |queues| {
        return false;
      }
      var r := head.value.0;
      guestFeatures, queueSelect, status, isr := r.guestFeatures, r.queueSelect, r.status, r.isr;
      assert Specs(queues) == old(Specs(queues));
      ok := RestoreAll(reader);
    }

    method RestoreAll(reader: Reader) returns (ok: bool)
      requires Distinct(queues)
      modifies queues, reader
      ensures var r := RestoreQueues(old(Specs(queues)), old(reader.rest));
              ok == r.Ok? && (ok ==> Specs(queues) == r.value)
    {
      hide RestoreQueues, RestoredQueue;
      ghost var qs, all := Specs(queues), RestoreQueues(Specs(queues), reader.rest);
      ghost var done: seq<Queue> := [];
      OntoLaws(done, FreshQueue(0), all);
      assert qs[0..] == qs;
      for i := 0 to |queues|
        invariant |done| == i && forall j :: 0 <= j < i ==> queues[j].Spec() == done[j]
        invariant forall j :: i <= j < |queues| ==> queues[j].Spec() == qs[j]
        invariant all == Onto(done, RestoreQueues(qs[i..], reader.rest))
      {
        assert qs[i..][0] == qs[i] && qs[i..][1..] == qs[i + 1..];
        RestoreFirst(qs[i..], reader.rest);
        var saved := ReadSaved(reader);
        if saved.Err? {
          return false;
        }
        OntoLaws(done, RestoredQueue(qs[i], saved.value), RestoreQueues(qs[i + 1..], reader.rest));
        RestoreQueue(queues[i], saved.value);
        done := done + [RestoredQueue(qs[i], saved.value)];
      }
      RestoreNone(reader.rest);
      assert qs[|queues|..] == [] && done + [] == done && Specs(queues) == done;
      ok := true;
    }
  }

  /** The registers and the queue count. */
  method ReadHead(reader: Reader) returns (head: Result<(Regs, u32)>)
    modifies reader
    ensures var want := TakeHead(old(reader.rest));
            if want.Ok? then head == Ok((want.value.0, want.value.1)) && reader.rest == want.value.2 else head == Err
  {
    hide FromLe4, FromLe2;
    var features := reader.ReadExact(4);
    if features.Err? { return Err; }
    var select := reader.ReadExact(2);
    if select.Err? { return Err; }
    var status := reader.ReadExact(1);
    if status.Err? { return Err; }
    var isr := reader.ReadExact(1);
    if isr.Err? { return Err; }
    var n := reader.ReadExact(4);
    if n.Err? { return Err; }
    head := Ok((Regs(FromLe4(features.value), FromLe2(select.value), status.value[0], isr.value[0], []), FromLe4(n.value)));
  }

  /** One queue's page frame and position. */
  method ReadSaved(reader: Reader) returns (saved: Result<(u32, u16)>)
    modifies reader
    ensures var want := TakeQueue(old(reader.rest));
            if want.Ok? then saved == Ok(want.value.0) && reader.rest == want.value.1 else saved == Err
  {
    hide FromLe4, FromLe2;
    var pfn := reader.ReadExact(4);
    if pfn.Err? { return Err; }
    var last := reader.ReadExact(2);
    if last.Err? { return Err; }
    saved := Ok((FromLe4(pfn.value), FromLe2(last.value)));
  }

  method RestoreQueue(queue: VirtQueue, saved: (u32, u16))
    modifies queue
    ensures queue.Spec() == RestoredQueue(old(queue.Spec()), saved)
  {
    hide WithPfn;
    queue.SetPfn(saved.0);
    queue.lastAvail := saved.1;
  }

  lemma RestoreFirst(qs: seq<Queue>, bs: seq<u8>)
    requires qs != []
    ensures var saved := TakeQueue(bs);
            RestoreQueues(qs, bs) ==
            if saved.Err? then Err
            else Onto([RestoredQueue(qs[0], saved.value.0)], RestoreQueues(qs[1..], saved.value.1))
  {
    hide TakeQueue, RestoredQueue;
  }

  lemma RestoreNone(bs: seq<u8>)
    ensures RestoreQueues([], bs) == Ok([])
  {}

  lemma RunNothing<D(!new)>(ops: Ops<D>, s: System<D>)
    ensures Run(ops, s, []) == (s, [])
  {}

  lemma FinishStep<D(!new)>(ops: Ops<D>, s: System<D>, c: Op)
    requires c.Finish?
    ensures Step(ops, s, c).0 == System(s.regs.(isr := RaiseUsed(s.regs.isr)), s.dev, FinishedMem(s.mem, s.regs.queues, c))
  {}

  ghost function Onto(done: seq<Queue>, rest: Result<seq<Queue>>): Result<seq<Queue>> {
    if rest.Err? then Err else Ok(done + rest.value)
  }

  lemma OntoLaws(done: seq<Queue>, q: Queue, rest: Result<seq<Queue>>)
    ensures Onto([], rest) == rest
    ensures Onto(done, Onto([q], rest)) == Onto(done + [q], rest)
  {
    if rest.Ok? {
      assert [] + rest.value == rest.value;
      assert done + ([q] + rest.value) == done + [q] + rest.value;
    }
  }
}
