/** The whole-machine stream: a self-delimiting format written to a file or
    straight to a migration destination. */
module Snapshots {
  import opened Bytes
  import opened Streams
  import Seqs

  const MAGIC: seq<u8> := [0x48, 0x42, 0x53, 0x4e, 0x41, 0x50, 0x30, 0x31] // "HBSNAP01"

  /** Sizes of the KVM structures, which are carried as opaque bytes. */
  datatype Layout = Layout(
    regs: nat, sregs: nat, mpState: nat, xsave: nat, xcrs: nat, vcpuEvents: nat,
    irqchip: nat, pit: nat, lapic: nat)

  datatype Msr = Msr(index: u32, data: u64)

  datatype Captured = Captured(
    numCpus: u8,
    regs: seq<u8>, sregs: seq<u8>, mpState: seq<u8>, xsave: seq<u8>, xcrs: seq<u8>, vcpuEvents: seq<u8>,
    msrs: seq<Msr>,
    picMaster: seq<u8>, picSlave: seq<u8>, ioapic: seq<u8>, pit: seq<u8>, lapic: seq<u8>,
    serialBlob: seq<u8>, pciBlob: seq<u8>, virtioBlobs: seq<seq<u8>>)

  datatype Loaded = Loaded(memSize: u64, captured: Captured, memory: seq<u8>)

  /** The structures have their sizes, and counts fit their fields. */
  ghost predicate InRange(lay: Layout, c: Captured, mem: seq<u8>) {
    && |c.regs| == lay.regs && |c.sregs| == lay.sregs && |c.mpState| == lay.mpState
    && |c.xsave| == lay.xsave && |c.xcrs| == lay.xcrs && |c.vcpuEvents| == lay.vcpuEvents
    && |c.picMaster| == |c.picSlave| == |c.ioapic| == lay.irqchip
    && |c.pit| == lay.pit && |c.lapic| == lay.lapic
    && |c.msrs| < 0x1_0000_0000 && |Blobs(c)| < 0x1_0000_0000 && |mem| < 0x1_0000_0000_0000_0000
    && forall b :: b in Blobs(c) ==> |b| < 0x1_0000_0000
  }

  // --- Writing ---------------------------------------------------------------------

  function Concat(fields: seq<seq<u8>>): seq<u8> {
    if fields == [] then [] else fields[0] + Concat(fields[1..])
  }

  function EncodeMsrs(msrs: seq<Msr>): seq<u8> {
    if msrs == [] then [] else Le4(msrs[0].index) + Le8(msrs[0].data) + EncodeMsrs(msrs[1..])
  }

  function EncodeBlobs(blobs: seq<seq<u8>>): seq<u8> {
    if blobs == [] then [] else Le4(|blobs[0]| % 0x1_0000_0000) + blobs[0] + EncodeBlobs(blobs[1..])
  }

  /** Device blobs in construction order, then serial, then PCI. */
  function Blobs(c: Captured): seq<seq<u8>> {
    c.virtioBlobs + [c.serialBlob, c.pciBlob]
  }

  function CpuFields(c: Captured, memSize: nat): seq<seq<u8>> {
    [MAGIC, Le8(memSize % 0x1_0000_0000_0000_0000), [c.numCpus],
     c.regs, c.sregs, c.mpState, c.xsave, c.xcrs, c.vcpuEvents, Le4(|c.msrs| % 0x1_0000_0000)]
  }

  function IrqFields(c: Captured): seq<seq<u8>> {
    [c.picMaster, c.picSlave, c.ioapic, c.pit, c.lapic, Le4(|Blobs(c)| % 0x1_0000_0000)]
  }

  function HeaderBytes(c: Captured, memSize: nat): seq<u8> {
    Concat(CpuFields(c, memSize)) + (EncodeMsrs(c.msrs) + (Concat(IrqFields(c)) + EncodeBlobs(Blobs(c))))
  }

  function Encode(c: Captured, mem: seq<u8>): seq<u8> {
    HeaderBytes(c, |mem|) + mem
  }

  method AppendMsrs(buf: seq<u8>, msrs: seq<Msr>) returns (out: seq<u8>)
    ensures out == buf + EncodeMsrs(msrs)
  {
    hide Le4, Le8;
    out := buf;
    assert msrs[0..] == msrs;
    for i := 0 to |msrs|
      invariant out + EncodeMsrs(msrs[i..]) == buf + EncodeMsrs(msrs)
    {
      ghost var rest := EncodeMsrs(msrs[i + 1..]);
      assert msrs[i..][1..] == msrs[i + 1..];
      var one := Le4(msrs[i].index) + Le8(msrs[i].data);
      assert out + (one + rest) == (out + one) + rest;
      out := out + one;
    }
  }

  method AppendBlobs(buf: seq<u8>, blobs: seq<seq<u8>>) returns (out: seq<u8>)
    ensures out == buf + EncodeBlobs(blobs)
  {
    hide Le4;
    out := buf;
    assert blobs[0..] == blobs;
    for i := 0 to |blobs|
      invariant out + EncodeBlobs(blobs[i..]) == buf + EncodeBlobs(blobs)
    {
      ghost var rest := EncodeBlobs(blobs[i + 1..]);
      assert blobs[i..][1..] == blobs[i + 1..];
      var one := Le4(|blobs[i]| % 0x1_0000_0000) + blobs[i];
      assert out + (one + rest) == (out + one) + rest;
      out := out + one;
    }
  }

  /** The header is built in a buffer, piece by piece; memory follows it. */
  method WriteTo(c: Captured, mem: seq<u8>) returns (stream: seq<u8>)
    ensures stream == Encode(c, mem)
  {
    hide CpuFields, IrqFields, Concat, EncodeMsrs, EncodeBlobs, Blobs;
    var header := AppendMsrs(Concat(CpuFields(c, |mem|)), c.msrs);
    header := AppendBlobs(header + Concat(IrqFields(c)), Blobs(c));
    assert header == HeaderBytes(c, |mem|);
    stream := header + mem;
  }

  // --- Reading -----------------------------------------------------------------------

  function Take(bs: seq<u8>, n: nat): Result<(seq<u8>, seq<u8>)> {
    if n <= |bs| then Ok((bs[..n], bs[n..])) else Err
  }

  function TakeFields(bs: seq<u8>, sizes: seq<nat>): (r: Result<(seq<seq<u8>>, seq<u8>)>)
    ensures r.Ok? ==> |r.value.0| == |sizes|
    ensures r.Ok? ==> forall i :: 0 <= i < |sizes| ==> |r.value.0[i]| == sizes[i]
    decreases |sizes|
  {
    if sizes == [] then Ok(([], bs))
    else
      var (field, rest) :- Take(bs, sizes[0]);
      var (fields, rest') :- TakeFields(rest, sizes[1..]);
      Ok(([field] + fields, rest'))
  }

  function TakeMsrs(bs: seq<u8>, count: nat): Result<(seq<Msr>, seq<u8>)>
    decreases count
  {
    if count == 0 then Ok(([], bs))
    else
      var (index, rest) :- Take(bs, 4);
      var (data, rest') :- Take(rest, 8);
      var (msrs, rest'') :- TakeMsrs(rest', count - 1);
      Ok(([Msr(FromLe4(index), FromLe8(data))] + msrs, rest''))
  }

  function TakeBlobs(bs: seq<u8>, count: nat): Result<(seq<seq<u8>>, seq<u8>)>
    decreases count
  {
    if count == 0 then Ok(([], bs))
    else
      var (len, rest) :- Take(bs, 4);
      var (blob, rest') :- Take(rest, FromLe4(len));
      var (blobs, rest'') :- TakeBlobs(rest', count - 1);
      Ok(([blob] + blobs, rest''))
  }

  function CpuSizes(lay: Layout): seq<nat> {
    [8, 8, 1, lay.regs, lay.sregs, lay.mpState, lay.xsave, lay.xcrs, lay.vcpuEvents, 4]
  }

  function IrqSizes(lay: Layout): seq<nat> {
    [lay.irqchip, lay.irqchip, lay.irqchip, lay.pit, lay.lapic, 4]
  }

  /** What is read, with the bytes left over. */
  function Decode(lay: Layout, bs: seq<u8>): Result<(Loaded, seq<u8>)> {
    var (cpu, rest1) :- TakeFields(bs, CpuSizes(lay));
    if cpu[0] != MAGIC then Err
    else
      var (msrs, rest2) :- TakeMsrs(rest1, FromLe4(cpu[9]));
      var (irq, rest3) :- TakeFields(rest2, IrqSizes(lay));
      var (blobs, rest4) :- TakeBlobs(rest3, FromLe4(irq[5]));
      if |blobs| < 2 then Err
      else
        var (memory, rest5) :- Take(rest4, FromLe8(cpu[1]));
        Ok((Assemble(cpu, msrs, irq, blobs, memory), rest5))
  }

  function Assemble(
    cpu: seq<seq<u8>>, msrs: seq<Msr>, irq: seq<seq<u8>>, blobs: seq<seq<u8>>, memory: seq<u8>): Loaded
    requires |cpu| == 10 && |irq| == 6 && |blobs| >= 2 && |cpu[1]| == 8 && |cpu[2]| == 1
  {
    var n := |blobs|;
    Loaded(
      FromLe8(cpu[1]),
      Captured(cpu[2][0], cpu[3], cpu[4], cpu[5], cpu[6], cpu[7], cpu[8], msrs,
               irq[0], irq[1], irq[2], irq[3], irq[4], blobs[n - 2], blobs[n - 1], blobs[..n - 2]),
      memory)
  }

  // --- Reading from a stream -----------------------------------------------------------

  /** Items read so far, in front of what the rest of the stream gives. */
  ghost function Onto<T>(done: seq<T>, rest: Result<(seq<T>, seq<u8>)>): Result<(seq<T>, seq<u8>)> {
    if rest.Err? then Err else Ok((done + rest.value.0, rest.value.1))
  }

  lemma OntoLaws<T>(done: seq<T>, x: T, rest: Result<(seq<T>, seq<u8>)>)
    ensures Onto([], rest) == rest
    ensures Onto(done, Onto([x], rest)) == Onto(done + [x], rest)
  {
    if rest.Ok? {
      assert [] + rest.value.0 == rest.value.0;
      assert done + ([x] + rest.value.0) == done + [x] + rest.value.0;
    }
  }

  /** `r` handed over `out`: what was decoded, and the reader left behind it. */
  ghost predicate Read<T>(out: Result<seq<T>>, rest: seq<u8>, want: Result<(seq<T>, seq<u8>)>) {
    if want.Ok? then out == Ok(want.value.0) && rest == want.value.1 else out == Err
  }

  method ReadFields(r: Reader, sizes: seq<nat>) returns (out: Result<seq<seq<u8>>>)
    modifies r
    ensures Read(out, r.rest, TakeFields(old(r.rest), sizes))
  {
    var fields: seq<seq<u8>> := [];
    ghost var all := TakeFields(r.rest, sizes);
    assert sizes[0..] == sizes;
    OntoLaws(fields, [], all);
    for i := 0 to |sizes|
      invariant all == Onto(fields, TakeFields(r.rest, sizes[i..]))
    {
      assert sizes[i..][1..] == sizes[i + 1..];
      var field := r.ReadExact(sizes[i]);
      if field.Err? {
        return Err;
      }
      OntoLaws(fields, field.value, TakeFields(r.rest, sizes[i + 1..]));
      fields := fields + [field.value];
    }
    assert fields + [] == fields;
    out := Ok(fields);
  }

  method ReadMsrs(r: Reader, count: nat) returns (out: Result<seq<Msr>>)
    modifies r
    ensures Read(out, r.rest, TakeMsrs(old(r.rest), count))
  {
    hide FromLe4, FromLe8;
    var msrs: seq<Msr> := [];
    ghost var all := TakeMsrs(r.rest, count);
    OntoLaws(msrs, Msr(0, 0), all);
    for i := 0 to count
      invariant all == Onto(msrs, TakeMsrs(r.rest, count - i))
    {
      var index := r.ReadExact(4);
      if index.Err? {
        return Err;
      }
      var data := r.ReadExact(8);
      if data.Err? {
        return Err;
      }
      var msr := Msr(FromLe4(index.value), FromLe8(data.value));
      OntoLaws(msrs, msr, TakeMsrs(r.rest, count - i - 1));
      msrs := msrs + [msr];
    }
    assert msrs + [] == msrs;
    out := Ok(msrs);
  }

  method ReadBlobs(r: Reader, count: nat) returns (out: Result<seq<seq<u8>>>)
    modifies r
    ensures Read(out, r.rest, TakeBlobs(old(r.rest), count))
  {
    hide FromLe4;
    var blobs: seq<seq<u8>> := [];
    ghost var all := TakeBlobs(r.rest, count);
    OntoLaws(blobs, [], all);
    for i := 0 to count
      invariant all == Onto(blobs, TakeBlobs(r.rest, count - i))
    {
      var len := r.ReadExact(4);
      if len.Err? {
        return Err;
      }
      var blob := r.ReadExact(FromLe4(len.value));
      if blob.Err? {
        return Err;
      }
      OntoLaws(blobs, blob.value, TakeBlobs(r.rest, count - i - 1));
      blobs := blobs + [blob.value];
    }
    assert blobs + [] == blobs;
    out := Ok(blobs);
  }

  method ReadFrom(r: Reader, lay: Layout) returns (out: Result<Loaded>)
    modifies r
    ensures var want := Decode(lay, old(r.rest));
            if want.Ok? then out == Ok(want.value.0) && r.rest == want.value.1 else out == Err
  {
    hide TakeFields, TakeMsrs, TakeBlobs, Assemble, FromLe4, FromLe8;
    var cpu := ReadFields(r, CpuSizes(lay));
    if cpu.Err? || cpu.value[0] != MAGIC { return Err; }
    var msrs := ReadMsrs(r, FromLe4(cpu.value[9]));
    if msrs.Err? { return Err; }
    var irq := ReadFields(r, IrqSizes(lay));
    if irq.Err? { return Err; }
    var blobs := ReadBlobs(r, FromLe4(irq.value[5]));
    if blobs.Err? || |blobs.value| < 2 { return Err; }
    var memory := r.ReadExact(FromLe8(cpu.value[1]));
    if memory.Err? { return Err; }
    out := Ok(Assemble(cpu.value, msrs.value, irq.value, blobs.value, memory.value));
  }

  // --- Round trips, stage by stage ---------------------------------------------------

  lemma TakeFront(a: seq<u8>, rest: seq<u8>)
    ensures Take(a + rest, |a|) == Ok((a, rest))
  {
    assert (a + rest)[..|a|] == a && (a + rest)[|a|..] == rest;
  }

  lemma {:induction false} FieldsRoundTrip(fields: seq<seq<u8>>, sizes: seq<nat>, rest: seq<u8>)
    requires |fields| == |sizes| && forall i :: 0 <= i < |fields| ==> |fields[i]| == sizes[i]
    ensures TakeFields(Concat(fields) + rest, sizes) == Ok((fields, rest))
    decreases |fields|
  {
    hide Take;
    if fields == [] {
      assert Concat(fields) + rest == rest;
    } else {
      var tail := Concat(fields[1..]) + rest;
      assert Concat(fields) + rest == fields[0] + tail;
      TakeFront(fields[0], tail);
      FieldsRoundTrip(fields[1..], sizes[1..], rest);
      assert [fields[0]] + fields[1..] == fields;
    }
  }

  lemma {:induction false} MsrsRoundTrip(msrs: seq<Msr>, rest: seq<u8>)
    ensures TakeMsrs(EncodeMsrs(msrs) + rest, |msrs|) == Ok((msrs, rest))
    decreases |msrs|
  {
    hide Take, Le4, Le8, FromLe4, FromLe8;
    if msrs == [] {
      assert EncodeMsrs(msrs) + rest == rest;
    } else {
      var tail := EncodeMsrs(msrs[1..]) + rest;
      var index, data := Le4(msrs[0].index), Le8(msrs[0].data);
      assert EncodeMsrs(msrs) + rest == index + (data + tail);
      TakeFront(index, data + tail);
      TakeFront(data, tail);
      Le4RoundTrip(msrs[0].index);
      Le8RoundTrip(msrs[0].data);
      MsrsRoundTrip(msrs[1..], rest);
      assert [msrs[0]] + msrs[1..] == msrs;
    }
  }

  lemma {:induction false} BlobsRoundTrip(blobs: seq<seq<u8>>, rest: seq<u8>)
    requires forall b :: b in blobs ==> |b| < 0x1_0000_0000
    ensures TakeBlobs(EncodeBlobs(blobs) + rest, |blobs|) == Ok((blobs, rest))
    decreases |blobs|
  {
    hide Take, Le4, FromLe4;
    if blobs == [] {
      assert EncodeBlobs(blobs) + rest == rest;
    } else {
      assert blobs[0] in blobs;
      var tail := EncodeBlobs(blobs[1..]) + rest;
      var len := Le4(|blobs[0]|);
      assert EncodeBlobs(blobs) + rest == len + (blobs[0] + tail);
      TakeFront(len, blobs[0] + tail);
      Le4RoundTrip(|blobs[0]|);
      TakeFront(blobs[0], tail);
      BlobsRoundTrip(blobs[1..], rest);
      assert [blobs[0]] + blobs[1..] == blobs;
    }
  }

  lemma FieldsSized(lay: Layout, c: Captured, mem: seq<u8>)
    requires InRange(lay, c, mem)
    ensures var cpu, sizes := CpuFields(c, |mem|), CpuSizes(lay);
            |cpu| == |sizes| && forall i :: 0 <= i < |cpu| ==> |cpu[i]| == sizes[i]
    ensures var irq, sizes := IrqFields(c), IrqSizes(lay);
            |irq| == |sizes| && forall i :: 0 <= i < |irq| ==> |irq[i]| == sizes[i]
  {
    hide Le4, Le8, Blobs;
  }

  lemma FieldsCount(lay: Layout, c: Captured, mem: seq<u8>)
    requires InRange(lay, c, mem)
    ensures var cpu, irq := CpuFields(c, |mem|), IrqFields(c);
            && |cpu| == 10 && |irq| == 6 && |cpu[1]| == 8 && |cpu[2]| == 1 && |cpu[9]| == |irq[5]| == 4
            && cpu[0] == MAGIC && FromLe8(cpu[1]) == |mem|
            && FromLe4(cpu[9]) == |c.msrs| && FromLe4(irq[5]) == |Blobs(c)|
  {
    hide Le4, Le8, FromLe4, FromLe8, Blobs;
    Le8RoundTrip(|mem|);
    Le4RoundTrip(|c.msrs|);
    Le4RoundTrip(|Blobs(c)|);
  }

  lemma Reassembled(lay: Layout, c: Captured, mem: seq<u8>)
    requires InRange(lay, c, mem)
    requires |CpuFields(c, |mem|)| == 10 && |CpuFields(c, |mem|)[1]| == 8
    ensures Assemble(CpuFields(c, |mem|), c.msrs, IrqFields(c), Blobs(c), mem) == Loaded(|mem|, c, mem)
  {
    hide Le4, Le8, FromLe8;
    Le8RoundTrip(|mem|);
    assert Blobs(c)[..|Blobs(c)| - 2] == c.virtioBlobs;
  }

  /** Reading back what was written gives exactly the state and the memory, with
      the blobs told apart, and consumes exactly the bytes written. */
  lemma RoundTrip(lay: Layout, c: Captured, mem: seq<u8>, rest: seq<u8>)
    requires InRange(lay, c, mem)
    ensures Decode(lay, Encode(c, mem) + rest) == Ok((Loaded(|mem|, c, mem), rest))
  {
    FieldsSized(lay, c, mem);
    FieldsCount(lay, c, mem);
    Reassembled(lay, c, mem);
    var cpu, irq, blobs := CpuFields(c, |mem|), IrqFields(c), Blobs(c);
    var r4 := mem + rest;
    var r3 := EncodeBlobs(blobs) + r4;
    var r2 := Concat(irq) + r3;
    var r1 := EncodeMsrs(c.msrs) + r2;
    assert |blobs| >= 2;
    hide Take, TakeFields, TakeMsrs, TakeBlobs, Concat, EncodeMsrs, EncodeBlobs, CpuFields, IrqFields, Blobs,
         CpuSizes, IrqSizes, Assemble, FromLe4, FromLe8;
    assert Encode(c, mem) + rest == Concat(cpu) + r1;
    FieldsRoundTrip(cpu, CpuSizes(lay), r1);
    MsrsRoundTrip(c.msrs, r2);
    FieldsRoundTrip(irq, IrqSizes(lay), r3);
    BlobsRoundTrip(blobs, r4);
    TakeFront(mem, rest);
  }

  // --- Prefixes ---------------------------------------------------------------------

  lemma TakeMore(bs: seq<u8>, n: nat, more: seq<u8>)
    requires Take(bs, n).Ok?
    ensures Take(bs + more, n) == Ok((Take(bs, n).value.0, Take(bs, n).value.1 + more))
  {
    assert (bs + more)[..n] == bs[..n] && (bs + more)[n..] == bs[n..] + more;
  }

  lemma {:induction false} TakeFieldsMore(bs: seq<u8>, sizes: seq<nat>, more: seq<u8>)
    requires TakeFields(bs, sizes).Ok?
    ensures TakeFields(bs + more, sizes) == Ok((TakeFields(bs, sizes).value.0, TakeFields(bs, sizes).value.1 + more))
    decreases |sizes|
  {
    hide Take;
    if sizes != [] {
      TakeMore(bs, sizes[0], more);
      TakeFieldsMore(Take(bs, sizes[0]).value.1, sizes[1..], more);
    }
  }

  lemma {:induction false} TakeMsrsMore(bs: seq<u8>, count: nat, more: seq<u8>)
    requires TakeMsrs(bs, count).Ok?
    ensures TakeMsrs(bs + more, count) == Ok((TakeMsrs(bs, count).value.0, TakeMsrs(bs, count).value.1 + more))
    decreases count
  {
    hide FromLe4, FromLe8;
    if count != 0 {
      TakeMore(bs, 4, more);
      var rest := Take(bs, 4).value.1;
      TakeMore(rest, 8, more);
      TakeMsrsMore(Take(rest, 8).value.1, count - 1, more);
    }
  }

  lemma {:induction false} TakeBlobsMore(bs: seq<u8>, count: nat, more: seq<u8>)
    requires TakeBlobs(bs, count).Ok?
    ensures TakeBlobs(bs + more, count) == Ok((TakeBlobs(bs, count).value.0, TakeBlobs(bs, count).value.1 + more))
    decreases count
  {
    hide FromLe4;
    if count != 0 {
      TakeMore(bs, 4, more);
      var (len, rest) := Take(bs, 4).value;
      TakeMore(rest, FromLe4(len), more);
      TakeBlobsMore(Take(rest, FromLe4(len)).value.1, count - 1, more);
    }
  }

  /** Reading never looks past what it consumes. */
  lemma DecodeMore(lay: Layout, bs: seq<u8>, more: seq<u8>)
    requires Decode(lay, bs).Ok?
    ensures Decode(lay, bs + more) == Ok((Decode(lay, bs).value.0, Decode(lay, bs).value.1 + more))
  {
    hide Take, TakeFields, TakeMsrs, TakeBlobs, Assemble, FromLe4, FromLe8;
    var (cpu, rest1) := TakeFields(bs, CpuSizes(lay)).value;
    TakeFieldsMore(bs, CpuSizes(lay), more);
    var (msrs, rest2) := TakeMsrs(rest1, FromLe4(cpu[9])).value;
    TakeMsrsMore(rest1, FromLe4(cpu[9]), more);
    var (irq, rest3) := TakeFields(rest2, IrqSizes(lay)).value;
    TakeFieldsMore(rest2, IrqSizes(lay), more);
    var (blobs, rest4) := TakeBlobs(rest3, FromLe4(irq[5])).value;
    TakeBlobsMore(rest3, FromLe4(irq[5]), more);
    TakeMore(rest4, FromLe8(cpu[1]), more);
  }

  /** No strict prefix of a stream is accepted. */
  lemma StrictPrefixRejected(lay: Layout, c: Captured, mem: seq<u8>, n: nat)
    requires InRange(lay, c, mem) && n < |Encode(c, mem)|
    ensures Decode(lay, Encode(c, mem)[..n]) == Err
  {
    hide Decode, Encode;
    var all := Encode(c, mem);
    RoundTrip(lay, c, mem, []);
    assert all + [] == all == all[..n] + all[n..];
    if Decode(lay, all[..n]).Ok? {
      DecodeMore(lay, all[..n], all[n..]);
      assert false;
    }
  }

  // --- The layout ------------------------------------------------------------------------

  /** The stream, field by field. */
  lemma StreamLayout(c: Captured, mem: seq<u8>)
    requires |mem| < 0x1_0000_0000_0000_0000 && |c.msrs| < 0x1_0000_0000 && |c.virtioBlobs| + 2 < 0x1_0000_0000
    ensures Encode(c, mem) ==
            ([0x48, 0x42, 0x53, 0x4e, 0x41, 0x50, 0x30, 0x31] + Le8(|mem|) + [c.numCpus]
             + c.regs + c.sregs + c.mpState + c.xsave + c.xcrs + c.vcpuEvents + Le4(|c.msrs|))
            + EncodeMsrs(c.msrs)
            + (c.picMaster + c.picSlave + c.ioapic + c.pit + c.lapic + Le4(|c.virtioBlobs| + 2))
            + EncodeBlobs(c.virtioBlobs + [c.serialBlob, c.pciBlob])
            + mem
  {
    hide Le4, Le8, EncodeMsrs, EncodeBlobs, Concat, CpuFields, IrqFields;
    CpuLayout(c, |mem|);
    IrqLayout(c);
    DivMod(|mem|, 0x1_0000_0000_0000_0000, 0, |mem|);
    DivMod(|c.msrs|, 0x1_0000_0000, 0, |c.msrs|);
    DivMod(|Blobs(c)|, 0x1_0000_0000, 0, |Blobs(c)|);
    var cpu, msrs, irq, blobs := Concat(CpuFields(c, |mem|)), EncodeMsrs(c.msrs), Concat(IrqFields(c)), EncodeBlobs(Blobs(c));
    Seqs.Assoc(cpu, msrs, irq + blobs);
    Seqs.Assoc(cpu + msrs, irq, blobs);
  }

  lemma CpuLayout(c: Captured, memSize: nat)
    ensures Concat(CpuFields(c, memSize)) ==
            MAGIC + Le8(memSize % 0x1_0000_0000_0000_0000) + [c.numCpus]
            + c.regs + c.sregs + c.mpState + c.xsave + c.xcrs + c.vcpuEvents + Le4(|c.msrs| % 0x1_0000_0000)
  {
    hide Le4, Le8, Concat;
    var f := CpuFields(c, memSize);
    ConcatFive(f[..5]);
    ConcatFive(f[5..]);
    ConcatSplit(f[..5], f[5..]);
    assert f == f[..5] + f[5..];
  }

  lemma IrqLayout(c: Captured)
    ensures Concat(IrqFields(c)) ==
            c.picMaster + c.picSlave + c.ioapic + c.pit + c.lapic + Le4(|Blobs(c)| % 0x1_0000_0000)
  {
    hide Le4, Blobs, Concat;
    var f := IrqFields(c);
    ConcatFive(f[..5]);
    ConcatOne(f[5..]);
    ConcatSplit(f[..5], f[5..]);
    assert f == f[..5] + f[5..];
  }

  lemma {:induction false} ConcatSplit(a: seq<seq<u8>>, b: seq<seq<u8>>)
    ensures Concat(a + b) == Concat(a) + Concat(b)
    decreases |a|
  {
    if a == [] {
      assert a + b == b;
    } else {
      assert (a + b)[1..] == a[1..] + b;
      ConcatSplit(a[1..], b);
    }
  }

  lemma ConcatOne(f: seq<seq<u8>>)
    requires |f| == 1
    ensures Concat(f) == f[0]
  {
    assert f[1..] == [];
  }

  lemma ConcatFive(f: seq<seq<u8>>)
    requires |f| == 5
    ensures Concat(f) == f[0] + f[1] + f[2] + f[3] + f[4]
  {
    hide Concat;
    ConcatTwo(f[..2]);
    ConcatTwo(f[2..4]);
    ConcatOne(f[4..]);
    ConcatSplit(f[..2], f[2..4]);
    ConcatSplit(f[..2] + f[2..4], f[4..]);
    assert f == f[..2] + f[2..4] + f[4..];
  }

  lemma ConcatTwo(f: seq<seq<u8>>)
    requires |f| == 2
    ensures Concat(f) == f[0] + f[1]
  {
    hide Concat;
    ConcatOne(f[..1]);
    ConcatOne(f[1..]);
    ConcatSplit(f[..1], f[1..]);
    assert f == f[..1] + f[1..];
  }

  /** Only a stream that starts with "HBSNAP01" is accepted. */
  lemma AcceptedMagic(lay: Layout, bs: seq<u8>)
    requires Decode(lay, bs).Ok?
    ensures |bs| >= 8 && bs[..8] == [0x48, 0x42, 0x53, 0x4e, 0x41, 0x50, 0x30, 0x31]
  {
    hide TakeMsrs, TakeBlobs, Assemble, FromLe4, FromLe8;
  }
}
