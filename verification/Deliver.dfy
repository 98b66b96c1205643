/** Writing incoming data into the next chain the driver posted: the legacy
    receive path (header and frame apart) and the flat one. */
module Deliveries {
  import opened Bytes
  import opened Memory
  import Seqs
  import opened VirtQueues
  import opened UsedRings
  import opened Drains

  ghost predicate InRam(m: Image, bufs: seq<Buf>) {
    forall b :: b in bufs ==> b.addr + b.len <= |m|
  }

  /** The bytes the chain can take: those of its leading device-writable buffers. */
  function Capacity(bufs: seq<Buf>): nat {
    if bufs == [] || !bufs[0].writable then 0 else bufs[0].len + Capacity(bufs[1..])
  }

  /** The buffers before the first one without room. */
  function UpToEmpty(bufs: seq<Buf>): seq<Buf> {
    if bufs == [] || bufs[0].len == 0 then [] else [bufs[0]] + UpToEmpty(bufs[1..])
  }

  /** `data` laid out in order over the leading device-writable buffers. */
  function Scatter(m: Image, bufs: seq<Buf>, data: seq<u8>): (m': Image)
    ensures |m'| == |m|
    decreases |bufs|
  {
    if bufs == [] || !bufs[0].writable then m
    else
      var n := Min(bufs[0].len, |data|);
      Scatter(Put(m, bufs[0].addr, data[..n]), bufs[1..], data[n..])
  }

  /** The chain's leading device-writable bytes, in order. */
  function Gather(m: Image, bufs: seq<Buf>): seq<u8>
    requires InRam(m, bufs)
  {
    if bufs == [] || !bufs[0].writable then []
    else m[bufs[0].addr..bufs[0].addr + bufs[0].len] + Gather(m, bufs[1..])
  }

  lemma {:induction false} ChainInRam(t: Table, ram: nat, i: u16, steps: nat, total: nat, b: Buf)
    requires Walk(t, ram, i, steps, total).Some? && b in Walk(t, ram, i, steps, total).value
    ensures b.addr + b.len <= ram
    decreases steps
  {
    var d := Admit(t, ram, i, total).value;
    if b != d.Buffer() {
      ChainInRam(t, ram, d.next, steps - 1, total + d.len, b);
    }
  }

  lemma PoppedInRam(m: Image, q: Queue)
    requires PopOf(m, q).Got?
    ensures InRam(m, PopOf(m, q).chain.bufs)
  {
    hide TableOf, Walk;
    var c := PopOf(m, q).chain;
    forall b | b in c.bufs
      ensures b.addr + b.len <= |m|
    {
      ChainInRam(TableOf(m, q.desc, q.size), |m|, c.head, q.size, 0, b);
    }
  }

  // --- The two loops ------------------------------------------------------------

  lemma PutNothing(m: Image, a: nat)
    ensures Put(m, a, []) == m
  {}

  lemma PutTwice(m: Image, a: nat, x: seq<u8>, y: seq<u8>)
    requires a + |x| + |y| <= |m|
    ensures Put(Put(m, a, x), a + |x|, y) == Put(m, a, x + y)
  {}

  lemma {:induction false} ScatterNothing(m: Image, bufs: seq<Buf>)
    ensures Scatter(m, bufs, []) == m
    decreases |bufs|
  {
    if bufs != [] && bufs[0].writable {
      PutNothing(m, bufs[0].addr);
      ScatterNothing(m, bufs[1..]);
    }
  }

  /** One buffer filled from the header and then the frame. */
  method FillBuffer(mem: GuestMemory, b: Buf, header: seq<u8>, frame: seq<u8>)
    returns (sources: seq<seq<u8>>, n: nat)
    requires mem.Valid() && b.addr + b.len <= mem.cells.Length
    modifies mem.cells
    ensures n == Min(b.len, |header + frame|) && |sources| == 2
    ensures sources[0] + sources[1] == (header + frame)[n..]
    ensures mem.Image() == Put(old(mem.Image()), b.addr, (header + frame)[..n])
  {
    hide Put;
    ghost var data, m0 := header + frame, mem.Image();
    sources, n := [header, frame], 0;
    PutNothing(m0, b.addr);
    var s := 0;
    while s < 2
      invariant 0 <= s <= 2 && |sources| == 2 && n <= b.len && n <= |data|
      invariant sources[0] + sources[1] == data[n..]
      invariant n < b.len ==> forall i :: 0 <= i < s ==> sources[i] == []
      invariant mem.Image() == Put(m0, b.addr, data[..n])
    {
      if n == b.len {
        break;
      }
      var k := Min(|sources[s]|, b.len - n);
      TakeSource(data, sources, n, s, k);
      if k != 0 {
        PutTwice(m0, b.addr, data[..n], sources[s][..k]);
        var ok := mem.WriteChecked(b.addr + n, sources[s][..k]);
        if !ok {
          break;
        }
        n := n + k;
        sources := sources[s := sources[s][k..]];
      }
      assert n < b.len ==> sources[s] == [];
      s := s + 1;
    }
  }

  /** The next bytes of the data come off source `s` once the one before it is empty. */
  lemma TakeSource(data: seq<u8>, sources: seq<seq<u8>>, n: nat, s: nat, k: nat)
    requires |sources| == 2 && s < 2 && n <= |data| && sources[0] + sources[1] == data[n..]
    requires k <= |sources[s]| && (s == 1 ==> sources[0] == [])
    ensures n + k <= |data| && data[..n] + sources[s][..k] == data[..n + k]
    ensures var sources' := sources[s := sources[s][k..]];
            sources'[0] + sources'[1] == data[n + k..]
  {
    var done, src, more := data[..n], sources[s], if s == 0 then sources[1] else [];
    Seqs.Empty(src);
    Seqs.Empty(src[k..]);
    assert data[n..] == src + more;
    Seqs.Whole(data, n);
    Seqs.CutSecond(done, src + more, k);
    Seqs.CutFirst(src, more, k);
  }

  /** One turn of the receive loop, on the buffers still to come. */
  lemma RxTurn(m: Image, bufs: seq<Buf>, data: seq<u8>)
    requires bufs != [] && bufs[0].writable
    ensures var n := Min(bufs[0].len, |data|);
            && Scatter(m, bufs, data) == Scatter(Put(m, bufs[0].addr, data[..n]), bufs[1..], data[n..])
            && Min(|data|, Capacity(bufs)) == n + Min(|data| - n, Capacity(bufs[1..]))
  {
    hide Put;
  }

  lemma RxStops(m: Image, bufs: seq<Buf>, data: seq<u8>)
    requires bufs == [] || !bufs[0].writable || data == []
    ensures Scatter(m, bufs, data) == m && Min(|data|, Capacity(bufs)) == 0
  {
    hide Put;
    if data == [] {
      ScatterNothing(m, bufs);
    }
  }

  /** The receive loop: a buffer without room is passed over. */
  method ScatterRx(mem: GuestMemory, bufs: seq<Buf>, header: seq<u8>, frame: seq<u8>) returns (written: nat)
    requires mem.Valid() && InRam(mem.Image(), bufs)
    modifies mem.cells
    ensures mem.Image() == Scatter(old(mem.Image()), bufs, header + frame)
    ensures written == Min(|header + frame|, Capacity(bufs))
  {
    hide Put, Scatter, Capacity;
    ghost var m0, data := mem.Image(), header + frame;
    var sources := [header, frame];
    written := 0;
    var i := 0;
    assert bufs[0..] == bufs && data[0..] == data;
    while i < |bufs|
      invariant 0 <= i <= |bufs| && |sources| == 2 && written <= |data|
      invariant sources[0] + sources[1] == data[written..]
      invariant Scatter(m0, bufs, data) == Scatter(mem.Image(), bufs[i..], data[written..])
      invariant Min(|data|, Capacity(bufs)) == written + Min(|data| - written, Capacity(bufs[i..]))
    {
      var b := bufs[i];
      assert bufs[i..][1..] == bufs[i + 1..];
      if !b.writable {
        break;
      }
      ghost var left := data[written..];
      RxTurn(mem.Image(), bufs[i..], left);
      var n;
      sources, n := FillBuffer(mem, b, sources[0], sources[1]);
      assert left[n..] == data[written + n..];
      written := written + n;
      i := i + 1;
      if sources[0] == [] && sources[1] == [] {
        break;
      }
    }
    RxStops(mem.Image(), bufs[i..], data[written..]);
  }

  /** One turn of the flat loop, on the buffers still to come. */
  lemma FlatTurn(m: Image, bufs: seq<Buf>, data: seq<u8>)
    requires bufs != [] && bufs[0].writable && bufs[0].len > 0
    ensures var n := Min(bufs[0].len, |data|);
            && Scatter(m, UpToEmpty(bufs), data) ==
               Scatter(Put(m, bufs[0].addr, data[..n]), UpToEmpty(bufs[1..]), data[n..])
            && Min(|data|, Capacity(UpToEmpty(bufs))) == n + Min(|data| - n, Capacity(UpToEmpty(bufs[1..])))
  {
    hide Put;
    assert UpToEmpty(bufs)[1..] == UpToEmpty(bufs[1..]);
  }

  lemma FlatStops(m: Image, bufs: seq<Buf>, data: seq<u8>)
    requires bufs == [] || !bufs[0].writable || bufs[0].len == 0 || data == []
    ensures Scatter(m, UpToEmpty(bufs), data) == m
    ensures Min(|data|, Capacity(UpToEmpty(bufs))) == 0
  {
    hide Put;
    if data == [] {
      ScatterNothing(m, UpToEmpty(bufs));
    }
  }

  /** The flat loop: a buffer without room ends the delivery. */
  method ScatterFlat(mem: GuestMemory, bufs: seq<Buf>, data: seq<u8>) returns (written: nat)
    requires mem.Valid() && InRam(mem.Image(), bufs)
    modifies mem.cells
    ensures mem.Image() == Scatter(old(mem.Image()), UpToEmpty(bufs), data)
    ensures written == Min(|data|, Capacity(UpToEmpty(bufs)))
  {
    hide Put, Scatter, UpToEmpty, Capacity;
    ghost var m0, kept := mem.Image(), UpToEmpty(bufs);
    written := 0;
    var i := 0;
    assert bufs[0..] == bufs && data[0..] == data;
    while i < |bufs|
      invariant 0 <= i <= |bufs| && written <= |data|
      invariant Scatter(m0, kept, data) == Scatter(mem.Image(), UpToEmpty(bufs[i..]), data[written..])
      invariant Min(|data|, Capacity(kept)) == written + Min(|data| - written, Capacity(UpToEmpty(bufs[i..])))
    {
      var b := bufs[i];
      assert bufs[i..][1..] == bufs[i + 1..];
      if !b.writable {
        break;
      }
      var room := Min(b.len, |data| - written);
      if room == 0 {
        break;
      }
      FlatTurn(mem.Image(), bufs[i..], data[written..]);
      assert data[written..][..room] == data[written..written + room];
      assert data[written..][room..] == data[written + room..];
      var ok := mem.WriteChecked(b.addr, data[written..written + room]);
      if !ok {
        break;
      }
      written := written + room;
      i := i + 1;
      if written >= |data| {
        break;
      }
    }
    FlatStops(mem.Image(), bufs[i..], data[written..]);
  }

  // --- Whole deliveries ---------------------------------------------------------

  /** The length reported on the used ring has 32 bits. */
  function Reported(written: nat): u32 {
    written % 0x1_0000_0000
  }

  /** Memory after a receive delivery, or `None` when no chain could be popped. */
  function RxDelivered(m: Image, q: Queue, data: seq<u8>): Option<Image> {
    match PopOf(m, q)
    case Got(c) => Some(PushUsed(Scatter(m, c.bufs, data), q, c.head, Reported(Min(|data|, Capacity(c.bufs)))))
    case _ => None
  }

  function FlatDelivered(m: Image, q: Queue, data: seq<u8>): Option<Image> {
    match PopOf(m, q)
    case Got(c) =>
      var kept := UpToEmpty(c.bufs);
      Some(PushUsed(Scatter(m, kept, data), q, c.head, Reported(Min(|data|, Capacity(kept)))))
    case _ => None
  }

  method TryDeliverRx(queue: VirtQueue, mem: GuestMemory, header: seq<u8>, frame: seq<u8>) returns (delivered: bool)
    requires mem.Valid() && Headroom(queue.Spec())
    modifies queue, mem.cells
    ensures queue.Spec() == AfterPop(old(queue.Spec()), PopOf(old(mem.Image()), old(queue.Spec())))
    ensures var r := RxDelivered(old(mem.Image()), old(queue.Spec()), header + frame);
            delivered == r.Some? && mem.Image() == if delivered then r.value else old(mem.Image())
  {
    hide PopOf, Scatter, Pushed, SlotIndex, Reported;
    ghost var q := queue.Spec();
    var chain, ok := queue.TryPop(mem);
    if !ok {
      return false;
    }
    PoppedInRam(mem.Image(), q);
    var written := ScatterRx(mem, chain.bufs, header, frame);
    PushUsedHead(queue, mem, chain.head, Reported(written));
    return true;
  }

  method TryDeliverAsync(queue: VirtQueue, mem: GuestMemory, data: seq<u8>) returns (delivered: bool)
    requires mem.Valid() && Headroom(queue.Spec())
    modifies queue, mem.cells
    ensures queue.Spec() == AfterPop(old(queue.Spec()), PopOf(old(mem.Image()), old(queue.Spec())))
    ensures var r := FlatDelivered(old(mem.Image()), old(queue.Spec()), data);
            delivered == r.Some? && mem.Image() == if delivered then r.value else old(mem.Image())
  {
    hide PopOf, Scatter, Pushed, SlotIndex, Reported;
    ghost var q := queue.Spec();
    var chain, ok := queue.TryPop(mem);
    if !ok {
      return false;
    }
    PoppedInRam(mem.Image(), q);
    var written := ScatterFlat(mem, chain.bufs, data);
    PushUsedHead(queue, mem, chain.head, Reported(written));
    return true;
  }

  // --- When the two agree ---------------------------------------------------------

  /** No device-writable buffer without room stands before room the data still needs. */
  predicate NoGap(bufs: seq<Buf>, need: nat) {
    || bufs == [] || !bufs[0].writable || need == 0
    || if bufs[0].len == 0 then Capacity(bufs) == 0
       else NoGap(bufs[1..], need - Min(need, bufs[0].len))
  }

  /** The two report the same length exactly when there is no such gap, and then
      they leave the same bytes in memory. */
  lemma {:induction false} SameScatterExactly(m: Image, bufs: seq<Buf>, data: seq<u8>)
    ensures Min(|data|, Capacity(bufs)) == Min(|data|, Capacity(UpToEmpty(bufs))) <==> NoGap(bufs, |data|)
    ensures NoGap(bufs, |data|) ==> Scatter(m, bufs, data) == Scatter(m, UpToEmpty(bufs), data)
    decreases |bufs|
  {
    hide Put;
    var kept := UpToEmpty(bufs);
    if data == [] {
      ScatterNothing(m, bufs);
      ScatterNothing(m, kept);
    } else if bufs != [] && bufs[0].writable {
      if bufs[0].len == 0 {
        ScatterNowhere(m, bufs, data);
      } else {
        var n := Min(bufs[0].len, |data|);
        assert kept[1..] == UpToEmpty(bufs[1..]);
        SameScatterExactly(Put(m, bufs[0].addr, data[..n]), bufs[1..], data[n..]);
      }
    }
  }

  lemma {:induction false} ScatterNowhere(m: Image, bufs: seq<Buf>, data: seq<u8>)
    ensures Capacity(bufs) == 0 ==> Scatter(m, bufs, data) == m
    decreases |bufs|
  {
    hide Put;
    if bufs != [] && bufs[0].writable && Capacity(bufs) == 0 {
      assert data[..0] == [];
      PutNothing(m, bufs[0].addr);
      ScatterNowhere(m, bufs[1..], data[0..]);
    }
  }

  lemma {:induction false} NoEmptyNoGap(bufs: seq<Buf>, need: nat)
    requires forall b :: b in bufs && b.writable ==> b.len != 0
    ensures NoGap(bufs, need)
  {
    if bufs != [] && bufs[0].writable && need != 0 {
      assert bufs[0] in bufs;
      NoEmptyNoGap(bufs[1..], need - Min(need, bufs[0].len));
    }
  }

  /** A packet delivered as header and frame is the packet delivered in one piece. */
  lemma DeliveriesAgree(m: Image, q: Queue, header: seq<u8>, frame: seq<u8>)
    requires PopOf(m, q).Got? ==> NoGap(PopOf(m, q).chain.bufs, |header + frame|)
    ensures RxDelivered(m, q, header + frame) == FlatDelivered(m, q, header + frame)
  {
    hide PopOf, PushUsed, Reported;
    if PopOf(m, q).Got? {
      SameScatterExactly(m, PopOf(m, q).chain.bufs, header + frame);
    }
  }

  // --- Reading the data back --------------------------------------------------------

  ghost predicate Apart(b: Buf, c: Buf) {
    b.addr + b.len <= c.addr || c.addr + c.len <= b.addr
  }

  ghost predicate Disjoint(bufs: seq<Buf>) {
    forall i, j :: 0 <= i < j < |bufs| ==> Apart(bufs[i], bufs[j])
  }

  lemma {:induction false} ScatterKeeps(m: Image, bufs: seq<Buf>, data: seq<u8>, c: Buf)
    requires forall b :: b in bufs ==> Apart(c, b)
    ensures Agree(m, Scatter(m, bufs, data), c.addr, c.addr + c.len)
    decreases |bufs|
  {
    hide Put;
    if bufs != [] && bufs[0].writable {
      var b, n := bufs[0], Min(bufs[0].len, |data|);
      assert b in bufs;
      PutAgree(m, b.addr, data[..n], c.addr, c.addr + c.len);
      ScatterKeeps(Put(m, b.addr, data[..n]), bufs[1..], data[n..], c);
    }
  }

  lemma {:induction false} SameGather(m: Image, m': Image, bufs: seq<Buf>)
    requires InRam(m, bufs) && InRam(m', bufs) && |m'| == |m|
    requires forall b :: b in bufs && b.writable ==> Agree(m, m', b.addr, b.addr + b.len)
    ensures Gather(m', bufs) == Gather(m, bufs)
    decreases |bufs|
  {
    hide Gather, InRam, Agree;
    if bufs != [] && bufs[0].writable {
      var b, rest := bufs[0], bufs[1..];
      assert bufs == [b] + rest && b in bufs;
      InRamCons(m, b, rest);
      InRamCons(m', b, rest);
      GatherCons(m, b, rest);
      GatherCons(m', b, rest);
      AgreeSlice(m, m', b.addr, b.addr + b.len, b.addr, b.len);
      SameGather(m, m', rest);
    } else {
      NothingGathered(m, bufs);
      NothingGathered(m', bufs);
    }
  }

  lemma NothingGathered(m: Image, bufs: seq<Buf>)
    requires InRam(m, bufs) && (bufs == [] || !bufs[0].writable)
    ensures Gather(m, bufs) == []
  {}

  lemma {:induction false} GatherLength(m: Image, bufs: seq<Buf>)
    requires InRam(m, bufs)
    ensures |Gather(m, bufs)| == Capacity(bufs)
  {
    if bufs != [] && bufs[0].writable {
      assert bufs[0] in bufs;
      GatherLength(m, bufs[1..]);
    }
  }

  /** Filling the first of disjoint buffers leaves the others alone. */
  lemma HeadApart(m: Image, bufs: seq<Buf>, src: seq<u8>)
    requires bufs != [] && Disjoint(bufs) && |src| <= bufs[0].len
    ensures forall c :: c in bufs[1..] ==>
              Apart(bufs[0], c) && Agree(m, Put(m, bufs[0].addr, src), c.addr, c.addr + c.len)
    ensures Disjoint(bufs[1..])
  {
    hide Put;
    var b, rest := bufs[0], bufs[1..];
    forall c | c in rest
      ensures Apart(b, c) && Agree(m, Put(m, b.addr, src), c.addr, c.addr + c.len)
    {
      var j :| 0 <= j < |rest| && rest[j] == c;
      assert c == bufs[j + 1];
      PutAgree(m, b.addr, src, c.addr, c.addr + c.len);
    }
  }

  lemma InRamCons(m: Image, b: Buf, rest: seq<Buf>)
    requires InRam(m, [b] + rest)
    ensures InRam(m, rest) && b.addr + b.len <= |m|
  {
    assert b in [b] + rest && forall c :: c in rest ==> c in [b] + rest;
  }

  lemma GatherCons(m: Image, b: Buf, rest: seq<Buf>)
    requires b.writable && InRam(m, [b] + rest) && InRam(m, rest) && b.addr + b.len <= |m|
    ensures Gather(m, [b] + rest) == m[b.addr..b.addr + b.len] + Gather(m, rest)
  {
    hide InRam;
    assert ([b] + rest)[1..] == rest;
  }

  lemma CapacityCons(b: Buf, rest: seq<Buf>)
    requires b.writable
    ensures Capacity([b] + rest) == b.len + Capacity(rest)
  {
    assert ([b] + rest)[1..] == rest;
  }

  lemma ScatterCons(m: Image, b: Buf, rest: seq<Buf>, data: seq<u8>)
    requires b.writable
    ensures var n := Min(b.len, |data|);
            Scatter(m, [b] + rest, data) == Scatter(Put(m, b.addr, data[..n]), rest, data[n..])
  {
    hide Put;
    assert ([b] + rest)[1..] == rest;
  }

  /** With disjoint buffers, the chain read back in order is the data that fitted
      followed by what was there before. */
  lemma {:induction false} GatherScatter(m: Image, bufs: seq<Buf>, data: seq<u8>)
    requires InRam(m, bufs) && Disjoint(bufs)
    ensures Capacity(bufs) == |Gather(m, bufs)|
    ensures var k := Min(|data|, Capacity(bufs));
            Gather(Scatter(m, bufs, data), bufs) == data[..k] + Gather(m, bufs)[k..]
    decreases |bufs|
  {
    hide Put, Disjoint, Agree, Apart, Gather, Scatter, Capacity, InRam;
    GatherLength(m, bufs);
    SizeKept(m, bufs, data);
    if bufs != [] && bufs[0].writable {
      var b, rest, n := bufs[0], bufs[1..], Min(bufs[0].len, |data|);
      assert bufs == [b] + rest;
      var m1 := Put(m, b.addr, data[..n]);
      InRamCons(m, b, rest);
      GatherCons(m, b, rest);
      CapacityCons(b, rest);
      ScatterCons(m, b, rest, data);
      HeadApart(m, bufs, data[..n]);
      StillInRam(m, m1, rest);
      SameGather(m, m1, rest);
      GatherScatter(m1, rest, data[n..]);
      ScatterKeeps(m1, rest, data[n..], b);
      var m2 := Scatter(m1, rest, data[n..]);
      InRamCons(m2, b, rest);
      GatherCons(m2, b, rest);
      GatherLength(m, rest);
      HeadFilled(m, b, data[..n], m2);
      Splice(data, m[b.addr..b.addr + b.len], Gather(m, rest), n);
    } else {
      NoRoom(m, bufs, data);
    }
  }

  lemma NoRoom(m: Image, bufs: seq<Buf>, data: seq<u8>)
    requires InRam(m, bufs) && (bufs == [] || !bufs[0].writable)
    ensures Capacity(bufs) == 0 && Gather(m, bufs) == [] && Scatter(m, bufs, data) == m
  {}

  lemma StillInRam(m: Image, m': Image, bufs: seq<Buf>)
    requires InRam(m, bufs) && |m'| == |m|
    ensures InRam(m', bufs)
  {}

  lemma SizeKept(m: Image, bufs: seq<Buf>, data: seq<u8>)
    requires InRam(m, bufs)
    ensures InRam(Scatter(m, bufs, data), bufs)
  {
    hide Scatter;
  }

  /** The first buffer holds what was put there, as no later one reaches it. */
  lemma HeadFilled(m: Image, b: Buf, src: seq<u8>, m2: Image)
    requires b.addr + b.len <= |m| && |src| <= b.len
    requires Agree(Put(m, b.addr, src), m2, b.addr, b.addr + b.len)
    ensures |m2| == |m|
    ensures m2[b.addr..b.addr + b.len] == src + m[b.addr..b.addr + b.len][|src|..]
  {
    AgreeSlice(Put(m, b.addr, src), m2, b.addr, b.addr + b.len, b.addr, b.len);
  }

  /** `data` over `here` and then `tail`, filled one after the other or in one go. */
  lemma Splice(data: seq<u8>, here: seq<u8>, tail: seq<u8>, n: nat)
    requires n == Min(|here|, |data|)
    ensures var k, rest := Min(|data|, |here| + |tail|), Min(|data| - n, |tail|);
            (data[..n] + here[n..]) + (data[n..][..rest] + tail[rest..]) == data[..k] + (here + tail)[k..]
  {
    var rest := Min(|data| - n, |tail|);
    if n == |data| {
      Seqs.Empty(tail);
      Seqs.Empty(data);
      Seqs.CutFirst(here, tail, n);
      Seqs.Assoc(data, here[n..], tail);
      assert data[n..][..rest] == [] && [] + tail == tail;
    } else {
      Seqs.Empty(here);
      Seqs.Empty(data[..n]);
      Seqs.CutSecond(here, tail, rest);
      Seqs.Whole(data, n);
      Seqs.CutSecond(data[..n], data[n..], rest);
      Seqs.Assoc(data[..n], data[n..][..rest], tail[rest..]);
    }
  }

  // --- What the driver finds --------------------------------------------------------

  /** The bytes that fit are those of the device-writable buffers before the first that
      is not. */
  lemma {:induction false} CapacityIsLeading(bufs: seq<Buf>, k: nat)
    requires k <= |bufs| && (forall i :: 0 <= i < k ==> bufs[i].writable) && (k < |bufs| ==> !bufs[k].writable)
    ensures Capacity(bufs) == TotalLen(bufs[..k])
    decreases |bufs|
  {
    if k > 0 {
      assert bufs[..k][1..] == bufs[1..][..k - 1];
      CapacityIsLeading(bufs[1..], k - 1);
    }
  }

  /** Nothing is stored outside the chain's device-writable buffers. */
  lemma {:induction false} ScatterConfined(m: Image, bufs: seq<Buf>, data: seq<u8>, lo: nat, hi: nat)
    requires forall b :: b in bufs && b.writable ==> b.len == 0 || b.addr + b.len <= lo || hi <= b.addr
    ensures Agree(m, Scatter(m, bufs, data), lo, hi)
    decreases |bufs|
  {
    hide Put;
    if bufs != [] && bufs[0].writable {
      var b, n := bufs[0], Min(bufs[0].len, |data|);
      assert b in bufs;
      PutAgree(m, b.addr, data[..n], lo, hi);
      ScatterConfined(Put(m, b.addr, data[..n]), bufs[1..], data[n..], lo, hi);
    }
  }

  /** After a delivery the newest used-ring entry is the chain's head with the number of
      bytes that fitted (below 4 GiB), and the index is one further. */
  lemma DeliveredEntry(m: Image, q: Queue, data: seq<u8>)
    requires PopOf(m, q).Got? && UsedEnd(q) <= |m| && BuffersAvoid(PopOf(m, q).chain, q.used, UsedEnd(q))
    requires Min(|data|, Capacity(PopOf(m, q).chain.bufs)) < 0x1_0000_0000
    ensures Live(q)
    ensures var c, m', idx := PopOf(m, q).chain, RxDelivered(m, q, data).value, Value(m[q.used + 2..q.used + 4]);
            var slot := q.used + 4 + 8 * (idx % q.size);
            && |m'| == |m| && slot + 8 <= |m|
            && m'[slot..slot + 8] == Le4(c.head) + Le4(Min(|data|, Capacity(c.bufs)))
            && m'[q.used + 2..q.used + 4] == Le2((idx + 1) % 0x1_0000)
  {
    hide PopOf, PushUsed, Scatter, Capacity, Le4, Le2, Value, Agree;
    GotLive(m, q);
    var c := PopOf(m, q).chain;
    var filled, len := Scatter(m, c.bufs, data), Min(|data|, Capacity(c.bufs));
    ScatterConfined(m, c.bufs, data, q.used, UsedEnd(q));
    AgreeSlice(m, filled, q.used, UsedEnd(q), q.used + 2, 2);
    PushBytes(filled, q, c.head, len);
    DivMod(len, 0x1_0000_0000, 0, len);
  }

  /** And the chain, read back, holds the data that fitted followed by what was there. */
  lemma DeliveredReadsBack(m: Image, q: Queue, data: seq<u8>)
    requires PopOf(m, q).Got? && Disjoint(PopOf(m, q).chain.bufs)
    requires BuffersAvoid(PopOf(m, q).chain, q.used, UsedEnd(q))
    ensures InRam(m, PopOf(m, q).chain.bufs)
    ensures var bufs, m' := PopOf(m, q).chain.bufs, RxDelivered(m, q, data).value;
            var k := Min(|data|, Capacity(bufs));
            && |m'| == |m| && InRam(m', bufs) && |Gather(m, bufs)| == Capacity(bufs)
            && Gather(m', bufs) == data[..k] + Gather(m, bufs)[k..]
  {
    hide PopOf, PushUsed, Scatter, Capacity, Gather, Disjoint, InRam, BuffersAvoid, Reported;
    PoppedInRam(m, q);
    var c := PopOf(m, q).chain;
    var filled, len := Scatter(m, c.bufs, data), Reported(Min(|data|, Capacity(c.bufs)));
    GatherScatter(m, c.bufs, data);
    StillInRam(m, filled, c.bufs);
    PushKeepsGather(filled, q, c, len);
  }

  /** Publishing does not disturb the buffers. */
  lemma PushKeepsGather(m: Image, q: Queue, c: Chain, len: u32)
    requires InRam(m, c.bufs) && BuffersAvoid(c, q.used, UsedEnd(q))
    ensures var m' := PushUsed(m, q, c.head, len);
            |m'| == |m| && InRam(m', c.bufs) && Gather(m', c.bufs) == Gather(m, c.bufs)
  {
    hide PushUsed, Gather, Agree, InRam;
    PushSize(m, q, c.head, len);
    var m' := PushUsed(m, q, c.head, len);
    forall b | b in c.bufs && b.writable
      ensures Agree(m, m', b.addr, b.addr + b.len)
    {
      PushOffBuffer(m, q, c.head, len, b);
    }
    StillInRam(m, m', c.bufs);
    SameGather(m, m', c.bufs);
  }

  lemma PushSize(m: Image, q: Queue, head: u16, len: u32)
    ensures |PushUsed(m, q, head, len)| == |m|
  {
    hide Put;
  }

  lemma PushOffBuffer(m: Image, q: Queue, head: u16, len: u32, b: Buf)
    requires b.len == 0 || b.addr + b.len <= q.used || UsedEnd(q) <= b.addr
    ensures Agree(m, PushUsed(m, q, head, len), b.addr, b.addr + b.len)
  {
    hide PushUsed;
    if b.len == 0 {
      PushSize(m, q, head, len);
    } else {
      PushKeeps(m, q, head, len, b.addr, b.addr + b.len);
    }
  }
}
