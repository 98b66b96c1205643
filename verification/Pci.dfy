/** PCI configuration space over the CF8/CFC ports, and the bus mappings that
    programming a base address register makes. */
module PciSpace {
  import opened Bytes
  import opened Buses

  const CONFIG_ADDRESS: u16 := 0xcf8
  const CONFIG_DATA: u16 := 0xcfc
  const CONFIG_DATA_END: u16 := 0xcff
  const NUM_BARS := 6
  const EXTRA_CAP_OFFSET := 0x50
  const ALL_ONES: u32 := 0xffff_ffff

  datatype Bar = Bar(size: u32, isIo: bool, base: Option<u32>, sizing: bool) {
    predicate Implemented() { size != 0 }
    /** The low 2 (I/O) or 4 (memory) bits of a BAR are flags. */
    function Align(): nat { if isIo then 4 else 16 }
    function SpaceBit(): nat { if isIo then 1 else 0 }
  }

  datatype Msi = Msi(enabled: bool, address: u32, data: u16)

  datatype Identity = Identity(
    vendorId: u16, deviceId: u16, subsystemVendorId: u16, subsystemDeviceId: u16, classCode: u32,
    revisionId: u8, interruptLine: u8, interruptPin: u8, msiCapable: bool, extraCaps: seq<u8>)

  datatype Slot = Slot(
    devfn: u8, identity: Identity, device: DeviceId, bars: seq<Bar>, command: u16, msi: Msi)

  /** The configuration space together with what is mapped on the two buses. */
  datatype Pci = Pci(slots: seq<Slot>, address: u32, mmio: Mapping, io: Mapping)

  function IrqOf(id: Identity): Option<u32> {
    if id.interruptLine != 0 then Some(id.interruptLine) else None
  }

  /** `x & !(align - 1)` for the alignments 4 and 16. */
  function AlignDown(x: u32, align: nat): u32
    requires align == 4 || align == 16
  {
    if align == 4 then x - x % 4 else x - x % 16
  }

  /** Enable bit 31, bus in bits 23:16, device and function in 15:8, register in 7:2. */
  function DecodeAddress(address: u32): Option<(u8, u16)> {
    if address < 0x8000_0000 || address / 0x1_0000 % 0x100 != 0 then None
    else Some((address / 0x100 % 0x100, address / 4 % 0x40 * 4))
  }

  function FindSlot(slots: seq<Slot>, devfn: u8): (r: Option<nat>)
    ensures r.Some? ==> r.value < |slots| && slots[r.value].devfn == devfn
    ensures r.None? ==> forall k :: 0 <= k < |slots| ==> slots[k].devfn != devfn
  {
    if slots == [] then None
    else if slots[|slots| - 1].devfn == devfn && FindSlot(slots[..|slots| - 1], devfn).None? then Some(|slots| - 1)
    else FindSlot(slots[..|slots| - 1], devfn)
  }

  function BarIndex(reg: u16): (r: Option<nat>)
    ensures r.Some? ==> r.value < NUM_BARS
  {
    if 0x10 <= reg <= 0x24 && reg % 4 == 0 then Some((reg - 0x10) / 4) else None
  }

  // --- Base address registers ------------------------------------------------------

  function ReadBar(b: Bar, fullDword: bool): (Bar, u32) {
    if !b.Implemented() then (b, 0)
    else if b.sizing then
      (b.(sizing := b.sizing && !fullDword), AlignDown(0x1_0000_0000 - b.size, b.Align()) + b.SpaceBit())
    else
      (b, match b.base case Some(base) => BaseBits(base, b) case None => 0)
  }

  /** `base | space bit`; stored bases have their flag bits clear. */
  function BaseBits(base: u32, b: Bar): u32 {
    if base % 2 == 1 then base else base + b.SpaceBit()
  }

  /** Maps or unmaps the device for BAR `i`; only one of the two buses is touched. */
  ghost function WriteBar(st: Pci, k: nat, i: nat, val: u32): Pci
    requires k < |st.slots| && i < |st.slots[k].bars|
  {
    var s := st.slots[k];
    var b := s.bars[i];
    if !b.Implemented() then st
    else if val == ALL_ONES then WithBar(st, k, i, b.(sizing := true))
    else
      var base := AlignDown(val, b.Align());
      var st' := WithBar(st, k, i, b.(base := Some(base)));
      var m := if b.isIo then st.io else st.mmio;
      var m' := if base == 0 then m - {s.device} else Registered(m, base, b.size, s.device, IrqOf(s.identity));
      if b.isIo then st'.(io := m') else st'.(mmio := m')
  }

  function WithBar(st: Pci, k: nat, i: nat, b: Bar): Pci
    requires k < |st.slots| && i < |st.slots[k].bars|
  {
    st.(slots := st.slots[k := st.slots[k].(bars := st.slots[k].bars[i := b])])
  }

  // --- Configuration accesses ---------------------------------------------------------

  ghost function ConfigWrite(st: Pci, off: u16, data: seq<u8>): Pci {
    match DecodeAddress(st.address)
    case None => st
    case Some((devfn, reg)) =>
      match FindSlot(st.slots, devfn)
      case None => st
      case Some(k) => SlotWrite(st, k, reg, off, data)
  }

  ghost function SlotWrite(st: Pci, k: nat, reg: u16, off: u16, data: seq<u8>): Pci
    requires k < |st.slots|
  {
    var s := st.slots[k];
    var i := BarIndex(reg);
    if reg == 0x04 && off == 0 && |data| >= 2 then
      st.(slots := st.slots[k := s.(command := FromLe2(data[..2]))])
    else if reg == 0x40 && s.identity.msiCapable && off == 2 && |data| >= 2 then
      st.(slots := st.slots[k := s.(msi := s.msi.(enabled := FromLe2(data[..2]) % 2 == 1))])
    else if reg == 0x44 && s.identity.msiCapable && off == 0 && |data| == 4 then
      st.(slots := st.slots[k := s.(msi := s.msi.(address := FromLe4(data)))])
    else if reg == 0x48 && s.identity.msiCapable && off == 0 && |data| >= 2 then
      st.(slots := st.slots[k := s.(msi := s.msi.(data := FromLe2(data[..2])))])
    else if i.Some? && i.value < |s.bars| && off == 0 && |data| == 4 then WriteBar(st, k, i.value, FromLe4(data))
    else st
  }

  function ReadExtraCap(caps: seq<u8>, reg: u16): u32 {
    if reg < EXTRA_CAP_OFFSET || reg - EXTRA_CAP_OFFSET >= |caps| then 0
    else FromLe4((caps[reg - EXTRA_CAP_OFFSET..] + [0, 0, 0, 0])[..4])
  }

  /** The fixed and plain registers; `None` for a BAR. */
  function Register(s: Slot, reg: u16): Option<u32> {
    var id := s.identity;
    var hasCaps := id.msiCapable || id.extraCaps != [];
    if reg == 0x00 then Some(id.deviceId * 0x1_0000 + id.vendorId)
    else if reg == 0x04 then Some((if hasCaps then 0x10_0000 else 0) + s.command)
    else if reg == 0x08 then Some(id.classCode * 0x100 % 0x1_0000_0000 + id.revisionId)
    else if reg == 0x0c then Some(0)
    else if reg == 0x2c then Some(id.subsystemDeviceId * 0x1_0000 + id.subsystemVendorId)
    else if reg == 0x34 && hasCaps then Some(if id.msiCapable then 0x40 else EXTRA_CAP_OFFSET)
    else if reg == 0x3c then Some(id.interruptLine + id.interruptPin * 0x100)
    else if reg == 0x40 && id.msiCapable then
      Some(0x05 + (if id.extraCaps == [] then 0 else EXTRA_CAP_OFFSET * 0x100) + if s.msi.enabled then 0x1_0000 else 0)
    else if reg == 0x44 && id.msiCapable then Some(s.msi.address)
    else if reg == 0x48 && id.msiCapable then Some(s.msi.data)
    else if BarIndex(reg).Some? then None
    else Some(ReadExtraCap(id.extraCaps, reg))
  }

  function ReadDword(st: Pci, k: nat, reg: u16, fullDword: bool): (Pci, u32)
    requires k < |st.slots|
  {
    var s, i := st.slots[k], BarIndex(reg);
    match Register(s, reg)
    case Some(v) => (st, v)
    case None =>
      if i.None? || i.value >= |s.bars| then (st, 0)
      else
        var (b, v) := ReadBar(s.bars[i.value], fullDword);
        (WithBar(st, k, i.value, b), v)
  }

  function Ones(n: nat): (bs: seq<u8>)
    ensures |bs| == n
  {
    seq(n, _ => 0xff)
  }

  function ConfigRead(st: Pci, off: u16, n: nat): (Pci, seq<u8>)
    requires off < 4
  {
    match DecodeAddress(st.address)
    case None => (st, Ones(n))
    case Some((devfn, reg)) =>
      match FindSlot(st.slots, devfn)
      case None => (st, Ones(n))
      case Some(k) =>
        var (st', v) := ReadDword(st, k, reg, off == 0 && n == 4);
        var count := Min(n, 4 - off);
        (st', Le4(v)[off..off + count] + Ones(n - count))
  }

  ghost function IoOut(st: Pci, port: u16, data: seq<u8>): Pci {
    if port == CONFIG_ADDRESS && |data| == 4 then st.(address := FromLe4(data))
    else if CONFIG_DATA <= port <= CONFIG_DATA_END then ConfigWrite(st, port - CONFIG_DATA, data)
    else st
  }

  function IoIn(st: Pci, port: u16, n: nat): (Pci, seq<u8>) {
    if port == CONFIG_ADDRESS && n == 4 then (st, Le4(st.address))
    else if CONFIG_DATA <= port <= CONFIG_DATA_END then ConfigRead(st, port - CONFIG_DATA, n)
    else (st, Ones(n))
  }

  // --- What every run keeps --------------------------------------------------------------

  ghost predicate BarOk(b: Bar) {
    && (b.base.Some? ==> b.Implemented() && b.base.value % b.Align() == 0)
    && (b.sizing ==> b.Implemented())
  }

  ghost predicate SlotOk(s: Slot) {
    |s.bars| == NUM_BARS && forall i :: 0 <= i < |s.bars| ==> BarOk(s.bars[i])
  }

  ghost predicate SlotsOk(slots: seq<Slot>) {
    && (forall k :: 0 <= k < |slots| ==> SlotOk(slots[k]))
    && forall k, l :: 0 <= k < l < |slots| ==> slots[k].devfn != slots[l].devfn && slots[k].device != slots[l].device
  }

  /** `r` is exactly the range BAR `b` of slot `s` asks for. */
  ghost predicate IsBarRegion(s: Slot, b: Bar, r: Region) {
    && b.base.Some? && b.base.value != 0 && b.Implemented()
    && r == Region(b.base.value, b.base.value + b.size - 1, s.device, IrqOf(s.identity))
  }

  /** A slot's device is mapped on a bus only at the range of one of its BARs there. */
  ghost predicate SlotMapped(s: Slot, m: Mapping, isIo: bool) {
    s.device in m ==>
      exists i :: 0 <= i < |s.bars| && s.bars[i].isIo == isIo && IsBarRegion(s, s.bars[i], m[s.device])
  }

  ghost function Devices(slots: seq<Slot>): set<DeviceId> {
    set k | 0 <= k < |slots| :: slots[k].device
  }

  /** Regions of one bus are disjoint, one per device; the fixed ones stay. */
  ghost predicate BusOk(slots: seq<Slot>, m: Mapping, isIo: bool, fixed: Mapping) {
    && Disjoint(m)
    && (forall k :: 0 <= k < |slots| ==> SlotMapped(slots[k], m, isIo) && slots[k].device !in fixed)
    && m - Devices(slots) == fixed
  }

  ghost predicate Inv(st: Pci, fixedMmio: Mapping, fixedIo: Mapping) {
    SlotsOk(st.slots) && BusOk(st.slots, st.mmio, false, fixedMmio) && BusOk(st.slots, st.io, true, fixedIo)
  }

  /** A slot changed in its BARs at most, with the bus changed at most at its device. */
  lemma BusOkUpdate(slots: seq<Slot>, m: Mapping, isIo: bool, fixed: Mapping, k: nat, s: Slot, m': Mapping)
    requires k < |slots| && SlotsOk(slots) && BusOk(slots, m, isIo, fixed)
    requires s.device == slots[k].device
    requires Disjoint(m') && m' - {s.device} == m - {s.device} && SlotMapped(s, m', isIo)
    ensures BusOk(slots[k := s], m', isIo, fixed)
  {
    var slots' := slots[k := s];
    assert Devices(slots') == Devices(slots) by {
      assert forall j :: 0 <= j < |slots| ==> slots'[j].device == slots[j].device;
    }
    forall j | 0 <= j < |slots|
      ensures SlotMapped(slots'[j], m', isIo) && slots'[j].device !in fixed
    {
      if j != k {
        assert slots[j].device != s.device;
        var d := slots[j].device;
        assert d in m' <==> d in m' - {s.device};
        assert d in m <==> d in m - {s.device};
        if d in m' {
          assert m'[d] == (m' - {s.device})[d] == (m - {s.device})[d] == m[d];
        }
      }
    }
    assert m' - Devices(slots) == m - Devices(slots) by {
      var ds := Devices(slots);
      assert s.device in ds by { assert slots[k].device == s.device; }
      assert m' - ds == (m' - {s.device}) - ds;
      assert m - ds == (m - {s.device}) - ds;
    }
  }

  lemma SlotsOkUpdate(slots: seq<Slot>, k: nat, s: Slot)
    requires k < |slots| && SlotsOk(slots) && SlotOk(s)
    requires s.device == slots[k].device && s.devfn == slots[k].devfn
    ensures SlotsOk(slots[k := s])
  {}

  lemma SlotMappedBar(s: Slot, m: Mapping, isIo: bool, i: nat, b: Bar)
    requires i < |s.bars| && SlotMapped(s, m, isIo)
    requires b.isIo == s.bars[i].isIo && b.size == s.bars[i].size
    requires b.isIo != isIo || b.base == s.bars[i].base
    ensures SlotMapped(s.(bars := s.bars[i := b]), m, isIo)
  {
    var s' := s.(bars := s.bars[i := b]);
    if s.device in m {
      var j :| 0 <= j < |s.bars| && s.bars[j].isIo == isIo && IsBarRegion(s, s.bars[j], m[s.device]);
      assert s'.bars[j].isIo == isIo && IsBarRegion(s', s'.bars[j], m[s.device]);
    }
  }

  lemma SlotOkBar(s: Slot, i: nat, b: Bar)
    requires SlotOk(s) && i < |s.bars| && b.isIo == s.bars[i].isIo && b.size == s.bars[i].size && BarOk(b)
    ensures SlotOk(s.(bars := s.bars[i := b]))
  {}

  /** Changing a BAR's latch, or nothing, leaves the mappings right. */
  lemma LatchKeepsInv(st: Pci, k: nat, i: nat, b: Bar, fixedMmio: Mapping, fixedIo: Mapping)
    requires Inv(st, fixedMmio, fixedIo) && k < |st.slots| && i < |st.slots[k].bars|
    requires b == st.slots[k].bars[i].(sizing := b.sizing) && BarOk(b)
    ensures Inv(WithBar(st, k, i, b), fixedMmio, fixedIo)
  {
    hide SlotOk, SlotMapped, Disjoint;
    var s := st.slots[k];
    var s' := s.(bars := s.bars[i := b]);
    SlotOkBar(s, i, b);
    SlotsOkUpdate(st.slots, k, s');
    SlotMappedBar(s, st.mmio, false, i, b);
    SlotMappedBar(s, st.io, true, i, b);
    BusOkUpdate(st.slots, st.mmio, false, fixedMmio, k, s', st.mmio);
    BusOkUpdate(st.slots, st.io, true, fixedIo, k, s', st.io);
  }

  /** The mapping of one bus after a BAR on it is given the address `base`. */
  ghost function Remapped(m: Mapping, s: Slot, b: Bar, base: u32): Mapping {
    if base == 0 then m - {s.device} else Registered(m, base, b.size, s.device, IrqOf(s.identity))
  }

  lemma RemappedOk(m: Mapping, s: Slot, i: nat, base: u32)
    requires i < |s.bars| && s.bars[i].Implemented() && Disjoint(m)
    ensures var b := s.bars[i].(base := Some(base));
            var m' := Remapped(m, s, b, base);
            Disjoint(m') && m' - {s.device} == m - {s.device} && SlotMapped(s.(bars := s.bars[i := b]), m', b.isIo)
  {
    var b := s.bars[i].(base := Some(base));
    var m' := Remapped(m, s, b, base);
    var s' := s.(bars := s.bars[i := b]);
    if base == 0 {
      RemovedDisjoint(m, s.device);
    } else {
      RegisteredDisjoint(m, base, b.size, s.device, IrqOf(s.identity));
      if s.device in m' {
        assert IsBarRegion(s', s'.bars[i], m'[s.device]);
      }
    }
  }

  lemma AlignDownAligned(x: u32, align: nat)
    requires align == 4 || align == 16
    ensures AlignDown(x, align) % align == 0
  {}

  lemma WriteBarKeepsInv(st: Pci, k: nat, i: nat, val: u32, fixedMmio: Mapping, fixedIo: Mapping)
    requires Inv(st, fixedMmio, fixedIo) && k < |st.slots| && i < |st.slots[k].bars|
    ensures Inv(WriteBar(st, k, i, val), fixedMmio, fixedIo)
  {
    var s := st.slots[k];
    var b := s.bars[i];
    if b.Implemented() {
      if val == ALL_ONES {
        LatchKeepsInv(st, k, i, b.(sizing := true), fixedMmio, fixedIo);
      } else {
        hide SlotOk, SlotMapped, Disjoint, Registered, AlignDown;
        AlignDownAligned(val, b.Align());
        var base := AlignDown(val, b.Align());
        var b' := b.(base := Some(base));
        var s' := s.(bars := s.bars[i := b']);
        SlotOkBar(s, i, b');
        SlotsOkUpdate(st.slots, k, s');
        if b.isIo {
          RemappedOk(st.io, s, i, base);
          SlotMappedBar(s, st.mmio, false, i, b');
          BusOkUpdate(st.slots, st.io, true, fixedIo, k, s', Remapped(st.io, s, b', base));
          BusOkUpdate(st.slots, st.mmio, false, fixedMmio, k, s', st.mmio);
        } else {
          RemappedOk(st.mmio, s, i, base);
          SlotMappedBar(s, st.io, true, i, b');
          BusOkUpdate(st.slots, st.mmio, false, fixedMmio, k, s', Remapped(st.mmio, s, b', base));
          BusOkUpdate(st.slots, st.io, true, fixedIo, k, s', st.io);
        }
      }
    }
  }

  /** Registers other than BARs do not bear on the mappings. */
  lemma PlainKeepsInv(st: Pci, k: nat, s: Slot, fixedMmio: Mapping, fixedIo: Mapping)
    requires Inv(st, fixedMmio, fixedIo) && k < |st.slots|
    requires s == st.slots[k].(command := s.command, msi := s.msi)
    ensures Inv(st.(slots := st.slots[k := s]), fixedMmio, fixedIo)
  {
    hide Disjoint;
    SlotsOkUpdate(st.slots, k, s);
    assert SlotMapped(st.slots[k], st.mmio, false) && SlotMapped(st.slots[k], st.io, true);
    assert SlotMapped(s, st.mmio, false) by { SameMapped(st.slots[k], s, st.mmio, false); }
    assert SlotMapped(s, st.io, true) by { SameMapped(st.slots[k], s, st.io, true); }
    BusOkUpdate(st.slots, st.mmio, false, fixedMmio, k, s, st.mmio);
    BusOkUpdate(st.slots, st.io, true, fixedIo, k, s, st.io);
  }

  lemma SameMapped(s: Slot, s': Slot, m: Mapping, isIo: bool)
    requires SlotMapped(s, m, isIo) && s'.device == s.device && s'.bars == s.bars && s'.identity == s.identity
    ensures SlotMapped(s', m, isIo)
  {
    if s.device in m {
      var j :| 0 <= j < |s.bars| && s.bars[j].isIo == isIo && IsBarRegion(s, s.bars[j], m[s.device]);
      assert IsBarRegion(s', s'.bars[j], m[s.device]);
    }
  }

  lemma OutKeepsInv(st: Pci, port: u16, data: seq<u8>, fixedMmio: Mapping, fixedIo: Mapping)
    requires Inv(st, fixedMmio, fixedIo)
    ensures Inv(IoOut(st, port, data), fixedMmio, fixedIo)
  {
    hide SlotsOk, BusOk, WriteBar;
    if CONFIG_DATA <= port <= CONFIG_DATA_END && DecodeAddress(st.address).Some? {
      var (devfn, reg) := DecodeAddress(st.address).value;
      var k := FindSlot(st.slots, devfn);
      if k.Some? {
        var off := port - CONFIG_DATA;
        SlotWriteKeepsInv(st, k.value, reg, off, data, fixedMmio, fixedIo);
      }
    }
  }

  lemma SlotWriteKeepsInv(st: Pci, k: nat, reg: u16, off: u16, data: seq<u8>, fixedMmio: Mapping, fixedIo: Mapping)
    requires Inv(st, fixedMmio, fixedIo) && k < |st.slots|
    ensures Inv(SlotWrite(st, k, reg, off, data), fixedMmio, fixedIo)
  {
    hide SlotsOk, BusOk, WriteBar;
    var s, st' := st.slots[k], SlotWrite(st, k, reg, off, data);
    var i := BarIndex(reg);
    if i.Some? && i.value < |s.bars| && off == 0 && |data| == 4 {
      WriteBarKeepsInv(st, k, i.value, FromLe4(data), fixedMmio, fixedIo);
    } else if st' != st {
      PlainKeepsInv(st, k, st'.slots[k], fixedMmio, fixedIo);
    }
  }

  lemma InKeepsInv(st: Pci, port: u16, n: nat, fixedMmio: Mapping, fixedIo: Mapping)
    requires Inv(st, fixedMmio, fixedIo)
    ensures Inv(IoIn(st, port, n).0, fixedMmio, fixedIo)
  {
    hide BusOk, Register;
    if CONFIG_DATA <= port <= CONFIG_DATA_END && DecodeAddress(st.address).Some? {
      var (devfn, reg) := DecodeAddress(st.address).value;
      var k := FindSlot(st.slots, devfn);
      var i := BarIndex(reg);
      if k.Some? && i.Some? {
        var s := st.slots[k.value];
        if i.value < |s.bars| {
          var off := port - CONFIG_DATA;
          LatchKeepsInv(st, k.value, i.value, ReadBar(s.bars[i.value], off == 0 && n == 4).0, fixedMmio, fixedIo);
        }
      }
    }
  }

  // --- Runs ---------------------------------------------------------------------------------

  datatype PortOp = Out(port: u16, data: seq<u8>) | In(port: u16, n: nat)

  ghost function Apply(st: Pci, op: PortOp): Pci {
    match op
    case Out(port, data) => IoOut(st, port, data)
    case In(port, n) => IoIn(st, port, n).0
  }

  ghost function Run(st: Pci, ops: seq<PortOp>): Pci {
    if ops == [] then st else Apply(Run(st, ops[..|ops| - 1]), ops[|ops| - 1])
  }

  /** Devices registered and nothing programmed; only the fixed mappings exist. */
  ghost predicate FreshSlot(s: Slot) {
    && |s.bars| == NUM_BARS && s.command == 0 && s.msi == Msi(false, 0, 0)
    && forall i :: 0 <= i < |s.bars| ==> s.bars[i].base.None? && !s.bars[i].sizing
  }

  ghost predicate Fresh(st: Pci) {
    && Disjoint(st.mmio) && Disjoint(st.io)
    && (forall k :: 0 <= k < |st.slots| ==>
          FreshSlot(st.slots[k]) && st.slots[k].device !in st.mmio && st.slots[k].device !in st.io)
    && forall k, l :: 0 <= k < l < |st.slots| ==>
         st.slots[k].devfn != st.slots[l].devfn && st.slots[k].device != st.slots[l].device
  }

  lemma FreshInv(st: Pci)
    requires Fresh(st)
    ensures Inv(st, st.mmio, st.io)
  {
    assert st.mmio - Devices(st.slots) == st.mmio;
    assert st.io - Devices(st.slots) == st.io;
  }

  /** After any traffic on the two ports, both buses hold disjoint regions, one per
      device; a device is mapped only at exactly its BAR's range, at a non-zero
      base; and mappings that are not PCI's are as they were. */
  lemma {:induction false} EveryRunKeepsInv(st: Pci, ops: seq<PortOp>)
    requires Fresh(st)
    ensures Inv(Run(st, ops), st.mmio, st.io)
    decreases |ops|
  {
    hide Inv, Apply, Fresh;
    if ops == [] {
      FreshInv(st);
    } else {
      var n := |ops| - 1;
      EveryRunKeepsInv(st, ops[..n]);
      ApplyKeepsInv(Run(st, ops[..n]), ops[n], st.mmio, st.io);
    }
  }

  lemma ApplyKeepsInv(st: Pci, op: PortOp, fixedMmio: Mapping, fixedIo: Mapping)
    requires Inv(st, fixedMmio, fixedIo)
    ensures Inv(Apply(st, op), fixedMmio, fixedIo)
  {
    hide Inv, IoOut, IoIn;
    match op
    case Out(port, data) => OutKeepsInv(st, port, data, fixedMmio, fixedIo);
    case In(port, n) => InKeepsInv(st, port, n, fixedMmio, fixedIo);
  }

  /** A non-zero address is refused exactly when it overlaps another device; a
      refused device is left unmapped. Nothing else on the buses changes. */
  lemma BarWriteExactly(st: Pci, k: nat, i: nat, val: u32)
    requires k < |st.slots| && i < |st.slots[k].bars|
    requires st.slots[k].bars[i].Implemented() && val != ALL_ONES
    ensures var s, b, st' := st.slots[k], st.slots[k].bars[i], WriteBar(st, k, i, val);
            var base := val - val % (if b.isIo then 4 else 16);
            var m, m' := if b.isIo then st.io else st.mmio, if b.isIo then st'.io else st'.mmio;
            && (s.device !in m' <==> base == 0 || Clashes(m - {s.device}, base, base + b.size - 1))
            && (s.device in m' ==> m'[s.device] == Region(base, base + b.size - 1, s.device,
                     if s.identity.interruptLine != 0 then Some(s.identity.interruptLine) else None))
            && m' - {s.device} == m - {s.device}
            && (if b.isIo then st'.mmio == st.mmio else st'.io == st.io)
            && st'.slots == st.slots[k := s.(bars := s.bars[i := b.(base := Some(base))])] && st'.address == st.address
  {
    assert AlignDown(val, st.slots[k].bars[i].Align()) == val - val % (if st.slots[k].bars[i].isIo then 4 else 16);
    hide AlignDown;
  }

  /** A device has one region on a bus, so mapping a second BAR of the same space takes
      the first one's mapping away, wherever the two lie. */
  lemma SecondBarDisplacesFirst(st: Pci, k: nat, i: nat, j: nat, first: u32, second: u32, addr: u64)
    requires k < |st.slots| && i < |st.slots[k].bars| && j < |st.slots[k].bars| && i != j
    requires var b, c := st.slots[k].bars[i], st.slots[k].bars[j];
             b.Implemented() && c.Implemented() && !b.isIo && !c.isIo
    requires AlignDown(second, 16) != 0 && second != ALL_ONES
    requires !(AlignDown(second, 16) <= addr < AlignDown(second, 16) + st.slots[k].bars[j].size)
    ensures var st' := WriteBar(WriteBar(st, k, i, first), k, j, second);
            st.slots[k].device in st'.mmio ==> !Contains(st'.mmio[st.slots[k].device], addr)
  {
    hide AlignDown;
    var st1 := WriteBar(st, k, i, first);
    assert st1.slots[k].bars[j] == st.slots[k].bars[j] && st1.slots[k].device == st.slots[k].device;
  }
}
