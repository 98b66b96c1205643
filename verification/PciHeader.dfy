/** What a driver reads of a device: the type 0 configuration header (section 6.1 of PCI
    Local Bus 3.0) and the capabilities behind it, byte by byte. */
module PciHeaders {
  import opened Bytes
  import opened Buses
  import opened PciSpace
  import Sizing = PciSizing
  import opened PciMsi

  // --- The header ----------------------------------------------------------------

  predicate HasCaps(id: Identity) {
    id.msiCapable || id.extraCaps != []
  }

  /** Where the list of capabilities starts: MSI first, then the device's own. */
  function FirstCap(id: Identity): u8 {
    if id.msiCapable then 0x40 else if id.extraCaps != [] then 0x50 else 0
  }

  /** The MSI capability: id 5, the next capability, the enable bit, address and data. */
  function MsiCap(s: Slot): (bs: seq<u8>)
    ensures |bs| == 12
  {
    [5, if s.identity.extraCaps != [] then 0x50 else 0] + Le2(if s.msi.enabled then 1 else 0)
    + Le4(s.msi.address) + Le2(s.msi.data) + [0, 0]
  }

  /** The byte at offset `a` of the device's configuration space. */
  function HeaderByte(s: Slot, a: nat): u8
    requires |s.bars| == NUM_BARS && a < 0x100
  {
    var id := s.identity;
    if a < 0x02 then Le2(id.vendorId)[a]
    else if a < 0x04 then Le2(id.deviceId)[a - 0x02]
    else if a < 0x06 then Le2(s.command)[a - 0x04]
    else if a < 0x08 then Le2(if HasCaps(id) then 0x10 else 0)[a - 0x06]
    else if a < 0x09 then id.revisionId
    else if a < 0x0c then Le4(id.classCode)[a - 0x09]
    else if a < 0x10 then 0
    else if a < 0x28 then Le4(ReadBar(s.bars[(a - 0x10) / 4], false).1)[(a - 0x10) % 4]
    else if a < 0x2c then 0
    else if a < 0x2e then Le2(id.subsystemVendorId)[a - 0x2c]
    else if a < 0x30 then Le2(id.subsystemDeviceId)[a - 0x2e]
    else if a == 0x34 then FirstCap(id)
    else if a == 0x3c then id.interruptLine
    else if a == 0x3d then id.interruptPin
    else if 0x40 <= a < 0x4c && id.msiCapable then MsiCap(s)[a - 0x40]
    else if 0x50 <= a && a - 0x50 < |id.extraCaps| then id.extraCaps[a - 0x50]
    else 0
  }

  function HeaderDword(s: Slot, reg: nat): (bs: seq<u8>)
    requires |s.bars| == NUM_BARS && reg + 4 <= 0x100
    ensures |bs| == 4
  {
    [HeaderByte(s, reg), HeaderByte(s, reg + 1), HeaderByte(s, reg + 2), HeaderByte(s, reg + 3)]
  }

  // --- Dwords and their bytes --------------------------------------------------------

  lemma TwoHalves(lo: u16, hi: u16)
    ensures Le4(hi * 0x1_0000 + lo) == Le2(lo) + Le2(hi)
  {
    hide Le2;
    DivMod(hi * 0x1_0000 + lo, 0x1_0000, hi, lo);
  }

  lemma SmallDword(v: u8)
    ensures Le4(v) == [v, 0, 0, 0]
  {
    TwoHalves(v, 0);
  }

  /** Class code and revision: the class code is the upper three bytes. */
  lemma ClassDword(classCode: u32, revision: u8)
    ensures var v := classCode * 0x100 % 0x1_0000_0000 + revision;
            v < 0x1_0000_0000 && Le4(v) == [revision] + Le4(classCode)[..3]
  {
    var lo, hi := classCode % 0x1_0000, classCode / 0x1_0000;
    var b0, b1, b2, b3 := lo % 0x100, lo / 0x100, hi % 0x100, hi / 0x100;
    assert classCode == b0 + 0x100 * b1 + 0x1_0000 * b2 + 0x100_0000 * b3;
    var low := 0x100 * b0 + 0x1_0000 * b1 + 0x100_0000 * b2;
    DivMod(classCode * 0x100, 0x1_0000_0000, b3, low);
    TwoHalves(revision + 0x100 * b0, b1 + 0x100 * b2);
    DivMod(revision + 0x100 * b0, 0x100, b0, revision);
    DivMod(b1 + 0x100 * b2, 0x100, b2, b1);
    assert Le4(classCode) == [b0, b1, b2, b3];
  }

  lemma FixedDword(s: Slot, reg: u16)
    requires |s.bars| == NUM_BARS
    requires reg == 0x00 || reg == 0x04 || reg == 0x08 || reg == 0x0c || reg == 0x2c || reg == 0x34 || reg == 0x3c
    ensures Register(s, reg).Some? && Le4(Register(s, reg).value) == HeaderDword(s, reg)
  {
    hide Le4, ReadBar;
    var id := s.identity;
    TwoHalves(id.vendorId, id.deviceId);
    TwoHalves(s.command, if HasCaps(id) then 0x10 else 0);
    ClassDword(id.classCode, id.revisionId);
    TwoHalves(id.subsystemVendorId, id.subsystemDeviceId);
    SmallDword(0);
    SmallDword(FirstCap(id));
    InterruptDword(id.interruptLine, id.interruptPin);
  }

  lemma InterruptDword(line: u8, pin: u8)
    ensures Le4(line + pin * 0x100) == [line, pin, 0, 0]
  {
    hide Le4;
    TwoHalves(line + pin * 0x100, 0);
    DivMod(line + pin * 0x100, 0x100, pin, line);
  }

  lemma MsiDword(s: Slot, reg: u16)
    requires |s.bars| == NUM_BARS && s.identity.msiCapable && (reg == 0x40 || reg == 0x44 || reg == 0x48)
    ensures Register(s, reg).Some? && Le4(Register(s, reg).value) == HeaderDword(s, reg)
  {
    hide Le4, ReadBar;
    var next: u8 := if s.identity.extraCaps != [] then 0x50 else 0;
    var ctrl: u16 := if s.msi.enabled then 1 else 0;
    TwoHalves(5 + 0x100 * next, ctrl);
    DivMod(5 + 0x100 * next, 0x100, next, 5);
    TwoHalves(s.msi.data, 0);
    var cap := MsiCap(s);
    assert cap[4] == Le4(s.msi.address)[0] && cap[5] == Le4(s.msi.address)[1];
    assert cap[6] == Le4(s.msi.address)[2] && cap[7] == Le4(s.msi.address)[3];
  }

  lemma ExtraDword(s: Slot, reg: u16)
    requires |s.bars| == NUM_BARS && reg % 4 == 0 && 0x50 <= reg <= 0xfc
    ensures Register(s, reg).Some? && Le4(Register(s, reg).value) == HeaderDword(s, reg)
  {
    hide Le4, FromLe4, ReadBar;
    var caps, start := s.identity.extraCaps, reg - 0x50;
    if start >= |caps| {
      SmallDword(0);
    } else {
      var bs := (caps[start..] + [0, 0, 0, 0])[..4];
      FromLe4RoundTrip(bs);
      assert bs == HeaderDword(s, reg);
    }
  }

  lemma BlankDword(s: Slot, reg: u16)
    requires |s.bars| == NUM_BARS
    requires reg == 0x28 || reg == 0x30 || reg == 0x38 || reg == 0x4c ||
             (!s.identity.msiCapable && (reg == 0x40 || reg == 0x44 || reg == 0x48))
    ensures Register(s, reg).Some? && Le4(Register(s, reg).value) == HeaderDword(s, reg)
  {
    hide Le4, FromLe4, ReadBar;
    SmallDword(0);
  }

  lemma BarDword(s: Slot, i: nat)
    requires |s.bars| == NUM_BARS && i < NUM_BARS
    ensures Register(s, 0x10 + 4 * i).None? && BarIndex(0x10 + 4 * i) == Some(i)
    ensures Le4(ReadBar(s.bars[i], false).1) == HeaderDword(s, 0x10 + 4 * i)
  {
    hide Le4, ReadBar;
    var a := 4 * i;
    DivMod(a, 4, i, 0);
    DivMod(a + 1, 4, i, 1);
    DivMod(a + 2, 4, i, 2);
    DivMod(a + 3, 4, i, 3);
  }

  /** Which of these a register is. */
  lemma EveryRegister(reg: u16)
    requires reg <= 0xfc && reg % 4 == 0
    ensures || reg == 0x00 || reg == 0x04 || reg == 0x08 || reg == 0x0c || reg == 0x2c || reg == 0x34 || reg == 0x3c
            || reg == 0x28 || reg == 0x30 || reg == 0x38 || reg == 0x40 || reg == 0x44 || reg == 0x48 || reg == 0x4c
            || 0x50 <= reg || (0x10 <= reg <= 0x24 && reg == 0x10 + 4 * ((reg - 0x10) / 4))
  {}

  // --- Reading it ------------------------------------------------------------------------

  /** The whole machine after a dword read of BAR `i`: only a sizing is over. */
  function SizingOver(st: Pci, k: nat, reg: u16): Pci
    requires k < |st.slots| && |st.slots[k].bars| == NUM_BARS
  {
    match BarIndex(reg)
    case Some(i) => WithBar(st, k, i, st.slots[k].bars[i].(sizing := false))
    case None => st
  }

  lemma DwordRead(st: Pci, k: nat, reg: u16, full: bool)
    requires SlotsOk(st.slots) && k < |st.slots| && reg <= 0xfc && reg % 4 == 0
    ensures |st.slots[k].bars| == NUM_BARS
    ensures var (st', v) := ReadDword(st, k, reg, full);
            Le4(v) == HeaderDword(st.slots[k], reg) && st' == if full then SizingOver(st, k, reg) else st
  {
    hide Le4, FromLe4, ReadBar, Register, HeaderByte, HeaderDword;
    var s := st.slots[k];
    Sizing.SlotIsOk(st.slots, k);
    EveryRegister(reg);
    if 0x10 <= reg <= 0x24 {
      var i := (reg - 0x10) / 4;
      BarDword(s, i);
      Sizing.SameWithBar(st, k, i);
      BarRead(s.bars[i], full);
    } else {
      assert BarIndex(reg) == None;
      if 0x50 <= reg {
        ExtraDword(s, reg);
      } else if s.identity.msiCapable && (reg == 0x40 || reg == 0x44 || reg == 0x48) {
        MsiDword(s, reg);
      } else if reg == 0x28 || reg == 0x30 || reg == 0x38 || reg == 0x40 || reg == 0x44 || reg == 0x48 || reg == 0x4c {
        BlankDword(s, reg);
      } else {
        FixedDword(s, reg);
      }
    }
  }

  lemma BarRead(b: Bar, full: bool)
    requires BarOk(b)
    ensures ReadBar(b, full).1 == ReadBar(b, false).1
    ensures ReadBar(b, full).0 == if full then b.(sizing := false) else b
  {
    hide AlignDown;
  }

  /** After CF8 selects a device and a register, a read of any width at any of the four
      data ports gives the bytes of the configuration space from there to the end of the
      dword, then ones. The machine is unchanged, but for the end of a sizing when the
      whole dword of a BAR is read. */
  lemma HeaderRead(st: Pci, k: nat, reg: u16, off: u16, n: nat)
    requires SlotsOk(st.slots) && k < |st.slots| && reg <= 0xfc && reg % 4 == 0 && off < 4
    ensures |st.slots[k].bars| == NUM_BARS
    ensures var st1 := IoOut(st, 0xcf8, Le4(0x8000_0000 + st.slots[k].devfn * 0x100 + reg));
            var (st2, data) := IoIn(st1, 0xcfc + off, n);
            && |data| == n
            && (forall j :: 0 <= j < n && off + j < 4 ==> data[j] == HeaderByte(st.slots[k], reg + off + j))
            && (forall j :: 0 <= j < n && off + j >= 4 ==> data[j] == 0xff)
            && st1.slots == st.slots && st1.mmio == st.mmio && st1.io == st.io
            && st2 == if off == 0 && n == 4 then SizingOver(st1, k, reg) else st1
  {
    hide Le4, FromLe4, DecodeAddress, FindSlot, ReadDword, Selector, HeaderByte, SizingOver, SlotsOk;
    var s := st.slots[k];
    SelectedBy(st, k, reg);
    var st1 := IoOut(st, 0xcf8, Le4(Selector(s.devfn, reg)));
    DwordRead(st1, k, reg, off == 0 && n == 4);
    var v := ReadDword(st1, k, reg, off == 0 && n == 4).1;
    PartOfDword(HeaderDword(s, reg), off, n);
    var count := Min(n, 4 - off);
    forall i | off <= i < off + count
      ensures Le4(v)[i] == HeaderByte(s, reg + i)
    {
      DwordByte(s, reg, i);
    }
  }

  lemma DwordByte(s: Slot, reg: nat, j: nat)
    requires |s.bars| == NUM_BARS && reg + 4 <= 0x100 && j < 4
    ensures HeaderDword(s, reg)[j] == HeaderByte(s, reg + j)
  {
    hide HeaderByte;
  }

  lemma PartOfDword(dword: seq<u8>, off: nat, n: nat)
    requires |dword| == 4 && off < 4
    ensures var count := Min(n, 4 - off);
            var data := dword[off..off + count] + Ones(n - count);
            && |data| == n && (forall j :: 0 <= j < count ==> data[j] == dword[off + j])
            && (forall j :: count <= j < n ==> data[j] == 0xff)
  {}

  lemma SelectedBy(st: Pci, k: nat, reg: u16)
    requires SlotsOk(st.slots) && k < |st.slots| && reg <= 0xfc && reg % 4 == 0
    ensures var st1 := IoOut(st, 0xcf8, Le4(0x8000_0000 + st.slots[k].devfn * 0x100 + reg));
            && st1 == st.(address := 0x8000_0000 + st.slots[k].devfn * 0x100 + reg)
            && Selector(st.slots[k].devfn, reg) == 0x8000_0000 + st.slots[k].devfn * 0x100 + reg
            && DecodeAddress(st1.address) == Some((st.slots[k].devfn, reg))
            && FindSlot(st1.slots, st.slots[k].devfn) == Some(k)
  {
    hide Le4, FromLe4, DecodeAddress, FindSlot, SlotOk;
    Le4RoundTrip(Selector(st.slots[k].devfn, reg));
    Selects(st.slots[k].devfn, reg);
    Sizing.FindSlotIs(st.slots, k);
  }

  // --- Where nothing answers ------------------------------------------------------------------

  /** The selected address is not enabled, is on another bus, or names no device here. */
  ghost predicate Nobody(st: Pci) {
    || st.address < 0x8000_0000
    || st.address / 0x1_0000 % 0x100 != 0
    || forall k :: 0 <= k < |st.slots| ==> st.slots[k].devfn != st.address / 0x100 % 0x100
  }

  /** Then reads give ones and writes do nothing. */
  lemma NobodyAnswers(st: Pci, off: u16, n: nat, data: seq<u8>)
    requires Nobody(st) && off < 4
    ensures IoIn(st, 0xcfc + off, n) == (st, seq(n, _ => 0xff))
    ensures IoOut(st, 0xcfc + off, data) == st
  {
    hide SlotWrite, ReadDword;
  }

  /** CF8 is a register of its own, written and read in dwords. */
  lemma AddressPort(st: Pci, data: seq<u8>)
    requires |data| == 4
    ensures IoIn(IoOut(st, 0xcf8, data), 0xcf8, 4) == (IoOut(st, 0xcf8, data), data)
    ensures var st' := IoOut(st, 0xcf8, data);
            st' == st.(address := st'.address) && st'.address == Value(data)
  {
    hide Le4, FromLe4, Value;
    FromLe4RoundTrip(data);
    LittleEndian4(0, data);
  }

  // --- Writing it ---------------------------------------------------------------------------

  /** The command register takes the first two bytes written to it, and nothing else
      changes. */
  lemma CommandWritten(st: Pci, k: nat, data: seq<u8>)
    requires SlotsOk(st.slots) && k < |st.slots| && |data| >= 2
    ensures var st' := SelectWrite(st, st.slots[k].devfn, 0x04, 0, data);
            && |st'.slots| == |st.slots| && st'.slots[k].command == Value(data[..2])
            && st' == st.(address := st'.address,
                          slots := st.slots[k := st.slots[k].(command := st'.slots[k].command)])
  {
    hide FromLe2, SelectWrite, SlotsOk, Value;
    SelectWriteSlot(st, k, 0x04, 0, data);
    LittleEndian2(0, data[..2]);
  }

  /** So do the message control word, of which only the enable bit is kept, and the
      message data. */
  lemma MessageWritten(st: Pci, k: nat, data: seq<u8>)
    requires SlotsOk(st.slots) && k < |st.slots| && |data| >= 2 && st.slots[k].identity.msiCapable
    ensures var st' := SelectWrite(st, st.slots[k].devfn, 0x40, 2, data);
            st' == st.(address := st'.address,
                       slots := st.slots[k := st.slots[k].(msi := st.slots[k].msi.(enabled := data[0] % 2 == 1))])
    ensures var st' := SelectWrite(st, st.slots[k].devfn, 0x48, 0, data);
            && |st'.slots| == |st.slots| && st'.slots[k].msi.data == Value(data[..2])
            && st' == st.(address := st'.address,
                          slots := st.slots[k := st.slots[k].(msi := st.slots[k].msi.(data := st'.slots[k].msi.data))])
  {
    hide SelectWrite, SlotsOk, Value;
    SelectWriteSlot(st, k, 0x40, 2, data);
    SelectWriteSlot(st, k, 0x48, 0, data);
    LittleEndian2(0, data[..2]);
    LowBit(data[0], data[1]);
  }

  lemma LowBit(low: u8, high: u8)
    ensures ((low as int) + 0x100 * (high as int)) % 2 == low % 2
  {
    DivMod((low as int) + 0x100 * (high as int), 2, low / 2 + 0x80 * (high as int), low % 2);
  }

  /** A write changes something only as a word at the command or message registers, or as
      a whole dword at a BAR or the message address. */
  lemma OtherWritesIgnored(st: Pci, k: nat, reg: u16, off: u16, data: seq<u8>)
    requires k < |st.slots| && reg % 4 == 0
    requires !(reg == 0x04 && off == 0 && |data| >= 2)
    requires !(0x10 <= reg <= 0x24 && off == 0 && |data| == 4)
    requires !(st.slots[k].identity.msiCapable &&
               ((reg == 0x40 && off == 2 && |data| >= 2) || (reg == 0x44 && off == 0 && |data| == 4) ||
                (reg == 0x48 && off == 0 && |data| >= 2)))
    ensures SlotWrite(st, k, reg, off, data) == st
  {
    hide WriteBar;
  }
}
