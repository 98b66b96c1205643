/** MSI (section 6.8.1 of PCI Local Bus 3.0), programmed through the same two ports. */
module PciMsi {
  import opened Bytes
  import opened PciSpace
  import Sizing = PciSizing

  /** The MSI message of the device at `devfn`, if it is enabled. */
  function MsiState(st: Pci, devfn: u8): Option<(u32, u16)> {
    match FindSlot(st.slots, devfn)
    case Some(k) => if st.slots[k].msi.enabled then Some((st.slots[k].msi.address, st.slots[k].msi.data)) else None
    case None => None
  }

  /** The CF8 value that selects a register. */
  function Selector(devfn: u8, reg: u16): u32
    requires reg <= 0xfc && reg % 4 == 0
  {
    0x8000_0000 + devfn * 0x100 + reg
  }

  lemma Selects(devfn: u8, reg: u16)
    requires reg <= 0xfc && reg % 4 == 0
    ensures DecodeAddress(Selector(devfn, reg)) == Some((devfn, reg))
  {
    var a, r := Selector(devfn, reg), reg / 4;
    DivMod(a, 0x1_0000, 0x8000, devfn * 0x100 + reg);
    DivMod(0x8000, 0x100, 0x80, 0);
    DivMod(a, 0x100, 0x80_0000 + devfn, reg);
    DivMod(0x80_0000 + devfn, 0x100, 0x8000, devfn);
    DivMod(a, 4, 0x2000_0000 + 0x40 * devfn + r, 0);
    DivMod(0x2000_0000 + 0x40 * devfn + r, 0x40, 0x80_0000 + devfn, r);
  }

  /** Select, then write. */
  ghost function SelectWrite(st: Pci, devfn: u8, reg: u16, off: u16, data: seq<u8>): Pci
    requires reg <= 0xfc && reg % 4 == 0 && off < 4
  {
    IoOut(IoOut(st, CONFIG_ADDRESS, Le4(Selector(devfn, reg))), CONFIG_DATA + off, data)
  }

  lemma SelectWriteSlot(st: Pci, k: nat, reg: u16, off: u16, data: seq<u8>)
    requires SlotsOk(st.slots) && k < |st.slots| && reg <= 0xfc && reg % 4 == 0 && off < 4
    ensures SelectWrite(st, st.slots[k].devfn, reg, off, data) ==
            SlotWrite(st.(address := Selector(st.slots[k].devfn, reg)), k, reg, off, data)
  {
    hide SlotWrite, FindSlot, SlotOk, DecodeAddress, Selector, Le4, FromLe4;
    var devfn := st.slots[k].devfn;
    Le4RoundTrip(Selector(devfn, reg));
    Selects(devfn, reg);
    Sizing.FindSlotIs(st.slots, k);
  }

  /** Address, data, then the enable bit in message control: the device's message is
      what was written, and nothing else of the machine has changed. */
  lemma MsiProgrammed(st: Pci, k: nat, address: u32, data: u16)
    requires SlotsOk(st.slots) && k < |st.slots| && st.slots[k].identity.msiCapable
    ensures var devfn := st.slots[k].devfn;
            var st1 := SelectWrite(st, devfn, 0x44, 0, Le4(address));
            var st2 := SelectWrite(st1, devfn, 0x48, 0, Le2(data));
            var st3 := SelectWrite(st2, devfn, 0x40, 2, Le2(1));
            && MsiState(st3, devfn) == Some((address, data))
            && st3 == st.(address := st3.address,
                          slots := st.slots[k := st.slots[k].(msi := Msi(true, address, data))])
  {
    hide Le4, FromLe4, Selector, SelectWrite, FindSlot;
    var s := st.slots[k];
    Le4RoundTrip(address);
    Le2RoundTrip(data);
    assert Le2(data)[..2] == Le2(data) && Le2(1)[..2] == Le2(1) && FromLe2(Le2(1)) == 1;
    SelectWriteSlot(st, k, 0x44, 0, Le4(address));
    var st1 := SelectWrite(st, s.devfn, 0x44, 0, Le4(address));
    var s1 := s.(msi := s.msi.(address := address));
    assert st1.slots == st.slots[k := s1];
    SlotsOkUpdate(st.slots, k, s1);
    SelectWriteSlot(st1, k, 0x48, 0, Le2(data));
    var st2 := SelectWrite(st1, s.devfn, 0x48, 0, Le2(data));
    var s2 := s1.(msi := s1.msi.(data := data));
    assert st2.slots == st1.slots[k := s2];
    SlotsOkUpdate(st1.slots, k, s2);
    SelectWriteSlot(st2, k, 0x40, 2, Le2(1));
    var st3 := SelectWrite(st2, s.devfn, 0x40, 2, Le2(1));
    assert st3.slots == st2.slots[k := s2.(msi := s2.msi.(enabled := true))];
    SlotsOkUpdate(st2.slots, k, st3.slots[k]);
    Sizing.FindSlotIs(st3.slots, k);
  }

  /** With the enable bit written off the device has no message. */
  lemma MsiDisabled(st: Pci, k: nat, ctrl: u16)
    requires SlotsOk(st.slots) && k < |st.slots| && st.slots[k].identity.msiCapable && ctrl % 2 == 0
    ensures var st' := SelectWrite(st, st.slots[k].devfn, 0x40, 2, Le2(ctrl));
            && MsiState(st', st.slots[k].devfn) == None
            && st' == st.(address := st'.address,
                          slots := st.slots[k := st.slots[k].(msi := st.slots[k].msi.(enabled := false))])
  {
    hide Le2, FromLe2, SelectWrite, FindSlot, Selector;
    var s := st.slots[k];
    SelectWriteSlot(st, k, 0x40, 2, Le2(ctrl));
    Le2RoundTrip(ctrl);
    assert Le2(ctrl)[..2] == Le2(ctrl);
    var s' := s.(msi := s.msi.(enabled := false));
    SlotsOkUpdate(st.slots, k, s');
    Sizing.FindSlotIs(st.slots[k := s'], k);
  }
}
