/** The guest's BAR sizing sequence (section 6.2.5.1 of PCI Local Bus 3.0). */
module PciSizing {
  import opened Bytes
  import opened Buses
  import opened PciSpace

  /** The size a PCI core decodes from what a BAR reads after all ones: the two's
      complement of the address bits, which start at bit 2 (I/O) or 4 (memory). */
  function DecodedSize(v: u32, b: Bar): int {
    0x1_0000_0000 - (v - v % (if b.isIo then 4 else 16))
  }

  ghost function BusOf(st: Pci, b: Bar): Mapping {
    if b.isIo then st.io else st.mmio
  }

  /** CF8 selects BAR `i` of slot `k`. */
  ghost predicate Selected(st: Pci, k: nat, i: nat) {
    && k < |st.slots| && i < NUM_BARS
    && DecodeAddress(st.address) == Some((st.slots[k].devfn, (0x10 + 4 * i) as u16))
  }

  lemma FindSlotIs(slots: seq<Slot>, k: nat)
    requires k < |slots| && forall l :: 0 <= l < |slots| && l != k ==> slots[l].devfn != slots[k].devfn
    ensures FindSlot(slots, slots[k].devfn) == Some(k)
  {
    var r := FindSlot(slots, slots[k].devfn);
    assert r.Some? && slots[r.value].devfn == slots[k].devfn;
  }

  lemma ReadSelected(st: Pci, k: nat, i: nat)
    requires Selected(st, k, i) && SlotsOk(st.slots)
    ensures var (b, v) := ReadBar(st.slots[k].bars[i], true);
            IoIn(st, CONFIG_DATA, 4) == (WithBar(st, k, i, b), Le4(v))
  {
    hide ReadBar, SlotsOk, Le4, SlotOk;
    SlotIsOk(st.slots, k);
    FindSlotIs(st.slots, k);
    assert BarIndex(0x10 + 4 * i) == Some(i);
    assert Register(st.slots[k], 0x10 + 4 * i) == None;
    var (b, v) := ReadBar(st.slots[k].bars[i], true);
    assert Le4(v)[0..4] + Ones(0) == Le4(v);
  }

  lemma SlotIsOk(slots: seq<Slot>, k: nat)
    requires SlotsOk(slots) && k < |slots|
    ensures SlotOk(slots[k]) && |slots[k].bars| == NUM_BARS
    ensures forall l :: 0 <= l < |slots| && l != k ==> slots[l].devfn != slots[k].devfn
  {}

  lemma WriteSelected(st: Pci, k: nat, i: nat, v: u32)
    requires Selected(st, k, i) && SlotsOk(st.slots)
    ensures |st.slots[k].bars| == NUM_BARS && IoOut(st, CONFIG_DATA, Le4(v)) == WriteBar(st, k, i, v)
  {
    hide WriteBar, SlotsOk, Le4, FromLe4, SlotOk;
    SlotIsOk(st.slots, k);
    FindSlotIs(st.slots, k);
    Le4RoundTrip(v);
    assert BarIndex(0x10 + 4 * i) == Some(i);
  }

  lemma SizeMask(size: u32, align: nat, bit: nat)
    requires (align == 4 || align == 16) && bit <= 1 && size != 0
    ensures AlignDown(0x1_0000_0000 - size, align) + bit < 0x1_0000_0000
    ensures 0x1_0000_0000 - AlignDown(AlignDown(0x1_0000_0000 - size, align) + bit, align) == size <==> size % align == 0
  {
    if align == 4 {
      Mask4(size, bit);
    } else {
      Mask16(size, bit);
    }
  }

  lemma Mask4(size: u32, bit: nat)
    requires bit <= 1 && size != 0
    ensures var x := 0x1_0000_0000 - size - (0x1_0000_0000 - size) % 4 + bit;
            x < 0x1_0000_0000 && (0x1_0000_0000 - (x - x % 4) == size <==> size % 4 == 0)
  {
    var q, r := (0x1_0000_0000 - size) / 4, (0x1_0000_0000 - size) % 4;
    DivMod(4 * q + bit, 4, q, bit);
    if r == 0 {
      DivMod(size, 4, 0x4000_0000 - q, 0);
    } else {
      DivMod(size, 4, 0x4000_0000 - q - 1, 4 - r);
    }
  }

  lemma Mask16(size: u32, bit: nat)
    requires bit <= 1 && size != 0
    ensures var x := 0x1_0000_0000 - size - (0x1_0000_0000 - size) % 16 + bit;
            x < 0x1_0000_0000 && (0x1_0000_0000 - (x - x % 16) == size <==> size % 16 == 0)
  {
    var q, r := (0x1_0000_0000 - size) / 16, (0x1_0000_0000 - size) % 16;
    DivMod(16 * q + bit, 16, q, bit);
    if r == 0 {
      DivMod(size, 16, 0x1000_0000 - q, 0);
    } else {
      DivMod(size, 16, 0x1000_0000 - q - 1, 16 - r);
    }
  }

  /** BAR `i` of slot `k` is mapped: its device has the BAR's range. */
  ghost predicate Mapped(st: Pci, k: nat, i: nat)
    requires k < |st.slots| && i < |st.slots[k].bars|
  {
    var s, b := st.slots[k], st.slots[k].bars[i];
    s.device in BusOf(st, b) && IsBarRegion(s, b, BusOf(st, b)[s.device])
  }

  /** Giving a mapped BAR its own address again changes no mapping. */
  lemma RemapSame(m: Mapping, s: Slot, i: nat)
    requires i < |s.bars| && Disjoint(m) && s.device in m && IsBarRegion(s, s.bars[i], m[s.device])
    ensures Remapped(m, s, s.bars[i], s.bars[i].base.value) == m
  {
    var r := m[s.device];
    var others := m - {s.device};
    assert LastOf(r.base, s.bars[i].size) == r.last;
    assert !Clashes(others, r.base, r.last);
    assert others[s.device := r] == m;
  }

  lemma WriteBackOwn(st: Pci, k: nat, i: nat, v: u32, fixedMmio: Mapping, fixedIo: Mapping)
    requires Inv(st, fixedMmio, fixedIo) && k < |st.slots| && i < NUM_BARS && Mapped(st, k, i)
    requires v == st.slots[k].bars[i].base.value + st.slots[k].bars[i].SpaceBit()
    ensures |st.slots[k].bars| == NUM_BARS && v != ALL_ONES
    ensures WriteBar(st, k, i, v) == st
  {
    var s, b := st.slots[k], st.slots[k].bars[i];
    assert SlotOk(s) && BarOk(b);
    OwnBits(b, v);
    assert Disjoint(BusOf(st, b));
    hide Inv, SlotOk, SlotMapped, Disjoint, IsBarRegion, Registered, AlignDown, BarOk;
    RemapSame(BusOf(st, b), s, i);
    SameWithBar(st, k, i);
  }

  lemma OwnBits(b: Bar, v: u32)
    requires BarOk(b) && b.base.Some? && v == b.base.value + b.SpaceBit()
    ensures v != ALL_ONES && AlignDown(v, b.Align()) == b.base.value && BaseBits(b.base.value, b) == v
  {}

  /** What the BAR shows: its address, and then, once, the mask of its size. */
  lemma BarReads(b: Bar)
    requires BarOk(b) && b.base.Some? && b.base.value != 0 && !b.sizing
    ensures ReadBar(b, true) == (b, b.base.value + b.SpaceBit())
    ensures ReadBar(b.(sizing := true), true).0 == b
    ensures DecodedSize(ReadBar(b.(sizing := true), true).1, b) == b.size <==> b.size % (if b.isIo then 4 else 16) == 0
    ensures b.SpaceBit() == if b.isIo then 1 else 0
  {
    SizeMask(b.size, b.Align(), b.SpaceBit());
    OwnBits(b, b.base.value + b.SpaceBit());
  }

  /** Read the BAR, write all ones, read the mask, write the old value back: the
      mask gives the size (exactly when the size is a multiple of the alignment),
      and the machine is left precisely as it was, mappings included. */
  lemma SizingIsInvisible(st: Pci, k: nat, i: nat, fixedMmio: Mapping, fixedIo: Mapping)
    requires Inv(st, fixedMmio, fixedIo) && Selected(st, k, i) && Mapped(st, k, i) && !st.slots[k].bars[i].sizing
    ensures var b := st.slots[k].bars[i];
            var (st0, was) := IoIn(st, CONFIG_DATA, 4);
            var st1 := IoOut(st0, CONFIG_DATA, Le4(ALL_ONES));
            var (st2, mask) := IoIn(st1, CONFIG_DATA, 4);
            && |mask| == 4
            && Value(was) == (b.base.value as int) + (if b.isIo then 1 else 0)
            && (DecodedSize(FromLe4(mask), b) == b.size <==> b.size % (if b.isIo then 4 else 16) == 0)
            && IoOut(st2, CONFIG_DATA, was) == st
  {
    hide Inv, SlotsOk, SlotOk, BarOk, ReadBar, WriteBar, IoIn, IoOut, Le4, FromLe4, DecodedSize, AlignDown, DecodeAddress, Value;
    Latched(st, k, i, fixedMmio, fixedIo);
    var b := st.slots[k].bars[i];
    var b1, was := b.(sizing := true), b.base.value + b.SpaceBit();
    var st1 := WithBar(st, k, i, b1);
    BarReads(b);
    LittleEndian4(was, []);
    SameWithBar(st, k, i);
    ReadSelected(st, k, i);
    WriteSelected(st, k, i, ALL_ONES);
    ReadSelected(st1, k, i);
    Le4RoundTrip(ReadBar(b1, true).1);
    WriteBackOwn(st, k, i, was, fixedMmio, fixedIo);
    WriteSelected(st, k, i, was);
  }

  /** All ones only set the latch. */
  lemma Latched(st: Pci, k: nat, i: nat, fixedMmio: Mapping, fixedIo: Mapping)
    requires Inv(st, fixedMmio, fixedIo) && Selected(st, k, i) && st.slots[k].bars[i].base.Some?
    ensures |st.slots[k].bars| == NUM_BARS && SlotsOk(st.slots) && BarOk(st.slots[k].bars[i])
    ensures var st1 := WithBar(st, k, i, st.slots[k].bars[i].(sizing := true));
            WriteBar(st, k, i, ALL_ONES) == st1 && Selected(st1, k, i) && SlotsOk(st1.slots)
  {
    assert SlotOk(st.slots[k]) && BarOk(st.slots[k].bars[i]);
    LatchKeepsInv(st, k, i, st.slots[k].bars[i].(sizing := true), fixedMmio, fixedIo);
  }

  lemma SameWithBar(st: Pci, k: nat, i: nat)
    requires k < |st.slots| && i < |st.slots[k].bars|
    ensures WithBar(st, k, i, st.slots[k].bars[i]) == st
    ensures forall b :: WithBar(WithBar(st, k, i, b), k, i, st.slots[k].bars[i]) == st
  {
    var s := st.slots[k];
    assert s.bars[i := s.bars[i]] == s.bars && st.slots[k := s] == st.slots;
    forall b
      ensures WithBar(WithBar(st, k, i, b), k, i, s.bars[i]) == st
    {
      assert s.bars[i := b][i := s.bars[i]] == s.bars;
      assert st.slots[k := s.(bars := s.bars[i := b])][k := s] == st.slots;
    }
  }
}
