/** The PCI host bridge object: the ports, the slots, and the two buses it maps into. */
module PciBuses {
  import opened Bytes
  import opened Buses
  import opened PciSpace
  import opened PciRestores

  class PciBus {
    var slots: seq<Slot>
    var address: u32

    ghost function Spec(mmio: Bus, io: Bus): Pci
      reads this, mmio, io
    {
      Pci(slots, address, View(mmio.regions), View(io.regions))
    }

    /** The two buses are in order and every slot has its six BARs. */
    ghost predicate Valid(mmio: Bus, io: Bus)
      reads this, mmio, io
    {
      && mmio != io && mmio.Valid() && io.Valid()
      && forall k :: 0 <= k < |slots| ==> |slots[k].bars| == NUM_BARS
    }

    constructor ()
      ensures slots == [] && address == 0
    {
      slots, address := [], 0;
    }

    method SlotOf(devfn: u8) returns (k: Option<nat>)
      ensures k == FindSlot(slots, devfn)
    {
      assert slots[..0] == [];
      for i := 0 to |slots|
        invariant FindSlot(slots[..i], devfn) == None
      {
        assert slots[..i + 1][..i] == slots[..i];
        if slots[i].devfn == devfn {
          FoundFirst(slots, devfn, i);
          return Some(i);
        }
      }
      assert slots[..|slots|] == slots;
      k := None;
    }

    /** Refuses a device number that is taken. */
    method Register(devfn: u8, identity: Identity, device: DeviceId, sizes: seq<u32>, isIo: seq<bool>)
      returns (ok: bool)
      requires |sizes| == |isIo| == NUM_BARS
      modifies this
      ensures ok <==> forall k :: 0 <= k < |old(slots)| ==> old(slots)[k].devfn != devfn
      ensures address == old(address)
      ensures slots == old(slots) +
                if ok then
                  [Slot(devfn, identity, device,
                        seq(NUM_BARS, i requires 0 <= i < NUM_BARS => Bar(sizes[i], isIo[i], None, false)),
                        0, Msi(false, 0, 0))]
                else []
    {
      var taken := SlotOf(devfn);
      if taken.Some? {
        return false;
      }
      var bars := seq(NUM_BARS, i requires 0 <= i < NUM_BARS => Bar(sizes[i], isIo[i], None, false));
      slots := slots + [Slot(devfn, identity, device, bars, 0, Msi(false, 0, 0))];
      ok := true;
    }

    method SetBar(k: nat, i: nat, b: Bar)
      requires k < |slots| && i < |slots[k].bars|
      modifies this
      ensures address == old(address) && slots == old(slots)[k := old(slots)[k].(bars := old(slots)[k].bars[i := b])]
    {
      slots := slots[k := slots[k].(bars := slots[k].bars[i := b])];
    }

    method WriteBar(k: nat, i: nat, val: u32, mmio: Bus, io: Bus)
      requires Valid(mmio, io) && k < |slots| && i < NUM_BARS
      modifies this, mmio, io
      ensures Valid(mmio, io) && |slots| == |old(slots)|
      ensures Spec(mmio, io) == PciSpace.WriteBar(old(Spec(mmio, io)), k, i, val)
    {
      hide View, Disjoint, OnePerDevice, Registered;
      var s := slots[k];
      var b := s.bars[i];
      if !b.Implemented() {
        return;
      }
      if val == ALL_ONES {
        SetBar(k, i, b.(sizing := true));
        return;
      }
      var base := AlignDown(val, b.Align());
      SetBar(k, i, b.(base := Some(base)));
      var bus := if b.isIo then io else mmio;
      if base == 0 {
        bus.Unregister(s.device);
      } else {
        bus.Register(base, b.size, s.device, IrqOf(s.identity));
      }
    }

    method IoOut(port: u16, data: seq<u8>, mmio: Bus, io: Bus)
      requires Valid(mmio, io)
      modifies this, mmio, io
      ensures Valid(mmio, io) && Spec(mmio, io) == PciSpace.IoOut(old(Spec(mmio, io)), port, data)
    {
      hide View, Disjoint, OnePerDevice, PciSpace.WriteBar, Registered, FindSlot;
      if port == CONFIG_ADDRESS && |data| == 4 {
        address := FromLe4(data);
      } else if CONFIG_DATA <= port <= CONFIG_DATA_END {
        var target := DecodeAddress(address);
        if target.None? {
          return;
        }
        var (devfn, reg) := target.value;
        var k := SlotOf(devfn);
        if k.None? {
          return;
        }
        ConfigWrite(k.value, reg, port - CONFIG_DATA, data, mmio, io);
      }
    }

    method ConfigWrite(k: nat, reg: u16, off: u16, data: seq<u8>, mmio: Bus, io: Bus)
      requires Valid(mmio, io) && k < |slots|
      modifies this, mmio, io
      ensures Valid(mmio, io) && Spec(mmio, io) == SlotWrite(old(Spec(mmio, io)), k, reg, off, data)
    {
      hide View, Disjoint, OnePerDevice, Registered;
      var s, i := slots[k], BarIndex(reg);
      var msiCapable := s.identity.msiCapable;
      if reg == 0x04 && off == 0 && |data| >= 2 {
        slots := slots[k := s.(command := FromLe2(data[..2]))];
      } else if reg == 0x40 && msiCapable && off == 2 && |data| >= 2 {
        slots := slots[k := s.(msi := s.msi.(enabled := FromLe2(data[..2]) % 2 == 1))];
      } else if reg == 0x44 && msiCapable && off == 0 && |data| == 4 {
        slots := slots[k := s.(msi := s.msi.(address := FromLe4(data)))];
      } else if reg == 0x48 && msiCapable && off == 0 && |data| >= 2 {
        slots := slots[k := s.(msi := s.msi.(data := FromLe2(data[..2])))];
      } else if i.Some? && off == 0 && |data| == 4 {
        WriteBar(k, i.value, FromLe4(data), mmio, io);
      }
    }

    /** Reads one BAR; a full read of the size mask ends the sizing. */
    method ReadBar(k: nat, i: nat, fullDword: bool) returns (v: u32)
      requires k < |slots| && i < |slots[k].bars|
      modifies this
      ensures var (b, want) := PciSpace.ReadBar(old(slots)[k].bars[i], fullDword);
              && v == want && address == old(address)
              && slots == old(slots)[k := old(slots)[k].(bars := old(slots)[k].bars[i := b])]
    {
      var b := slots[k].bars[i];
      Unchanged(slots, k, i);
      v := 0;
      if !b.Implemented() {
        return;
      }
      if b.sizing {
        if fullDword {
          SetBar(k, i, b.(sizing := false));
        }
        v := AlignDown(0x1_0000_0000 - b.size, b.Align()) + b.SpaceBit();
      } else if b.base.Some? {
        v := BaseBits(b.base.value, b);
      }
    }

    method IoIn(port: u16, n: nat, ghost mmio: Bus, ghost io: Bus) returns (data: seq<u8>)
      requires Valid(mmio, io)
      modifies this
      ensures Valid(mmio, io) && (Spec(mmio, io), data) == PciSpace.IoIn(old(Spec(mmio, io)), port, n)
    {
      hide View, Disjoint, OnePerDevice, FindSlot, Le4, PciSpace.ReadBar, PciSpace.Register;
      data := Ones(n);
      if port == CONFIG_ADDRESS && n == 4 {
        data := Le4(address);
      } else if CONFIG_DATA <= port <= CONFIG_DATA_END {
        var off := port - CONFIG_DATA;
        var target := DecodeAddress(address);
        if target.None? {
          return;
        }
        var (devfn, reg) := target.value;
        var k := SlotOf(devfn);
        if k.None? {
          return;
        }
        var plain, i := PciSpace.Register(slots[k.value], reg), BarIndex(reg);
        var dword := 0;
        if plain.Some? {
          dword := plain.value;
        } else if i.Some? {
          dword := ReadBar(k.value, i.value, off == 0 && n == 4);
        }
        var count := Min(n, 4 - off);
        data := Le4(dword)[off..off + count] + Ones(n - count);
      }
    }

    method SaveState() returns (blob: seq<u8>)
      requires |slots| < 0x1_0000_0000
      ensures blob == Le4(|slots|) + EncodeSlots(slots)
    {
      blob := Le4(|slots|);
      assert slots[0..] == slots;
      for k := 0 to |slots|
        invariant blob + EncodeSlots(slots[k..]) == Le4(|slots|) + EncodeSlots(slots)
      {
        hide Le4, Le2;
        ghost var rest := EncodeSlots(slots[k + 1..]);
        assert slots[k..][1..] == slots[k + 1..];
        var one := SaveSlot(slots[k]);
        assert blob + (one + rest) == (blob + one) + rest;
        blob := blob + one;
      }
    }

    /** Each saved slot is looked up and put back; a slot this machine does not have
        is an error. */
    method RestoreState(blob: seq<u8>, mmio: Bus, io: Bus) returns (ok: bool)
      requires Valid(mmio, io)
      modifies this, mmio, io
      ensures Valid(mmio, io)
      ensures var r := PciRestores.RestoreState(old(Spec(mmio, io)), blob);
              ok == r.Ok? && (ok ==> Spec(mmio, io) == r.value)
    {
      hide View, Disjoint, OnePerDevice, Registered, TakeSaved, RestoreSlot, FindSlot, FromLe4;
      if |blob| < 4 {
        return false;
      }
      var count := FromLe4(blob[..4]);
      var buf := blob[4..];
      ghost var all := RestoreSlots(Spec(mmio, io), buf, count);
      for done := 0 to count
        invariant Valid(mmio, io)
        invariant RestoreSlots(Spec(mmio, io), buf, count - done) == all
      {
        var saved := TakeSaved(buf);
        if saved.Err? {
          return false;
        }
        var (sv, rest) := saved.value;
        var k := SlotOf(sv.devfn);
        if k.None? {
          return false;
        }
        RestoreOne(k.value, sv, mmio, io);
        buf := rest;
      }
      ok := true;
    }

    method RestoreOne(k: nat, sv: Saved, mmio: Bus, io: Bus)
      requires Valid(mmio, io) && k < |slots| && |sv.bases| == NUM_BARS
      modifies this, mmio, io
      ensures Valid(mmio, io) && Spec(mmio, io) == RestoreSlot(old(Spec(mmio, io)), k, sv)
    {
      hide View, Disjoint, OnePerDevice, Registered, PciSpace.WriteBar;
      slots := slots[k := slots[k].(command := sv.command, msi := sv.msi)];
      ghost var all := WriteBars(Spec(mmio, io), k, sv.bases, 0);
      for i := 0 to NUM_BARS
        invariant Valid(mmio, io) && k < |slots|
        invariant WriteBars(Spec(mmio, io), k, sv.bases, i) == all
      {
        if sv.bases[i].Some? {
          WriteBar(k, i, sv.bases[i].value, mmio, io);
        }
      }
    }
  }

  lemma Unchanged(slots: seq<Slot>, k: nat, i: nat)
    requires k < |slots| && i < |slots[k].bars|
    ensures slots[k := slots[k].(bars := slots[k].bars[i := slots[k].bars[i]])] == slots
  {
    assert slots[k].bars[i := slots[k].bars[i]] == slots[k].bars;
  }

  lemma {:induction false} FoundFirst(slots: seq<Slot>, devfn: u8, i: nat)
    requires i < |slots| && FindSlot(slots[..i], devfn) == None && slots[i].devfn == devfn
    ensures FindSlot(slots, devfn) == Some(i)
    decreases |slots|
  {
    var n := |slots| - 1;
    if i < n {
      assert slots[..n][..i] == slots[..i];
      FoundFirst(slots[..n], devfn, i);
    }
  }

  method SaveSlot(s: Slot) returns (blob: seq<u8>)
    ensures blob == EncodeSaved(SavedOf(s))
  {
    hide Le4, Le2;
    blob := [s.devfn];
    ghost var bases := BasesOf(s.bars);
    assert bases[0..] == bases;
    for i := 0 to |s.bars|
      invariant blob + EncodeBases(bases[i..]) == [s.devfn] + EncodeBases(bases)
    {
      ghost var rest := EncodeBases(bases[i + 1..]);
      assert bases[i..][1..] == bases[i + 1..];
      var one: seq<u8> := match s.bars[i].base case Some(b) => [1] + Le4(b) case None => [0];
      assert blob + (one + rest) == (blob + one) + rest;
      blob := blob + one;
    }
    var tail := Le2(s.command) + ([if s.msi.enabled then 1 else 0] + (Le4(s.msi.address) + Le2(s.msi.data)));
    assert blob == [s.devfn] + EncodeBases(bases);
    assert blob + tail == [s.devfn] + (EncodeBases(bases) + tail);
    blob := blob + tail;
  }
}
