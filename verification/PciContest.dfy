/** A machine that a restore does not bring back: two devices given the same window. */
module PciContests {
  import opened Bytes
  import opened Buses
  import opened PciSpace
  import Sizing = PciSizing
  import opened PciMsi
  import opened PciRestores

  const PLAIN := Identity(0x1af4, 0x1000, 0, 0, 0, 0, 0, 0, false, [])
  const WINDOW: u32 := 0x1000_0000
  const FIRST: u8 := 0x08
  const SECOND: u8 := 0x10

  /** A slot with one 4 KiB memory BAR. */
  function Windowed(devfn: u8, device: DeviceId, base: Option<u32>): Slot {
    var none := Bar(0, false, None, false);
    Slot(devfn, PLAIN, device, [Bar(0x1000, false, base, false), none, none, none, none, none], 0, Msi(false, 0, 0))
  }

  /** Two such devices, and what is mapped on the memory bus. */
  function Two(first: Option<u32>, second: Option<u32>, address: u32, mmio: Mapping): Pci {
    Pci([Windowed(FIRST, 1, first), Windowed(SECOND, 2, second)], address, mmio, map[])
  }

  const BLANK := Two(None, None, 0, map[])

  function WindowOf(device: DeviceId): Mapping {
    map[device := Region(WINDOW, WINDOW + 0xfff, device, None)]
  }

  /** Both BARs hold the window's address, and `device` has it. */
  function WonBy(device: DeviceId, address: u32): Pci {
    Two(Some(WINDOW), Some(WINDOW), address, WindowOf(device))
  }

  /** The guest gives the window to the device at `a`, and then to the one at `b`. */
  ghost function Contested(a: u8, b: u8): Pci {
    SelectWrite(SelectWrite(BLANK, a, 0x10, 0, Le4(WINDOW)), b, 0x10, 0, Le4(WINDOW))
  }

  lemma TwoOk(first: Option<u32>, second: Option<u32>)
    requires first in {None, Some(WINDOW)} && second in {None, Some(WINDOW)}
    ensures SlotsOk(Two(first, second, 0, map[]).slots) && OneBarEach(Two(first, second, 0, map[]).slots)
  {
    WindowedOk(FIRST, 1, first);
    WindowedOk(SECOND, 2, second);
  }

  lemma WindowedOk(devfn: u8, device: DeviceId, base: Option<u32>)
    requires base in {None, Some(WINDOW)}
    ensures SlotOk(Windowed(devfn, device, base)) && OneBarPerSpace(Windowed(devfn, device, base).bars)
  {}

  lemma Granted(device: DeviceId)
    ensures Registered(map[], WINDOW, 0x1000, device, None) == WindowOf(device)
  {}

  lemma Refused(device: DeviceId, other: DeviceId)
    requires device != other
    ensures Registered(WindowOf(other), WINDOW, 0x1000, device, None) == WindowOf(other)
  {
    var m: Mapping := WindowOf(other);
    assert m - {device} == m && other in m && Overlaps(WINDOW, WINDOW + 0xfff, m[other]);
  }

  lemma WindowGiven(st: Pci, k: nat, devfn: u8, device: DeviceId)
    requires SlotsOk(st.slots) && k < |st.slots| && st.slots[k] == Windowed(devfn, device, None)
    ensures var st' := SelectWrite(st, devfn, 0x10, 0, Le4(WINDOW));
            st' == Pci(st.slots[k := Windowed(devfn, device, Some(WINDOW))], st'.address,
                       Registered(st.mmio, WINDOW, 0x1000, device, None), st.io)
  {
    hide SelectWrite, Le4, FromLe4, Registered, SlotsOk;
    SelectWriteSlot(st, k, 0x10, 0, Le4(WINDOW));
    Le4RoundTrip(WINDOW);
    assert Windowed(devfn, device, None).bars[0 := Bar(0x1000, false, Some(WINDOW), false)] ==
           Windowed(devfn, device, Some(WINDOW)).bars;
  }

  /** The first to be given the window has it; the other is refused. */
  lemma FirstComeFirstServed()
    ensures Contested(FIRST, SECOND) == WonBy(1, Contested(FIRST, SECOND).address)
    ensures Contested(SECOND, FIRST) == WonBy(2, Contested(SECOND, FIRST).address)
  {
    hide SelectWrite, Le4, Registered, SlotsOk, OneBarEach, Windowed, WindowOf;
    TwoOk(None, None);
    TwoOk(Some(WINDOW), None);
    TwoOk(None, Some(WINDOW));
    var one := SelectWrite(BLANK, FIRST, 0x10, 0, Le4(WINDOW));
    WindowGiven(BLANK, 0, FIRST, 1);
    assert one.slots == Two(Some(WINDOW), None, 0, map[]).slots;
    WindowGiven(one, 1, SECOND, 2);
    var two := SelectWrite(BLANK, SECOND, 0x10, 0, Le4(WINDOW));
    WindowGiven(BLANK, 1, SECOND, 2);
    assert two.slots == Two(None, Some(WINDOW), 0, map[]).slots;
    WindowGiven(two, 0, FIRST, 1);
    Granted(1);
    Granted(2);
    Refused(2, 1);
    Refused(1, 2);
  }

  lemma WonInv(device: DeviceId, address: u32)
    requires device == 1 || device == 2
    ensures Inv(WonBy(device, address), map[], map[]) && OneBarEach(WonBy(device, address).slots)
  {
    hide SlotOk, OneBarPerSpace, SlotMapped, Devices;
    var st := WonBy(device, address);
    TwoOk(Some(WINDOW), Some(WINDOW));
    WindowMapped(device, FIRST, 1);
    WindowMapped(device, SECOND, 2);
    BothDevices(st);
    assert st.mmio - Devices(st.slots) == map[] && st.io - Devices(st.slots) == map[];
    assert Disjoint(st.mmio) && Disjoint(st.io);
  }

  lemma WindowMapped(device: DeviceId, devfn: u8, owner: DeviceId)
    ensures SlotMapped(Windowed(devfn, owner, Some(WINDOW)), WindowOf(device), false)
    ensures SlotMapped(Windowed(devfn, owner, Some(WINDOW)), map[], true)
  {
    var s := Windowed(devfn, owner, Some(WINDOW));
    assert owner == device ==> IsBarRegion(s, s.bars[0], WindowOf(device)[owner]);
  }

  lemma BothDevices(st: Pci)
    requires |st.slots| == 2
    ensures Devices(st.slots) == {st.slots[0].device, st.slots[1].device}
  {}

  lemma WonRewired(device: DeviceId, address: u32)
    ensures Rewired(WonBy(device, address), BLANK, map[], map[])
  {
    assert SameWiring(Windowed(FIRST, 1, Some(WINDOW)), Windowed(FIRST, 1, None));
    assert SameWiring(Windowed(SECOND, 2, Some(WINDOW)), Windowed(SECOND, 2, None));
  }

  lemma SecondLosesAgain(address: u32)
    ensures Clashes(Without(WonBy(1, address).mmio, WonBy(1, address).slots[1..]), WINDOW, WINDOW + 0xfff)
  {
    var st := WonBy(1, address);
    assert st.slots[1..] == [st.slots[1]];
    var m := Without(st.mmio, st.slots[1..]);
    assert 1 in m && m[1] == st.mmio[1] && Overlaps(WINDOW, WINDOW + 0xfff, m[1]);
  }

  lemma WonByFirstRestorable(address: u32)
    ensures Restorable(WonBy(1, address))
  {
    hide Without, Clashes;
    var st := WonBy(1, address);
    SecondLosesAgain(address);
    assert LosesAgain(st.slots, st.mmio, false, 0) && LosesAgain(st.slots, st.mmio, false, 1);
  }

  /** The saved bytes do not say who had the window. Restored, the device in the first slot
      has it, also where the other had it before. */
  lemma RestoreMayChangeHands()
    ensures Contested(SECOND, FIRST).mmio == WindowOf(2)
    ensures SaveState(Contested(SECOND, FIRST)) == SaveState(Contested(FIRST, SECOND))
    ensures RestoreState(BLANK, SaveState(Contested(SECOND, FIRST))) == Ok(WonBy(1, 0)) && WonBy(1, 0).mmio == WindowOf(1)
    ensures !Restorable(Contested(SECOND, FIRST)) && Restorable(Contested(FIRST, SECOND))
  {
    hide Contested, RestoreState, EncodeSlots, Restorable, Inv, OneBarEach, Rewired, Le4, Windowed;
    FirstComeFirstServed();
    var won, lost := Contested(FIRST, SECOND), Contested(SECOND, FIRST);
    WonInv(1, won.address);
    WonInv(2, lost.address);
    WonRewired(1, won.address);
    WonRewired(2, lost.address);
    WonByFirstRestorable(won.address);
    RestoreAfterSave(won, BLANK, map[], map[]);
    RestoreAfterSave(lost, BLANK, map[], map[]);
    assert 1 in WindowOf(1) && 1 !in WindowOf(2);
  }
}
