/** Saving the configuration space and restoring it into a freshly wired machine. */
module PciRestores {
  import opened Bytes
  import opened Buses
  import opened PciSpace
  import Sizing = PciSizing
  import opened PciMsi
  import S = Snapshots

  datatype Saved = Saved(devfn: u8, bases: seq<Option<u32>>, command: u16, msi: Msi)

  function BasesOf(bars: seq<Bar>): seq<Option<u32>> {
    seq(|bars|, i requires 0 <= i < |bars| => bars[i].base)
  }

  function SavedOf(s: Slot): Saved {
    Saved(s.devfn, BasesOf(s.bars), s.command, s.msi)
  }

  // --- The blob -----------------------------------------------------------------------

  function EncodeBases(bases: seq<Option<u32>>): seq<u8> {
    if bases == [] then []
    else (match bases[0] case Some(b) => [1] + Le4(b) case None => [0]) + EncodeBases(bases[1..])
  }

  function EncodeSaved(sv: Saved): seq<u8> {
    [sv.devfn] + (EncodeBases(sv.bases) +
      (Le2(sv.command) + ([if sv.msi.enabled then 1 else 0] + (Le4(sv.msi.address) + Le2(sv.msi.data)))))
  }

  function EncodeSlots(slots: seq<Slot>): seq<u8> {
    if slots == [] then [] else EncodeSaved(SavedOf(slots[0])) + EncodeSlots(slots[1..])
  }

  function SaveState(st: Pci): seq<u8> {
    Le4(|st.slots| % 0x1_0000_0000) + EncodeSlots(st.slots)
  }

  function TakeBases(bs: seq<u8>, n: nat): (r: Result<(seq<Option<u32>>, seq<u8>)>)
    ensures r.Ok? ==> |r.value.0| == n
    decreases n
  {
    if n == 0 then Ok(([], bs))
    else
      var (flag, rest) :- S.Take(bs, 1);
      if flag[0] != 0 then
        var (base, rest') :- S.Take(rest, 4);
        var (more, rest'') :- TakeBases(rest', n - 1);
        Ok(([Some(FromLe4(base))] + more, rest''))
      else
        var (more, rest'') :- TakeBases(rest, n - 1);
        Ok(([None] + more, rest''))
  }

  function TakeSaved(bs: seq<u8>): (r: Result<(Saved, seq<u8>)>)
    ensures r.Ok? ==> |r.value.0.bases| == NUM_BARS
  {
    var (devfn, rest0) :- S.Take(bs, 1);
    var (bases, rest1) :- TakeBases(rest0, NUM_BARS);
    var (command, rest2) :- S.Take(rest1, 2);
    var (enabled, rest3) :- S.Take(rest2, 1);
    var (address, rest4) :- S.Take(rest3, 4);
    var (data, rest5) :- S.Take(rest4, 2);
    Ok((Saved(devfn[0], bases, FromLe2(command), Msi(enabled[0] != 0, FromLe4(address), FromLe2(data))), rest5))
  }

  // --- Restoring ------------------------------------------------------------------------

  ghost function WriteBars(st: Pci, k: nat, bases: seq<Option<u32>>, i: nat): Pci
    requires k < |st.slots| && |bases| == |st.slots[k].bars| && i <= |bases|
    decreases |bases| - i
  {
    if i == |bases| then st
    else if bases[i].None? then WriteBars(st, k, bases, i + 1)
    else WriteBars(WriteBar(st, k, i, bases[i].value), k, bases, i + 1)
  }

  /** Command and MSI are set, and each saved base goes through the same path as
      a guest's own BAR write. */
  ghost function RestoreSlot(st: Pci, k: nat, sv: Saved): Pci
    requires k < |st.slots| && |sv.bases| == |st.slots[k].bars|
  {
    WriteBars(st.(slots := st.slots[k := st.slots[k].(command := sv.command, msi := sv.msi)]), k, sv.bases, 0)
  }

  ghost function RestoreSlots(st: Pci, bs: seq<u8>, count: nat): Result<Pci>
    decreases count
  {
    if count == 0 then Ok(st)
    else
      var (sv, rest) :- TakeSaved(bs);
      match FindSlot(st.slots, sv.devfn)
      case None => Err
      case Some(k) =>
        if |st.slots[k].bars| != NUM_BARS then Err
        else RestoreSlots(RestoreSlot(st, k, sv), rest, count - 1)
  }

  ghost function RestoreState(st: Pci, bs: seq<u8>): Result<Pci> {
    var (count, rest) :- S.Take(bs, 4);
    RestoreSlots(st, rest, FromLe4(count))
  }

  // --- The blob round trip -------------------------------------------------------------

  lemma {:induction false} BasesRoundTrip(bases: seq<Option<u32>>, rest: seq<u8>)
    ensures TakeBases(EncodeBases(bases) + rest, |bases|) == Ok((bases, rest))
    decreases |bases|
  {
    hide S.Take, Le4, FromLe4;
    if bases == [] {
      assert EncodeBases(bases) + rest == rest;
    } else {
      var tail := EncodeBases(bases[1..]) + rest;
      BasesRoundTrip(bases[1..], rest);
      assert [bases[0]] + bases[1..] == bases;
      if bases[0].Some? {
        var b := Le4(bases[0].value);
        assert EncodeBases(bases) + rest == [1] + (b + tail);
        S.TakeFront([1], b + tail);
        S.TakeFront(b, tail);
        Le4RoundTrip(bases[0].value);
      } else {
        assert EncodeBases(bases) + rest == [0] + tail;
        S.TakeFront([0], tail);
      }
    }
  }

  lemma SavedRoundTrip(sv: Saved, rest: seq<u8>)
    requires |sv.bases| == NUM_BARS
    ensures TakeSaved(EncodeSaved(sv) + rest) == Ok((sv, rest))
  {
    hide S.Take, Le4, FromLe4, Le2, FromLe2, TakeBases, EncodeBases;
    var r5 := rest;
    var r4 := Le2(sv.msi.data) + r5;
    var r3 := Le4(sv.msi.address) + r4;
    var enabled: seq<u8> := [if sv.msi.enabled then 1 else 0];
    var r2 := enabled + r3;
    var r1 := Le2(sv.command) + r2;
    var r0 := EncodeBases(sv.bases) + r1;
    assert EncodeSaved(sv) + rest == [sv.devfn] + r0;
    S.TakeFront([sv.devfn], r0);
    BasesRoundTrip(sv.bases, r1);
    S.TakeFront(Le2(sv.command), r2);
    S.TakeFront(enabled, r3);
    S.TakeFront(Le4(sv.msi.address), r4);
    S.TakeFront(Le2(sv.msi.data), r5);
    Le2RoundTrip(sv.command);
    Le4RoundTrip(sv.msi.address);
    Le2RoundTrip(sv.msi.data);
  }

  // --- What a restore builds ---------------------------------------------------------------

  /** One bus after the first `i` BARs of a slot are given their addresses. */
  ghost function MapBars(m: Mapping, s: Slot, isIo: bool, i: nat): Mapping
    requires i <= |s.bars|
  {
    if i == 0 then m
    else
      var m', b := MapBars(m, s, isIo, i - 1), s.bars[i - 1];
      if b.isIo == isIo && b.base.Some? then Remapped(m', s, b, b.base.value) else m'
  }

  /** And after all slots have been, one after another. */
  ghost function MapSlots(m: Mapping, slots: seq<Slot>, isIo: bool): Mapping {
    if slots == [] then m
    else
      var n := |slots| - 1;
      MapBars(MapSlots(m, slots[..n], isIo), slots[n], isIo, |slots[n].bars|)
  }

  /** A BAR that is not being sized. */
  function Rested(b: Bar): Bar {
    b.(sizing := false)
  }

  function RestedBars(bars: seq<Bar>): (r: seq<Bar>)
    ensures |r| == |bars|
  {
    seq(|bars|, i requires 0 <= i < |bars| => Rested(bars[i]))
  }

  function RestedSlots(slots: seq<Slot>): (r: seq<Slot>)
    ensures |r| == |slots|
  {
    seq(|slots|, k requires 0 <= k < |slots| => slots[k].(bars := RestedBars(slots[k].bars)))
  }

  /** The same device in the same place, before anything is programmed. */
  ghost predicate SameWiring(s: Slot, f: Slot) {
    && FreshSlot(f) && |s.bars| == NUM_BARS
    && f.devfn == s.devfn && f.identity == s.identity && f.device == s.device
    && forall i :: 0 <= i < NUM_BARS ==> f.bars[i].size == s.bars[i].size && f.bars[i].isIo == s.bars[i].isIo
  }

  /** `blank` is the machine of `orig` newly wired, holding only its fixed mappings. */
  ghost predicate Rewired(orig: Pci, blank: Pci, fixedMmio: Mapping, fixedIo: Mapping) {
    && |blank.slots| == |orig.slots| && blank.mmio == fixedMmio && blank.io == fixedIo
    && forall k :: 0 <= k < |orig.slots| ==> SameWiring(orig.slots[k], blank.slots[k])
  }

  /** Slot `k` of `cur` restored up to BAR `i`. */
  ghost function Midway(cur: Pci, k: nat, s: Slot, f: Slot, i: nat): Pci
    requires k < |cur.slots| && i <= NUM_BARS && |f.bars| == |s.bars| == NUM_BARS
  {
    Pci(cur.slots[k := s.(bars := RestedBars(s.bars)[..i] + f.bars[i..])], cur.address,
        MapBars(cur.mmio, s, false, i), MapBars(cur.io, s, true, i))
  }

  /** Restoring one BAR, on the slot's own terms. */
  lemma OneBarRestored(cur: Pci, k: nat, s: Slot, f: Slot, i: nat)
    requires k < |cur.slots| && i < NUM_BARS && SlotOk(s) && SameWiring(s, f) && s.bars[i].base.Some?
    ensures |Midway(cur, k, s, f, i).slots[k].bars| == NUM_BARS
    ensures WriteBar(Midway(cur, k, s, f, i), k, i, s.bars[i].base.value) == Midway(cur, k, s, f, i + 1)
  {
    hide Registered, AlignDown, MapBars;
    var b, mid, mid' := s.bars[i], Midway(cur, k, s, f, i), Midway(cur, k, s, f, i + 1);
    var base := b.base.value;
    assert BarOk(b);
    Sizing.OwnBits(b, base + b.SpaceBit());
    OwnBase(b);
    assert f.bars[i].(base := Some(base)) == Rested(b);
    RestedUpTo(s, f, i);
    MapBarsStep(cur.mmio, s, false, i);
    MapBarsStep(cur.io, s, true, i);
    assert mid.slots[k := mid'.slots[k]] == mid'.slots;
  }

  lemma OwnBase(b: Bar)
    requires BarOk(b) && b.base.Some?
    ensures b.base.value != ALL_ONES && AlignDown(b.base.value, b.Align()) == b.base.value
  {}

  lemma RestedUpTo(s: Slot, f: Slot, i: nat)
    requires i < |s.bars| == |f.bars|
    ensures (RestedBars(s.bars)[..i] + f.bars[i..])[i] == f.bars[i]
    ensures (RestedBars(s.bars)[..i] + f.bars[i..])[i := Rested(s.bars[i])] == RestedBars(s.bars)[..i + 1] + f.bars[i + 1..]
  {}

  lemma MapBarsStep(m: Mapping, s: Slot, isIo: bool, i: nat)
    requires i < |s.bars|
    ensures var b := s.bars[i];
            MapBars(m, s, isIo, i + 1) ==
            if b.isIo == isIo && b.base.Some? then Remapped(MapBars(m, s, isIo, i), s, b, b.base.value)
            else MapBars(m, s, isIo, i)
  {
    hide Remapped;
  }

  lemma UnsetBar(cur: Pci, k: nat, s: Slot, f: Slot, i: nat)
    requires k < |cur.slots| && i < NUM_BARS && SlotOk(s) && SameWiring(s, f) && s.bars[i].base.None?
    ensures Midway(cur, k, s, f, i) == Midway(cur, k, s, f, i + 1)
  {
    hide MapBars;
    MapBarsStep(cur.mmio, s, false, i);
    MapBarsStep(cur.io, s, true, i);
    RestedUpTo(s, f, i);
    assert f.bars[i] == Rested(s.bars[i]);
    var bars := RestedBars(s.bars)[..i] + f.bars[i..];
    assert bars[i := f.bars[i]] == bars;
  }

  lemma {:induction false} BarsRestored(cur: Pci, k: nat, s: Slot, f: Slot, i: nat)
    requires k < |cur.slots| && i <= NUM_BARS && SlotOk(s) && SameWiring(s, f)
    ensures |Midway(cur, k, s, f, i).slots[k].bars| == NUM_BARS
    ensures WriteBars(Midway(cur, k, s, f, i), k, BasesOf(s.bars), i) == Midway(cur, k, s, f, NUM_BARS)
    decreases NUM_BARS - i
  {
    hide WriteBar, MapBars, BarOk;
    if i < NUM_BARS {
      if s.bars[i].base.Some? {
        OneBarRestored(cur, k, s, f, i);
      } else {
        UnsetBar(cur, k, s, f, i);
      }
      BarsRestored(cur, k, s, f, i + 1);
    }
  }

  /** The machine with its first `k` slots restored. */
  ghost function Before(orig: Pci, blank: Pci, k: nat): Pci
    requires k <= |orig.slots| == |blank.slots|
  {
    Pci(RestedSlots(orig.slots[..k]) + blank.slots[k..], blank.address,
        MapSlots(blank.mmio, orig.slots[..k], false), MapSlots(blank.io, orig.slots[..k], true))
  }

  lemma SlotRestored(orig: Pci, blank: Pci, k: nat)
    requires k < |orig.slots| == |blank.slots| && SlotOk(orig.slots[k]) && SameWiring(orig.slots[k], blank.slots[k])
    ensures Before(orig, blank, k).slots[k] == blank.slots[k]
    ensures |blank.slots[k].bars| == |SavedOf(orig.slots[k]).bases|
    ensures RestoreSlot(Before(orig, blank, k), k, SavedOf(orig.slots[k])) == Before(orig, blank, k + 1)
  {
    hide WriteBars, MapBars, BarOk;
    var s, f, cur := orig.slots[k], blank.slots[k], Before(orig, blank, k);
    StartsMidway(cur, k, s, f);
    BarsRestored(cur, k, s, f, 0);
    EndsMidway(orig, blank, k);
  }

  lemma StartsMidway(cur: Pci, k: nat, s: Slot, f: Slot)
    requires k < |cur.slots| && cur.slots[k] == f && SameWiring(s, f)
    ensures cur.(slots := cur.slots[k := f.(command := s.command, msi := s.msi)]) == Midway(cur, k, s, f, 0)
  {
    assert RestedBars(s.bars)[..0] + f.bars[0..] == f.bars;
    assert f.(command := s.command, msi := s.msi) == s.(bars := f.bars);
  }

  lemma EndsMidway(orig: Pci, blank: Pci, k: nat)
    requires k < |orig.slots| == |blank.slots| && SameWiring(orig.slots[k], blank.slots[k])
    ensures Midway(Before(orig, blank, k), k, orig.slots[k], blank.slots[k], NUM_BARS) == Before(orig, blank, k + 1)
  {
    hide MapBars, SameWiring;
    assert |orig.slots[k].bars| == |blank.slots[k].bars| == NUM_BARS by { Wired(orig.slots[k], blank.slots[k]); }
    var s, f, now := orig.slots[k], blank.slots[k], orig.slots[..k];
    assert orig.slots[..k + 1] == now + [s];
    MapSlotsSnoc(blank.mmio, now, s, false);
    MapSlotsSnoc(blank.io, now, s, true);
    assert RestedBars(s.bars)[..NUM_BARS] + f.bars[NUM_BARS..] == RestedBars(s.bars);
    var slots := RestedSlots(now) + blank.slots[k..];
    assert slots[k := s.(bars := RestedBars(s.bars))] == RestedSlots(now + [s]) + blank.slots[k + 1..];
  }

  lemma Wired(s: Slot, f: Slot)
    requires SameWiring(s, f)
    ensures |s.bars| == |f.bars| == NUM_BARS
  {}

  lemma MapSlotsSnoc(m: Mapping, slots: seq<Slot>, s: Slot, isIo: bool)
    ensures MapSlots(m, slots + [s], isIo) == MapBars(MapSlots(m, slots, isIo), s, isIo, |s.bars|)
  {
    hide MapBars;
    assert (slots + [s])[..|slots|] == slots;
  }

  lemma FoundAgain(orig: Pci, blank: Pci, k: nat, fixedMmio: Mapping, fixedIo: Mapping)
    requires SlotsOk(orig.slots) && Rewired(orig, blank, fixedMmio, fixedIo) && k < |orig.slots|
    ensures FindSlot(Before(orig, blank, k).slots, orig.slots[k].devfn) == Some(k)
  {
    hide SlotOk, MapSlots, FindSlot;
    var slots := Before(orig, blank, k).slots;
    forall l | 0 <= l < |slots|
      ensures slots[l].devfn == orig.slots[l].devfn
    {
      assert SameWiring(orig.slots[l], blank.slots[l]);
    }
    Sizing.FindSlotIs(slots, k);
  }

  lemma {:induction false} SlotsRestored(orig: Pci, blank: Pci, k: nat, fixedMmio: Mapping, fixedIo: Mapping)
    requires SlotsOk(orig.slots) && Rewired(orig, blank, fixedMmio, fixedIo) && k <= |orig.slots|
    ensures RestoreSlots(Before(orig, blank, k), EncodeSlots(orig.slots[k..]), |orig.slots| - k) ==
            Ok(Before(orig, blank, |orig.slots|))
    decreases |orig.slots| - k
  {
    hide SlotOk, SameWiring, TakeSaved, EncodeSaved, RestoreSlot, FindSlot, Before;
    if k < |orig.slots| {
      var s := orig.slots[k];
      assert orig.slots[k..][0] == s && orig.slots[k..][1..] == orig.slots[k + 1..];
      assert SlotOk(s) && SameWiring(s, blank.slots[k]);
      Wired(s, blank.slots[k]);
      FoundAgain(orig, blank, k, fixedMmio, fixedIo);
      SavedRoundTrip(SavedOf(s), EncodeSlots(orig.slots[k + 1..]));
      SlotRestored(orig, blank, k);
      SlotsRestored(orig, blank, k + 1, fixedMmio, fixedIo);
    }
  }

  /** What a restore of a saved machine builds, whatever was saved: every slot as it was,
      with no sizing under way, and on each bus the BARs mapped afresh in slot order. */
  lemma RestoreBuilds(orig: Pci, blank: Pci, fixedMmio: Mapping, fixedIo: Mapping)
    requires SlotsOk(orig.slots) && Rewired(orig, blank, fixedMmio, fixedIo) && |orig.slots| < 0x1_0000_0000
    ensures RestoreState(blank, SaveState(orig)) ==
            Ok(Pci(RestedSlots(orig.slots), blank.address,
                   MapSlots(fixedMmio, orig.slots, false), MapSlots(fixedIo, orig.slots, true)))
  {
    hide SlotsOk, S.Take, RestoreSlots, EncodeSlots, Le4, FromLe4, MapSlots, SameWiring;
    var n := |orig.slots|;
    S.TakeFront(Le4(n), EncodeSlots(orig.slots));
    Le4RoundTrip(n);
    assert orig.slots[0..] == orig.slots && orig.slots[..n] == orig.slots && orig.slots[..0] == [];
    SlotsRestored(orig, blank, 0, fixedMmio, fixedIo);
    MapNoSlots(fixedMmio, false);
    MapNoSlots(fixedIo, true);
    assert RestedSlots([]) + blank.slots[0..] == blank.slots;
    assert RestedSlots(orig.slots) + blank.slots[n..] == RestedSlots(orig.slots);
  }

  lemma MapNoSlots(m: Mapping, isIo: bool)
    ensures MapSlots(m, [], isIo) == m
  {}

  // --- When that is what was saved -----------------------------------------------------------

  predicate Addressed(b: Bar) {
    b.base.Some? && b.base.value != 0
  }

  /** At most one implemented BAR in each address space. */
  ghost predicate OneBarPerSpace(bars: seq<Bar>) {
    forall i, j :: 0 <= i < j < |bars| && bars[i].Implemented() && bars[j].Implemented() ==> bars[i].isIo != bars[j].isIo
  }

  ghost predicate OneBarEach(slots: seq<Slot>) {
    forall k :: 0 <= k < |slots| ==> OneBarPerSpace(slots[k].bars)
  }

  /** The bus without the devices in `slots`. */
  ghost function Without(m: Mapping, slots: seq<Slot>): Mapping {
    m - Devices(slots)
  }

  /** BAR `i` of slot `k` has an address, but lost it to an overlap. */
  ghost predicate Lost(slots: seq<Slot>, m: Mapping, k: nat, i: nat)
    requires k < |slots| && i < |slots[k].bars|
  {
    Addressed(slots[k].bars[i]) && slots[k].device !in m
  }

  /** Every BAR of slot `k` that lost its address will lose it again: it overlaps a fixed
      region, or that of a slot before it. */
  ghost predicate LosesAgain(slots: seq<Slot>, m: Mapping, isIo: bool, k: nat)
    requires k < |slots|
  {
    forall i :: 0 <= i < |slots[k].bars| && slots[k].bars[i].isIo == isIo && Lost(slots, m, k, i) ==>
      var b := slots[k].bars[i];
      Clashes(Without(m, slots[k..]), b.base.value, b.base.value + b.size - 1)
  }

  ghost predicate AllLoseAgain(slots: seq<Slot>, m: Mapping, isIo: bool) {
    forall k :: 0 <= k < |slots| ==> LosesAgain(slots, m, isIo, k)
  }

  /** With one BAR on the bus, a slot's mapping is that BAR's or none. */
  lemma {:induction false} MapBarsOne(m: Mapping, s: Slot, isIo: bool, i: nat, n: nat)
    requires SlotOk(s) && OneBarPerSpace(s.bars) && i < |s.bars| && s.bars[i].isIo == isIo && s.bars[i].base.Some?
    requires n <= |s.bars|
    ensures MapBars(m, s, isIo, n) == if i < n then Remapped(m, s, s.bars[i], s.bars[i].base.value) else m
    decreases n
  {
    hide Remapped;
    if n > 0 {
      MapBarsOne(m, s, isIo, i, n - 1);
      assert BarOk(s.bars[i]) && BarOk(s.bars[n - 1]);
    }
  }

  lemma {:induction false} MapBarsNone(m: Mapping, s: Slot, isIo: bool, n: nat)
    requires n <= |s.bars| && s.device !in m
    requires forall i :: 0 <= i < |s.bars| && s.bars[i].isIo == isIo ==> !Addressed(s.bars[i])
    ensures MapBars(m, s, isIo, n) == m
    decreases n
  {
    if n > 0 {
      MapBarsNone(m, s, isIo, n - 1);
      assert m - {s.device} == m;
    }
  }

  /** Mapping a slot touches no other device's region. */
  lemma {:induction false} MapBarsKeeps(m: Mapping, s: Slot, isIo: bool, n: nat, d: DeviceId)
    requires n <= |s.bars| && d != s.device
    ensures d in MapBars(m, s, isIo, n) <==> d in m
    decreases n
  {
    if n > 0 {
      MapBarsKeeps(m, s, isIo, n - 1, d);
    }
  }

  lemma {:induction false} MapSlotsKeeps(m: Mapping, slots: seq<Slot>, more: seq<Slot>, isIo: bool, d: DeviceId)
    requires d in MapSlots(m, slots, isIo) && forall s :: s in more ==> s.device != d
    ensures d in MapSlots(m, slots + more, isIo)
    decreases |more|
  {
    hide MapBars;
    if more == [] {
      assert slots + more == slots;
    } else {
      var n := |more| - 1;
      MapSlotsKeeps(m, slots, more[..n], isIo, d);
      assert slots + more == slots + more[..n] + [more[n]];
      MapSlotsSnoc(m, slots + more[..n], more[n], isIo);
      MapBarsKeeps(MapSlots(m, slots + more[..n], isIo), more[n], isIo, |more[n].bars|, d);
    }
  }

  lemma WithoutStep(m: Mapping, slots: seq<Slot>, k: nat)
    requires k < |slots|
    ensures Without(m, slots[k..]) == Without(m, slots[k + 1..]) - {slots[k].device}
  {
    var s, later := slots[k..], slots[k + 1..];
    assert s == [slots[k]] + later;
    assert Devices(s) == {slots[k].device} + Devices(later) by {
      assert forall j :: 0 <= j < |later| ==> s[j + 1] == later[j];
      assert s[0] == slots[k];
    }
  }

  /** The BAR that maps a device is the only one of its slot on that bus. */
  lemma MappedAt(s: Slot, m: Mapping, isIo: bool) returns (i: nat)
    requires SlotOk(s) && OneBarPerSpace(s.bars) && SlotMapped(s, m, isIo) && s.device in m
    ensures i < |s.bars| && s.bars[i].isIo == isIo && IsBarRegion(s, s.bars[i], m[s.device])
  {
    i :| 0 <= i < |s.bars| && s.bars[i].isIo == isIo && IsBarRegion(s, s.bars[i], m[s.device]);
  }

  /** Mapping one more device that was mapped is never refused. */
  lemma MapOneMore(m: Mapping, s: Slot, i: nat, later: seq<Slot>)
    requires Disjoint(m) && s.device in m && i < |s.bars| && IsBarRegion(s, s.bars[i], m[s.device])
    requires s.device !in Devices(later)
    ensures Remapped(Without(m, later) - {s.device}, s, s.bars[i], s.bars[i].base.value) == Without(m, later)
  {
    hide Devices;
    var r, others := m[s.device], Without(m, later) - {s.device};
    assert LastOf(r.base, s.bars[i].size) == r.last;
    assert others - {s.device} == others;
    assert !Clashes(others, r.base, r.last) by {
      assert forall d :: d in others ==> d in m && d != s.device && others[d] == m[d];
    }
    assert others[s.device := r] == Without(m, later);
  }

  lemma NotAmongLater(slots: seq<Slot>, k: nat)
    requires SlotsOk(slots) && k < |slots|
    ensures slots[k].device !in Devices(slots[k + 1..])
  {
    var later := slots[k + 1..];
    assert forall j :: 0 <= j < |later| ==> later[j] == slots[k + 1 + j];
  }

  /** One slot: it comes out as it was exactly if its lost BARs lose again. */
  lemma OneSlotMapped(slots: seq<Slot>, m: Mapping, isIo: bool, fixed: Mapping, k: nat)
    requires SlotsOk(slots) && OneBarEach(slots) && BusOk(slots, m, isIo, fixed) && k < |slots|
    ensures var s := slots[k];
            var m' := MapBars(Without(m, slots[k..]), s, isIo, |s.bars|);
            && (LosesAgain(slots, m, isIo, k) ==> m' == Without(m, slots[k + 1..]))
            && (!LosesAgain(slots, m, isIo, k) ==> s.device in m' && s.device !in m)
  {
    var s, later := slots[k], slots[k + 1..];
    WithoutStep(m, slots, k);
    NotAmongLater(slots, k);
    assert SlotOk(s) && SlotMapped(s, m, isIo) && OneBarPerSpace(s.bars);
    hide SlotsOk, OneBarEach, BusOk, Devices, MapBars, SlotOk, OneBarPerSpace;
    if s.device in m {
      var i := MappedAt(s, m, isIo);
      MapOneMore(m, s, i, later);
      MapBarsOne(Without(m, slots[k..]), s, isIo, i, |s.bars|);
    } else {
      assert Without(m, slots[k..]) == Without(m, later);
      UnmappedSlot(slots, m, isIo, k);
    }
  }

  lemma UnmappedSlot(slots: seq<Slot>, m: Mapping, isIo: bool, k: nat)
    requires k < |slots| && SlotOk(slots[k]) && OneBarPerSpace(slots[k].bars) && slots[k].device !in m
    ensures var s, m0 := slots[k], Without(m, slots[k..]);
            var m' := MapBars(m0, s, isIo, |s.bars|);
            if LosesAgain(slots, m, isIo, k) then m' == m0 else s.device in m'
  {
    hide Devices, MapBars, Disjoint;
    var s, m0 := slots[k], Without(m, slots[k..]);
    assert s.device !in m0 && m0 - {s.device} == m0;
    if i :| 0 <= i < |s.bars| && s.bars[i].isIo == isIo && Addressed(s.bars[i]) {
      assert BarOk(s.bars[i]) && Lost(slots, m, k, i);
      MapBarsOne(m0, s, isIo, i, |s.bars|);
      OnlyLost(slots, m, isIo, k, i);
    } else {
      MapBarsNone(m0, s, isIo, |s.bars|);
    }
  }

  lemma OnlyLost(slots: seq<Slot>, m: Mapping, isIo: bool, k: nat, i: nat)
    requires k < |slots| && SlotOk(slots[k]) && OneBarPerSpace(slots[k].bars)
    requires i < |slots[k].bars| && slots[k].bars[i].isIo == isIo && Lost(slots, m, k, i)
    ensures var b := slots[k].bars[i];
            LosesAgain(slots, m, isIo, k) <==> Clashes(Without(m, slots[k..]), b.base.value, b.base.value + b.size - 1)
  {
    hide Without, Clashes;
    forall j | 0 <= j < |slots[k].bars| && slots[k].bars[j].isIo == isIo && Lost(slots, m, k, j)
      ensures j == i
    {
      assert BarOk(slots[k].bars[i]) && BarOk(slots[k].bars[j]);
    }
  }

  lemma {:induction false} PrefixMapped(slots: seq<Slot>, m: Mapping, isIo: bool, fixed: Mapping, k: nat)
    requires SlotsOk(slots) && OneBarEach(slots) && BusOk(slots, m, isIo, fixed) && k <= |slots|
    requires forall j :: 0 <= j < k ==> LosesAgain(slots, m, isIo, j)
    ensures MapSlots(fixed, slots[..k], isIo) == Without(m, slots[k..])
    decreases k
  {
    hide MapBars, LosesAgain, SlotsOk, OneBarEach;
    if k == 0 {
      assert slots[0..] == slots && slots[..0] == [];
    } else {
      PrefixMapped(slots, m, isIo, fixed, k - 1);
      OneSlotMapped(slots, m, isIo, fixed, k - 1);
      assert slots[..k] == slots[..k - 1] + [slots[k - 1]];
      MapSlotsSnoc(fixed, slots[..k - 1], slots[k - 1], isIo);
    }
  }

  /** A bus is mapped afresh as it was exactly if every BAR that had lost loses again. */
  lemma BusRebuilt(slots: seq<Slot>, m: Mapping, isIo: bool, fixed: Mapping)
    requires SlotsOk(slots) && OneBarEach(slots) && BusOk(slots, m, isIo, fixed)
    ensures MapSlots(fixed, slots, isIo) == m <==> AllLoseAgain(slots, m, isIo)
  {
    hide MapBars, MapSlots, LosesAgain, SlotsOk, OneBarEach, BusOk;
    var n := |slots|;
    assert slots[..n] == slots;
    if AllLoseAgain(slots, m, isIo) {
      PrefixMapped(slots, m, isIo, fixed, n);
      assert slots[n..] == [] && Without(m, []) == m;
    } else {
      var k := FirstFailing(slots, m, isIo, n);
      PrefixMapped(slots, m, isIo, fixed, k);
      OneSlotMapped(slots, m, isIo, fixed, k);
      var s, later := slots[k], slots[k + 1..];
      assert slots[..k + 1] == slots[..k] + [s] && slots == slots[..k + 1] + later;
      MapSlotsSnoc(fixed, slots[..k], s, isIo);
      OthersLater(slots, k);
      MapSlotsKeeps(fixed, slots[..k + 1], later, isIo, s.device);
    }
  }

  lemma OthersLater(slots: seq<Slot>, k: nat)
    requires SlotsOk(slots) && k < |slots|
    ensures forall s :: s in slots[k + 1..] ==> s.device != slots[k].device
  {
    hide SlotOk;
    forall s | s in slots[k + 1..]
      ensures s.device != slots[k].device
    {
      var j :| 0 <= j < |slots[k + 1..]| && slots[k + 1..][j] == s;
      assert s == slots[k + 1 + j];
    }
  }

  lemma {:induction false} FirstFailing(slots: seq<Slot>, m: Mapping, isIo: bool, n: nat) returns (k: nat)
    requires n <= |slots| && exists j :: 0 <= j < n && !LosesAgain(slots, m, isIo, j)
    ensures k < n && !LosesAgain(slots, m, isIo, k) && forall j :: 0 <= j < k ==> LosesAgain(slots, m, isIo, j)
    decreases n
  {
    hide LosesAgain;
    if exists j :: 0 <= j < n - 1 && !LosesAgain(slots, m, isIo, j) {
      k := FirstFailing(slots, m, isIo, n - 1);
    } else {
      k := n - 1;
    }
  }

  ghost predicate NoneSizing(slots: seq<Slot>) {
    forall k, i :: 0 <= k < |slots| && 0 <= i < |slots[k].bars| ==> !slots[k].bars[i].sizing
  }

  /** No BAR is mid-sizing, and every BAR that lost its address overlaps a fixed region or
      one of a slot before its own. */
  ghost predicate Restorable(st: Pci) {
    && NoneSizing(st.slots)
    && AllLoseAgain(st.slots, st.mmio, false) && AllLoseAgain(st.slots, st.io, true)
  }

  lemma RestedExactly(slots: seq<Slot>)
    ensures RestedSlots(slots) == slots <==> NoneSizing(slots)
  {
    if NoneSizing(slots) {
      forall k | 0 <= k < |slots|
        ensures RestedSlots(slots)[k] == slots[k]
      {
        assert RestedBars(slots[k].bars) == slots[k].bars;
      }
    } else {
      var k, i :| 0 <= k < |slots| && 0 <= i < |slots[k].bars| && slots[k].bars[i].sizing;
      assert RestedSlots(slots)[k].bars[i] == Rested(slots[k].bars[i]) != slots[k].bars[i];
    }
  }

  /** What was saved restores into a newly wired machine as the same machine (the same
      configuration space, MSI state and device at every address of both buses; only the
      selected address is new) exactly from the restorable states. */
  lemma RestoreAfterSave(orig: Pci, blank: Pci, fixedMmio: Mapping, fixedIo: Mapping)
    requires Inv(orig, fixedMmio, fixedIo) && OneBarEach(orig.slots) && Rewired(orig, blank, fixedMmio, fixedIo)
    requires |orig.slots| < 0x1_0000_0000
    ensures RestoreState(blank, SaveState(orig)) == Ok(orig.(address := blank.address)) <==> Restorable(orig)
  {
    hide RestoreState, SaveState, MapSlots, RestedSlots, NoneSizing, AllLoseAgain, OneBarEach, SlotsOk, BusOk, Rewired;
    RestoreBuilds(orig, blank, fixedMmio, fixedIo);
    RestedExactly(orig.slots);
    BusRebuilt(orig.slots, orig.mmio, false, fixedMmio);
    BusRebuilt(orig.slots, orig.io, true, fixedIo);
  }

  /** In particular when every BAR with an address is mapped. */
  lemma SettledRestorable(st: Pci)
    requires NoneSizing(st.slots)
    requires forall k, i :: 0 <= k < |st.slots| && 0 <= i < |st.slots[k].bars| && Addressed(st.slots[k].bars[i]) ==>
               st.slots[k].device in if st.slots[k].bars[i].isIo then st.io else st.mmio
    ensures Restorable(st)
  {}

  /** Hence, once an address is selected again, no access tells the two apart. */
  lemma RestoredIsIndistinguishable(orig: Pci, blank: Pci, fixedMmio: Mapping, fixedIo: Mapping,
                                    address: u32, ops: seq<PortOp>)
    requires Inv(orig, fixedMmio, fixedIo) && OneBarEach(orig.slots) && Rewired(orig, blank, fixedMmio, fixedIo)
    requires |orig.slots| < 0x1_0000_0000 && Restorable(orig)
    ensures var restored := RestoreState(blank, SaveState(orig));
            && restored.Ok?
            && restored.value.mmio == orig.mmio && restored.value.io == orig.io
            && (forall devfn :: MsiState(restored.value, devfn) == MsiState(orig, devfn))
            && Run(IoOut(restored.value, CONFIG_ADDRESS, Le4(address)), ops) ==
               Run(IoOut(orig, CONFIG_ADDRESS, Le4(address)), ops)
  {
    hide Inv, Restorable, Rewired, Run, Le4, FromLe4, FindSlot, RestoreState, OneBarEach;
    RestoreAfterSave(orig, blank, fixedMmio, fixedIo);
  }

  // --- Blobs that do not fit -----------------------------------------------------------------

  predicate Knows(slots: seq<Slot>, devfn: u8) {
    exists k :: 0 <= k < |slots| && slots[k].devfn == devfn
  }

  lemma {:induction false} WriteBarsKeepsSlots(st: Pci, k: nat, bases: seq<Option<u32>>, i: nat, devfn: u8)
    requires k < |st.slots| && |bases| == |st.slots[k].bars| && i <= |bases|
    ensures Knows(WriteBars(st, k, bases, i).slots, devfn) ==> Knows(st.slots, devfn)
    decreases |bases| - i
  {
    hide Registered, AlignDown;
    if i < |bases| {
      if bases[i].None? {
        WriteBarsKeepsSlots(st, k, bases, i + 1, devfn);
      } else {
        WriteBarsKeepsSlots(WriteBar(st, k, i, bases[i].value), k, bases, i + 1, devfn);
      }
    }
  }

  lemma RestoreSlotKnows(st: Pci, k: nat, sv: Saved, devfn: u8)
    requires k < |st.slots| && |sv.bases| == |st.slots[k].bars|
    ensures Knows(RestoreSlot(st, k, sv).slots, devfn) ==> Knows(st.slots, devfn)
  {
    hide WriteBars;
    var st1 := st.(slots := st.slots[k := st.slots[k].(command := sv.command, msi := sv.msi)]);
    WriteBarsKeepsSlots(st1, k, sv.bases, 0, devfn);
  }

  lemma {:induction false} SlotsRejected(cur: Pci, slots: seq<Slot>, j: nat)
    requires j < |slots| && !Knows(cur.slots, slots[j].devfn)
    requires forall k :: 0 <= k < |slots| ==> |slots[k].bars| == NUM_BARS
    ensures RestoreSlots(cur, EncodeSlots(slots), |slots|) == Err
    decreases |slots|
  {
    hide TakeSaved, EncodeSaved, RestoreSlot, FindSlot, Knows;
    SavedRoundTrip(SavedOf(slots[0]), EncodeSlots(slots[1..]));
    var k := FindSlot(cur.slots, slots[0].devfn);
    FoundKnown(cur.slots, slots[0].devfn);
    if k.Some? && |cur.slots[k.value].bars| == NUM_BARS {
      RestoreSlotKnows(cur, k.value, SavedOf(slots[0]), slots[j].devfn);
      SlotsRejected(RestoreSlot(cur, k.value, SavedOf(slots[0])), slots[1..], j - 1);
    }
  }

  lemma FoundKnown(slots: seq<Slot>, devfn: u8)
    ensures FindSlot(slots, devfn).Some? <==> Knows(slots, devfn)
  {
    var r := FindSlot(slots, devfn);
    if r.Some? {
      assert slots[r.value].devfn == devfn;
    }
  }

  /** A snapshot of a machine with a device that this one does not have is refused. */
  lemma UnknownSlotRejected(orig: Pci, blank: Pci, j: nat)
    requires j < |orig.slots| < 0x1_0000_0000 && !Knows(blank.slots, orig.slots[j].devfn)
    requires forall k :: 0 <= k < |orig.slots| ==> |orig.slots[k].bars| == NUM_BARS
    ensures RestoreState(blank, SaveState(orig)) == Err
  {
    hide S.Take, RestoreSlots, EncodeSlots, Le4, FromLe4, Knows;
    var n := |orig.slots|;
    DivMod(n, 0x1_0000_0000, 0, n);
    S.TakeFront(Le4(n), EncodeSlots(orig.slots));
    Le4RoundTrip(n);
    SlotsRejected(blank, orig.slots, j);
  }
}
