/** The address bus: which device answers at an address. */
module Buses {
  import opened Bytes

  /** Devices are compared by identity. */
  type DeviceId = nat

  /** `last` is inclusive, so a region can reach the top of the address space. */
  datatype Region = Region(base: u64, last: u64, device: DeviceId, irq: Option<u32>)

  predicate Contains(r: Region, addr: u64) {
    r.base <= addr <= r.last
  }

  predicate Overlaps(base: u64, last: u64, r: Region) {
    base <= r.last && r.base <= last
  }

  /** What the bus means, with the order of its regions forgotten. */
  type Mapping = map<DeviceId, Region>

  datatype Answer = Answer(device: DeviceId, offset: u64, irq: Option<u32>)

  /** `a` is the device answering at `addr`, or nothing if none covers it. */
  ghost predicate Answers(m: Mapping, addr: u64, a: Option<Answer>) {
    if a.Some? then
      && a.value.device in m && m[a.value.device].base <= addr <= m[a.value.device].last
      && a.value.offset == addr - m[a.value.device].base && a.value.irq == m[a.value.device].irq
    else forall d :: d in m ==> !(m[d].base <= addr <= m[d].last)
  }

  ghost predicate Disjoint(m: Mapping) {
    && (forall d :: d in m ==> m[d].device == d && m[d].base <= m[d].last)
    && forall d, e :: d in m && e in m && d != e ==> !Overlaps(m[d].base, m[d].last, m[e])
  }

  /** Ranges overlap exactly if they share an address. */
  lemma OverlapsExactly(base: u64, last: u64, r: Region)
    requires base <= last && r.base <= r.last
    ensures Overlaps(base, last, r) <==> exists a: u64 :: Shared(base, last, r, a)
  {
    if Overlaps(base, last, r) {
      assert Shared(base, last, r, if base <= r.base then r.base else base);
    }
  }

  predicate Shared(base: u64, last: u64, r: Region, a: u64) {
    base <= a <= last && r.base <= a <= r.last
  }

  lemma AnswerUnique(m: Mapping, addr: u64, a: Option<Answer>, b: Option<Answer>)
    requires Disjoint(m) && Answers(m, addr, a) && Answers(m, addr, b)
    ensures a == b
  {}

  /** The region's last address, not past the top of the address space. */
  function LastOf(base: u64, size: u64): u64
    requires size != 0
  {
    Min(base + size - 1, 0xffff_ffff_ffff_ffff)
  }

  /** A region covers exactly the `size` addresses from `base`, as far as there are any. */
  lemma LastOfExactly(base: u64, size: u64, a: u64)
    requires size != 0
    ensures base <= LastOf(base, size) && (base <= a <= LastOf(base, size) <==> base <= a < base + size)
  {}

  ghost predicate Clashes(m: Mapping, base: u64, last: u64) {
    exists d :: d in m && Overlaps(base, last, m[d])
  }

  /** Registering replaces the device's own region first, and then refuses a
      region that overlaps another device's. */
  ghost function Registered(m: Mapping, base: u64, size: u64, device: DeviceId, irq: Option<u32>): Mapping {
    var others := m - {device};
    if size == 0 || Clashes(others, base, LastOf(base, size)) then others
    else others[device := Region(base, LastOf(base, size), device, irq)]
  }

  /** Whatever was there before: the device has exactly the region asked for, if it is not
      empty and overlaps no other device's, and otherwise none; no other device's region
      changes. */
  lemma RegisteredExactly(m: Mapping, base: u64, size: u64, device: DeviceId, irq: Option<u32>)
    ensures var m' := Registered(m, base, size, device, irq);
            && m' - {device} == m - {device}
            && (device in m' <==> size != 0 && forall d :: d in m && d != device ==> Clear(base, size, m[d]))
            && (device in m' ==> m'[device] == Region(base, LastOf(base, size), device, irq))
  {
    var others := m - {device};
    if size != 0 {
      var last := LastOf(base, size);
      forall d | d in m && d != device
        ensures Overlaps(base, last, m[d]) <==> !Clear(base, size, m[d])
        ensures d in others && others[d] == m[d]
      {}
      assert Clashes(others, base, last) <==> exists d :: d in m && d != device && !Clear(base, size, m[d]);
    }
  }

  /** The region lies wholly below or above the `size` addresses from `base`. */
  predicate Clear(base: u64, size: u64, r: Region) {
    r.last < base || base + size <= r.base
  }

  lemma RegisteredDisjoint(m: Mapping, base: u64, size: u64, device: DeviceId, irq: Option<u32>)
    requires Disjoint(m)
    ensures Disjoint(Registered(m, base, size, device, irq))
  {}

  /** The mapping held by a list of regions. */
  ghost function View(rs: seq<Region>): Mapping {
    if rs == [] then map[] else View(rs[..|rs| - 1])[rs[|rs| - 1].device := rs[|rs| - 1]]
  }

  ghost predicate OnePerDevice(rs: seq<Region>) {
    rs == [] || (OnePerDevice(rs[..|rs| - 1]) && rs[|rs| - 1].device !in View(rs[..|rs| - 1]))
  }

  lemma {:induction false} Prefix(rs: seq<Region>, i: nat)
    requires i < |rs| && OnePerDevice(rs)
    ensures OnePerDevice(rs[..i]) && rs[i].device !in View(rs[..i])
    ensures View(rs[..i + 1]) == View(rs[..i])[rs[i].device := rs[i]]
    ensures rs[i].device in View(rs) && View(rs)[rs[i].device] == rs[i]
    ensures View(rs[..i]).Keys <= View(rs).Keys
    decreases |rs|
  {
    var n := |rs| - 1;
    assert rs[..i + 1][..i] == rs[..i];
    if i < n {
      Prefix(rs[..n], i);
      assert rs[..n][..i] == rs[..i] && rs[..n][..i + 1] == rs[..i + 1];
    } else {
      assert rs[..i + 1] == rs;
    }
  }

  lemma UpdateThenRemove(m: Mapping, r: Region, device: DeviceId)
    ensures r.device == device ==> m[r.device := r] - {device} == m - {device}
    ensures r.device != device ==> m[r.device := r] - {device} == (m - {device})[r.device := r]
  {}

  lemma ViewSnoc(rs: seq<Region>, r: Region)
    ensures View(rs + [r]) == View(rs)[r.device := r]
    ensures OnePerDevice(rs + [r]) <==> OnePerDevice(rs) && r.device !in View(rs)
  {
    assert (rs + [r])[..|rs|] == rs;
  }

  lemma RemovedDisjoint(m: Mapping, device: DeviceId)
    requires Disjoint(m)
    ensures Disjoint(m - {device})
  {}

  /** The regions of every other device, in their order. */
  method Retain(rs: seq<Region>, device: DeviceId) returns (kept: seq<Region>)
    requires OnePerDevice(rs)
    ensures OnePerDevice(kept) && View(kept) == View(rs) - {device}
  {
    hide View, OnePerDevice;
    ViewEmpty();
    kept := [];
    assert rs[..0] == [];
    for i := 0 to |rs|
      invariant OnePerDevice(kept) && View(kept) == View(rs[..i]) - {device}
    {
      Prefix(rs, i);
      UpdateThenRemove(View(rs[..i]), rs[i], device);
      if rs[i].device != device {
        ViewSnoc(kept, rs[i]);
        kept := kept + [rs[i]];
      }
    }
    assert rs[..|rs|] == rs;
  }

  lemma ViewEmpty()
    ensures View([]) == map[] && OnePerDevice([])
  {}

  class Bus {
    var regions: seq<Region>

    ghost predicate Valid()
      reads this
    {
      OnePerDevice(regions) && Disjoint(View(regions))
    }

    constructor ()
      ensures Valid() && View(regions) == map[]
    {
      regions := [];
    }

    method Unregister(device: DeviceId)
      requires Valid()
      modifies this
      ensures Valid() && View(regions) == old(View(regions)) - {device}
    {
      RemovedDisjoint(View(regions), device);
      var kept := Retain(regions, device);
      regions := kept;
    }

    method Register(base: u64, size: u64, device: DeviceId, irq: Option<u32>)
      requires Valid()
      modifies this
      ensures Valid() && View(regions) == Registered(old(View(regions)), base, size, device, irq)
    {
      hide View, OnePerDevice, Disjoint;
      RegisteredDisjoint(View(regions), base, size, device, irq);
      Unregister(device);
      if size == 0 {
        return;
      }
      var last := LastOf(base, size);
      var clash := FindClash(base, last);
      if clash {
        return;
      }
      ViewSnoc(regions, Region(base, last, device, irq));
      regions := regions + [Region(base, last, device, irq)];
    }

    method FindClash(base: u64, last: u64) returns (clash: bool)
      requires Valid()
      ensures clash <==> Clashes(View(regions), base, last)
    {
      for i := 0 to |regions|
        invariant !Clashes(View(regions[..i]), base, last)
      {
        Prefix(regions, i);
        if Overlaps(base, last, regions[i]) {
          return true;
        }
      }
      assert regions[..|regions|] == regions;
      clash := false;
    }

    /** The first region that covers the address is the only one that does. */
    method FindDevice(addr: u64) returns (a: Option<Answer>)
      requires Valid()
      ensures Answers(View(regions), addr, a)
    {
      for i := 0 to |regions|
        invariant forall d :: d in View(regions[..i]) ==> !Contains(View(regions[..i])[d], addr)
      {
        Prefix(regions, i);
        var r := regions[i];
        if Contains(r, addr) {
          return Some(Answer(r.device, addr - r.base, r.irq));
        }
      }
      assert regions[..|regions|] == regions;
      a := None;
    }
  }
}
