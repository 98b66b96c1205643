/** Boot page tables: what `setup_page_tables` writes, and what the processor
    makes of it (4-level paging, section 4.5 of the Intel SDM, volume 3A). */
module PageTables {
  import opened Bytes
  import opened Memory

  const PML4_START := 0x9000
  const PDPTE_START := 0xa000
  const PDE_START := 0xb000
  const KERNEL_START := 0x10_0000
  const PAGE_2MB := 0x20_0000
  const GIB := 0x4000_0000
  const PD_TABLE_SIZE := 4096
  const MAX_PDPT_ENTRIES := 512

  function DivCeil(a: nat, b: nat): nat
    requires b != 0
  {
    (a + b - 1) / b
  }

  function MaxIdentityMap(): nat {
    Min((KERNEL_START - PDE_START) / PD_TABLE_SIZE, MAX_PDPT_ENTRIES) * GIB
  }

  /** The maximum is the largest number of gibibytes whose page directories, one page each,
      fit between 0xb000 and 1 MiB and whose entries fit one table. */
  lemma MaxIsLargest(gibs: nat)
    ensures gibs * 0x4000_0000 <= MaxIdentityMap() <==> 0xb000 + 0x1000 * gibs <= 0x10_0000 && gibs <= 512
    ensures MaxIdentityMap() % 0x4000_0000 == 0
  {
    assert MaxIdentityMap() == 245 * 0x4000_0000;
  }

  // --- The processor's view --------------------------------------------------

  predicate Present(e: u64) { e % 2 == 1 }
  predicate Writable(e: u64) { e / 2 % 2 == 1 }
  predicate MapsPage(e: u64) { e / 0x80 % 2 == 1 }

  /** The physical address in an entry: bits 51 down to `shift`. */
  function Frame(e: u64, page: nat): nat
    requires page != 0
  {
    e % 0x10_0000_0000_0000 / page * page
  }

  /** A table entry, if it is present and lets the access through: with CR0.WP set, as it
      is here, a write needs the writable bit at every level. */
  function Load(m: Image, table: nat, index: nat): Option<u64> {
    match GetU64(m, table + 8 * index)
    case Some(e) => if Present(e) && Writable(e) then Some(e) else None
    case None => None
  }

  /** Translation of a 48-bit linear address for reading and writing; `None` is a page
      fault. */
  function Translate(m: Image, cr3: nat, va: nat): Option<nat> {
    match Load(m, cr3, va / 0x80_0000_0000 % 512)
    case None => None
    case Some(pml4e) => InPdpt(m, Frame(pml4e, 4096), va)
  }

  function InPdpt(m: Image, pdpt: nat, va: nat): Option<nat> {
    match Load(m, pdpt, va / GIB % 512)
    case None => None
    case Some(e) =>
      if MapsPage(e) then Some(Frame(e, GIB) + va % GIB) else InDirectory(m, Frame(e, 4096), va)
  }

  function InDirectory(m: Image, pd: nat, va: nat): Option<nat> {
    match Load(m, pd, va / PAGE_2MB % 512)
    case None => None
    case Some(e) =>
      if MapsPage(e) then Some(Frame(e, PAGE_2MB) + va % PAGE_2MB)
      else
        match Load(m, Frame(e, 4096), va / 4096 % 512)
        case None => None
        case Some(pte) => Some(Frame(pte, 4096) + va % 4096)
  }

  // --- Memory as 64-bit words --------------------------------------------------

  function Words(m: Image): (ws: seq<u64>)
    ensures |ws| == |m| / 8
  {
    seq(|m| / 8, w requires 0 <= w < |m| / 8 => FromLe8(m[8 * w..8 * w + 8]))
  }

  lemma StoreWord(m: Image, w: nat, v: u64)
    requires w < |m| / 8
    ensures Words(Put(m, 8 * w, Le8(v))) == Words(m)[w := v]
  {
    var m' := Put(m, 8 * w, Le8(v));
    PutHere(m, 8 * w, Le8(v));
    Le8RoundTrip(v);
    hide FromLe8, Le8, Put;
    forall i | 0 <= i < |m| / 8
      ensures Words(m')[i] == Words(m)[w := v][i]
    {
      if i != w {
        PutElsewhere(m, 8 * w, Le8(v), 8 * i, 8);
      }
    }
  }

  lemma LoadWord(m: Image, table: nat, index: nat)
    requires table % 8 == 0 && table / 8 + index < |m| / 8
    ensures Load(m, table, index) ==
            var e := Words(m)[table / 8 + index]; if Present(e) && Writable(e) then Some(e) else None
  {
    hide FromLe8;
    var w := table / 8 + index;
    assert table + 8 * index == 8 * w;
  }

  // --- The tables ---------------------------------------------------------------

  /** The entry at word `w` once the first `gibs` page directories are linked and
      the first `pages` 2 MiB pages mapped; `None` where nothing is written. The
      flag bits are added to page-aligned addresses. */
  function Entry(gibs: nat, pages: nat, w: nat): Option<nat> {
    if w == PML4_START / 8 then Some(PDPTE_START + 0x3)
    else if PDPTE_START / 8 <= w < PDPTE_START / 8 + gibs then
      Some(PDE_START + (w - PDPTE_START / 8) * PD_TABLE_SIZE + 0x3)
    else if PDE_START / 8 <= w < PDE_START / 8 + pages then
      Some((w - PDE_START / 8) * PAGE_2MB + 0x83)
    else None
  }

  ghost predicate Written(m0: Image, m: Image, gibs: nat, pages: nat) {
    && |m| == |m0|
    && Agree(m0, m, 0, PML4_START) && Agree(m0, m, KERNEL_START, |m|)
    && forall w :: 0 <= w < |m| / 8 ==>
         Words(m)[w] == match Entry(gibs, pages, w) case Some(e) => e case None => Words(m0)[w]
  }

  function Gibs(memSize: nat): nat
  {
    var n := DivCeil(memSize, GIB); if n == 0 then 1 else n
  }

  function Pages(memSize: nat): nat {
    DivCeil(memSize, PAGE_2MB)
  }

  /** One past the last byte of the tables for a memory size. */
  function TableEnd(memSize: nat): nat {
    var pdpt, pd := PDPTE_START + 8 * Gibs(memSize), PDE_START + 8 * Pages(memSize);
    if pdpt <= pd then pd else pdpt
  }

  datatype PagingRegs = PagingRegs(cr3: u64, cr4: u64, cr0: u64, efer: u64)

  method WriteBoot(mem: GuestMemory, addr: u64, val: u64)
    requires mem.Valid() && addr + 8 <= mem.cells.Length && addr % 8 == 0
    modifies mem.cells
    ensures mem.Image() == Put(old(mem.Image()), addr, Le8(val))
    ensures Words(mem.Image()) == Words(old(mem.Image()))[addr / 8 := val]
  {
    StoreWord(mem.Image(), addr / 8, val);
    var _ := mem.WriteChecked(addr, Le8(val));
  }

  lemma OneMore(m0: Image, m: Image, m': Image, gibs: nat, pages: nat, gibs': nat, pages': nat, w: nat, v: u64)
    requires w < |m| / 8 && Written(m0, m, gibs, pages) && |m'| == |m|
    requires PML4_START / 8 <= w < KERNEL_START / 8 && m' == Put(m, 8 * w, Le8(v))
    requires Words(m') == Words(m)[w := v]
    requires Entry(gibs', pages', w) == Some(v)
    requires forall i: nat :: i != w ==> Entry(gibs', pages', i) == Entry(gibs, pages, i)
    ensures Written(m0, m', gibs', pages')
  {
    hide Words, Entry, Put, Le8;
    PutAgree(m, 8 * w, Le8(v), 0, PML4_START);
    PutAgree(m, 8 * w, Le8(v), KERNEL_START, |m|);
  }

  /** The pages a directory holds: all 512, or what is left of the memory. */
  function PagesInGib(memSize: nat, gib: nat): nat {
    var left := if memSize >= gib * GIB then memSize - gib * GIB else 0;
    DivCeil(Min(left, GIB), PAGE_2MB)
  }

  lemma PagesSoFar(memSize: nat, gib: nat)
    requires gib < Gibs(memSize)
    ensures Min(512 * gib, Pages(memSize)) == 512 * gib
    ensures 512 * gib + PagesInGib(memSize, gib) == Min(512 * (gib + 1), Pages(memSize))
  {}

  lemma PagesInAll(memSize: nat)
    ensures Min(512 * Gibs(memSize), Pages(memSize)) == Pages(memSize)
  {}

  /** Each directory and its entries lie below the end of the tables. */
  lemma TablesFit(memSize: nat, gib: nat)
    requires memSize <= MaxIdentityMap() && gib < Gibs(memSize)
    ensures PDPTE_START + 8 * (gib + 1) <= TableEnd(memSize) && gib < 245
    ensures PagesInGib(memSize, gib) <= 512
    ensures PDE_START + 8 * (512 * gib + PagesInGib(memSize, gib)) <= TableEnd(memSize)
    ensures 0 < Gibs(memSize)
  {
    hide PagesInGib, Pages;
    PagesSoFar(memSize, gib);
    Bounds(memSize);
  }

  method LinkDirectory(mem: GuestMemory, gib: nat, ghost m0: Image)
    requires mem.Valid() && mem.cells.Length >= PDPTE_START + 8 * (gib + 1) && gib < 245
    requires Written(m0, mem.Image(), gib, 512 * gib)
    modifies mem.cells
    ensures Written(m0, mem.Image(), gib + 1, 512 * gib)
  {
    hide Words, Put, Le8;
    var pdTable := PDE_START + gib * PD_TABLE_SIZE;
    WriteBoot(mem, PDPTE_START + gib * 8, pdTable + 0x3);
    OneMore(m0, old(mem.Image()), mem.Image(), gib, 512 * gib, gib + 1, 512 * gib,
            PDPTE_START / 8 + gib, pdTable + 0x3);
  }

  method MapPages(mem: GuestMemory, gib: nat, count: nat, ghost m0: Image)
    requires mem.Valid() && mem.cells.Length >= PDE_START + 8 * (512 * gib + count) && gib < 245 && count <= 512
    requires Written(m0, mem.Image(), gib + 1, 512 * gib)
    modifies mem.cells
    ensures Written(m0, mem.Image(), gib + 1, 512 * gib + count)
  {
    hide Words, Put, Le8;
    var pdTable := PDE_START + gib * PD_TABLE_SIZE;
    var gibBase := gib * GIB;
    for i := 0 to count
      invariant Written(m0, mem.Image(), gib + 1, 512 * gib + i)
    {
      ghost var m := mem.Image();
      var phys := gibBase + i * PAGE_2MB;
      WriteBoot(mem, pdTable + i * 8, phys + 0x83);
      OneMore(m0, m, mem.Image(), gib + 1, 512 * gib + i, gib + 1, 512 * gib + i + 1,
              PDE_START / 8 + 512 * gib + i, phys + 0x83);
    }
  }

  method SetupPageTables(mem: GuestMemory, memSize: u64) returns (r: Result<PagingRegs>)
    requires mem.Valid() && (memSize <= MaxIdentityMap() ==> TableEnd(memSize) <= mem.cells.Length)
    modifies mem.cells
    ensures r.Ok? <==> memSize <= MaxIdentityMap()
    ensures r.Ok? ==> r.value == PagingRegs(PML4_START, 0x20, 0x80050033, 0x500)
    ensures r.Ok? ==> Written(old(mem.Image()), mem.Image(), Gibs(memSize), Pages(memSize))
    ensures r.Err? ==> mem.Image() == old(mem.Image())
  {
    hide Words, Put, Le8, Written, PagesInGib, Pages, Gibs, TableEnd, MaxIdentityMap;
    if memSize > MaxIdentityMap() {
      return Err;
    }
    ghost var m0 := mem.Image();
    Bounds(memSize);
    TablesFit(memSize, 0);
    WriteBoot(mem, PML4_START, PDPTE_START + 0x3);
    FirstEntry(m0, mem.Image());
    var numGib := Gibs(memSize);
    PagesSoFar(memSize, 0);
    for gib := 0 to numGib
      invariant Written(m0, mem.Image(), gib, Min(512 * gib, Pages(memSize)))
    {
      PagesSoFar(memSize, gib);
      TablesFit(memSize, gib);
      LinkDirectory(mem, gib, m0);
      var pagesInThisGib := PagesInGib(memSize, gib);
      MapPages(mem, gib, pagesInThisGib, m0);
    }
    PagesInAll(memSize);
    r := Ok(PagingRegs(PML4_START, 0x20, 0x80050033, 0x500));
  }

  lemma FirstEntry(m0: Image, m: Image)
    requires |m0| >= PML4_START + 8 && m == Put(m0, PML4_START, Le8(PDPTE_START + 0x3))
    requires Words(m) == Words(m0)[PML4_START / 8 := PDPTE_START + 0x3]
    ensures Written(m0, m, 0, 0)
  {
    hide Words, Put, Le8;
    PutAgree(m0, PML4_START, Le8(PDPTE_START + 0x3), 0, PML4_START);
    PutAgree(m0, PML4_START, Le8(PDPTE_START + 0x3), KERNEL_START, |m0|);
  }

  // --- The walk -----------------------------------------------------------------

  lemma DirectoryEntry(k: nat)
    requires 4096 * k < 0x10_0000_0000_0000
    ensures Present(4096 * k + 0x3) && Writable(4096 * k + 0x3) && !MapsPage(4096 * k + 0x3) && Frame(4096 * k + 0x3, 4096) == 4096 * k
  {
    var e := 4096 * k + 0x3;
    assert k < 0x100_0000_0000;
    DivMod(e, 2, 2048 * k + 1, 1);
    DivMod(2048 * k + 1, 2, 1024 * k, 1);
    DivMod(e, 0x80, 32 * k, 3);
    DivMod(32 * k, 2, 16 * k, 0);
    DivMod(e, 0x10_0000_0000_0000, 0, e);
    DivMod(e, 4096, k, 3);
  }

  lemma PageEntry(k: nat)
    requires PAGE_2MB * k < 0x10_0000_0000_0000
    ensures Present(PAGE_2MB * k + 0x83) && Writable(PAGE_2MB * k + 0x83) && MapsPage(PAGE_2MB * k + 0x83)
    ensures Frame(PAGE_2MB * k + 0x83, PAGE_2MB) == PAGE_2MB * k
  {
    var e := PAGE_2MB * k + 0x83;
    assert k < 0x8000_0000;
    DivMod(e, 2, 0x10_0000 * k + 0x41, 1);
    DivMod(0x10_0000 * k + 0x41, 2, 0x8_0000 * k + 0x20, 1);
    DivMod(e, 0x80, 0x4000 * k + 1, 3);
    DivMod(0x4000 * k + 1, 2, 0x2000 * k, 1);
    DivMod(e, 0x10_0000_0000_0000, 0, e);
    DivMod(e, PAGE_2MB, k, 0x83);
  }

  /** What the processor loads at each level. */
  lemma Loads(m0: Image, m: Image, gibs: nat, pages: nat)
    requires |m0| >= PDPTE_START + 8 * gibs && Written(m0, m, gibs, pages) && gibs <= 245 && pages <= 512 * 245
    ensures Load(m, PML4_START, 0) == Some(PDPTE_START + 0x3)
    ensures forall g :: 0 <= g < gibs ==> Load(m, PDPTE_START, g) == Some(PDE_START + PD_TABLE_SIZE * g + 0x3)
  {
    hide Words, Load;
    LoadWord(m, PML4_START, 0);
    forall g | 0 <= g < gibs
      ensures Load(m, PDPTE_START, g) == Some(PDE_START + PD_TABLE_SIZE * g + 0x3)
    {
      LoadWord(m, PDPTE_START, g);
      DirectoryEntry(11 + g);
    }
  }

  lemma LoadsPage(m0: Image, m: Image, gibs: nat, pages: nat, g: nat, i: nat)
    requires |m0| >= PDE_START + 8 * pages && Written(m0, m, gibs, pages) && gibs <= 245 && pages <= 512 * 245
    requires i < 512 && 512 * g + i < pages
    ensures Load(m, PDE_START + PD_TABLE_SIZE * g, i) == Some(PAGE_2MB * (512 * g + i) + 0x83)
  {
    hide Words, Load;
    var p := 512 * g + i;
    assert (PDE_START + PD_TABLE_SIZE * g) / 8 + i == PDE_START / 8 + p;
    LoadWord(m, PDE_START + PD_TABLE_SIZE * g, i);
    PageEntry(p);
  }

  lemma Bounds(memSize: nat)
    requires memSize <= MaxIdentityMap()
    ensures 0 < Gibs(memSize) <= 245 && Pages(memSize) <= 512 * Gibs(memSize)
    ensures PDPTE_START + 8 * Gibs(memSize) <= TableEnd(memSize) && PDE_START + 8 * Pages(memSize) <= TableEnd(memSize)
    ensures memSize <= Gibs(memSize) * GIB
  {}

  /** An address below 512 GiB, taken apart into its table indices. */
  lemma Indices(va: nat)
    requires va < 0x80_0000_0000
    ensures va / 0x80_0000_0000 % 512 == 0
    ensures va / GIB < 512 && va / GIB % 512 == va / GIB
    ensures va / PAGE_2MB % 512 < 512 && 512 * (va / GIB) + va / PAGE_2MB % 512 == va / PAGE_2MB
    ensures PAGE_2MB * (va / PAGE_2MB) + va % PAGE_2MB == va
  {
    var page, off := va / PAGE_2MB, va % PAGE_2MB;
    var g, i := page / 512, page % 512;
    assert va == PAGE_2MB * page + off && page == 512 * g + i;
    DivMod(va, GIB, g, PAGE_2MB * i + off);
    DivMod(va, 0x80_0000_0000, 0, va);
    assert g < 512;
    DivMod(g, 512, 0, g);
  }

  /** Where a mapped address is found. */
  lemma MappedIndices(memSize: nat, va: nat)
    requires memSize <= MaxIdentityMap() && va < Pages(memSize) * PAGE_2MB
    ensures va < 0x80_0000_0000 && va / GIB < Gibs(memSize) && va / PAGE_2MB < Pages(memSize)
  {
    Bounds(memSize);
    var page, pages := va / PAGE_2MB, Pages(memSize);
    assert page < pages;
    assert va < 512 * Gibs(memSize) * PAGE_2MB == Gibs(memSize) * GIB;
  }

  /** Every address below the rounded-up memory size translates to itself. */
  lemma IdentityMapped(m0: Image, m: Image, memSize: nat, va: nat)
    requires memSize <= MaxIdentityMap() && TableEnd(memSize) <= |m0|
    requires Written(m0, m, Gibs(memSize), Pages(memSize))
    requires va < Pages(memSize) * PAGE_2MB
    ensures Translate(m, PML4_START, va) == Some(va)
  {
    hide Load, Frame, Present, Writable, MapsPage, Written, Gibs, Pages, TableEnd, MaxIdentityMap;
    Bounds(memSize);
    MappedIndices(memSize, va);
    Indices(va);
    var g, i := va / GIB, va / PAGE_2MB % 512;
    Loads(m0, m, Gibs(memSize), Pages(memSize));
    LoadsPage(m0, m, Gibs(memSize), Pages(memSize), g, i);
    WalkLevels(m, va, g, i);
  }

  /** Three present entries, each leading to the next, take an address to its page. */
  lemma WalkLevels(m: Image, va: nat, g: nat, i: nat)
    requires va / 0x80_0000_0000 % 512 == 0 && va / GIB % 512 == g < 245 && va / PAGE_2MB % 512 == i < 512
    requires Load(m, PML4_START, 0) == Some(PDPTE_START + 0x3)
    requires Load(m, PDPTE_START, g) == Some(PDE_START + PD_TABLE_SIZE * g + 0x3)
    requires Load(m, PDE_START + PD_TABLE_SIZE * g, i) == Some(PAGE_2MB * (512 * g + i) + 0x83)
    ensures Translate(m, PML4_START, va) == Some(PAGE_2MB * (512 * g + i) + va % PAGE_2MB)
  {
    hide Load, Frame, Present, Writable, MapsPage;
    DirectoryEntry(10);
    DirectoryEntry(11 + g);
    PageEntry(512 * g + i);
  }

  /** The pages the tables go into hold nothing yet. */
  ghost predicate Zeroed(m: Image, gibs: nat)
  {
    forall w :: PML4_START / 8 <= w < PDE_START / 8 + 512 * gibs && w < |m| / 8 ==> Words(m)[w] == 0
  }

  lemma Beyond(va: nat, pages: nat)
    requires pages * PAGE_2MB <= va < 0x1_0000_0000_0000
    ensures va / 0x80_0000_0000 % 512 == va / 0x80_0000_0000 < 512
    ensures va < 0x80_0000_0000 ==> 512 * (va / GIB % 512) + va / PAGE_2MB % 512 >= pages
  {
    var h := va / 0x80_0000_0000;
    assert h < 512;
    DivMod(h, 512, 0, h);
    if va < 0x80_0000_0000 {
      Indices(va);
      assert va / PAGE_2MB >= pages;
    }
  }

  /** From zeroed table pages, every other 48-bit address faults. */
  lemma NothingElseMapped(m0: Image, m: Image, memSize: nat, va: nat)
    requires memSize <= MaxIdentityMap() && TableEnd(memSize) <= |m0|
    requires Written(m0, m, Gibs(memSize), Pages(memSize))
    requires Zeroed(m0, Gibs(memSize))
    requires Pages(memSize) * PAGE_2MB <= va < 0x1_0000_0000_0000
    ensures Translate(m, PML4_START, va) == None
  {
    hide Words, Load, Frame, Present, Writable, MapsPage, Gibs, Pages, Written, TableEnd, MaxIdentityMap, Zeroed;
    Bounds(memSize);
    Beyond(va, Pages(memSize));
    var h, gibs, pages := va / 0x80_0000_0000, Gibs(memSize), Pages(memSize);
    Loads(m0, m, gibs, pages);
    DirectoryEntry(10);
    if h != 0 {
      LoadsNothing(m0, m, gibs, pages, PML4_START, h);
    } else {
      assert va < 0x80_0000_0000;
      NotInPdpt(m0, m, gibs, pages, va);
    }
  }

  lemma NotInPdpt(m0: Image, m: Image, gibs: nat, pages: nat, va: nat)
    requires |m0| >= PDPTE_START + 8 * gibs && Written(m0, m, gibs, pages) && gibs <= 245 && pages <= 512 * gibs
    requires Zeroed(m0, gibs)
    requires 512 * (va / GIB % 512) + va / PAGE_2MB % 512 >= pages
    ensures InPdpt(m, PDPTE_START, va) == None
  {
    hide Words, Load, Frame, Present, Writable, MapsPage, Written;
    var g, i := va / GIB % 512, va / PAGE_2MB % 512;
    if g >= gibs {
      LoadsNothing(m0, m, gibs, pages, PDPTE_START, g);
    } else {
      Loads(m0, m, gibs, pages);
      DirectoryEntry(11 + g);
      LoadsNothing(m0, m, gibs, pages, PDE_START + PD_TABLE_SIZE * g, i);
    }
  }

  lemma LoadsNothing(m0: Image, m: Image, gibs: nat, pages: nat, table: nat, i: nat)
    requires gibs <= 245 && Written(m0, m, gibs, pages) && Zeroed(m0, gibs)
    requires table % 8 == 0 && PML4_START <= table && table + 8 * i < PDE_START + PD_TABLE_SIZE * gibs
    requires Entry(gibs, pages, table / 8 + i) == None
    ensures Load(m, table, i) == None
  {
    hide Words, Load;
    if table / 8 + i < |m| / 8 {
      LoadWord(m, table, i);
    } else {
      LoadBeyond(m, table, i);
    }
  }

  lemma LoadBeyond(m: Image, table: nat, i: nat)
    requires table % 8 == 0 && table / 8 + i >= |m| / 8
    ensures Load(m, table, i) == None
  {
    hide FromLe8;
    var w := table / 8 + i;
    assert table + 8 * i == 8 * w;
  }
}
