/** A split virtqueue (section 2.6 of Virtio 1.1) walked in guest-controlled memory. */
module VirtQueues {
  import opened Bytes
  import opened Memory

  const QUEUE_ALIGN := 4096
  const DESC_SIZE := 16

  /** The fields of a queue: `lastAvail` counts modulo 2^16. */
  datatype Queue = Queue(
    size: u16, pfn: u32, desc: u64, avail: u64, used: u64, enabled: bool, lastAvail: u16)

  function FreshQueue(size: u16): Queue {
    Queue(size, 0, 0, 0, 0, false, 0)
  }

  predicate Live(q: Queue) {
    q.enabled && q.size != 0
  }

  /** No address computed for a queue that is in use exceeds 64 bits. */
  ghost predicate Headroom(q: Queue) {
    Live(q) ==>
      && q.desc + DESC_SIZE * q.size < 0x1_0000_0000_0000_0000
      && q.avail + 6 + 2 * q.size < 0x1_0000_0000_0000_0000
      && q.used + 6 + 8 * q.size < 0x1_0000_0000_0000_0000
  }

  function Next(i: u16): u16 {
    (i + 1) % 0x1_0000
  }

  // --- Descriptors and chains ---------------------------------------------

  datatype Desc = Desc(addr: u64, len: u32, flags: u16, next: u16) {
    predicate HasNext() { flags % 2 == 1 }
    function Buffer(): Buf { Buf(addr, len, (flags / 2) % 2 == 1) }
  }

  datatype Buf = Buf(addr: u64, len: u32, writable: bool)

  datatype Chain = Chain(head: u16, bufs: seq<Buf>)

  function ParseDesc(bs: seq<u8>): Desc
    requires |bs| == DESC_SIZE
  {
    Desc(FromLe8(bs[0..8]), FromLe4(bs[8..12]), FromLe2(bs[12..14]), FromLe2(bs[14..16]))
  }

  /** The descriptor table as the device sees it; entries outside RAM are unreadable. */
  type Table = seq<Option<Desc>>

  function DescAt(m: Image, a: nat): Option<Desc> {
    if a + DESC_SIZE <= |m| then Some(ParseDesc(m[a..a + DESC_SIZE])) else None
  }

  function TableOf(m: Image, desc: nat, size: nat): Table {
    seq(size, i requires 0 <= i < size => DescAt(m, desc + DESC_SIZE * i))
  }

  function TotalLen(bufs: seq<Buf>): nat {
    if bufs == [] then 0 else bufs[0].len + TotalLen(bufs[1..])
  }

  /** Descriptor `i`, if it is readable and its buffer fits RAM, also together
      with the `total` bytes described before it. */
  function Admit(t: Table, ram: nat, i: u16, total: nat): Option<Desc> {
    if i >= |t| then None
    else
      var d := t[i];
      if d.None? || d.value.addr + d.value.len > ram || total + d.value.len > ram then None else d
  }

  /** The descriptor walk from `i`, taking at most `steps` descriptors when
      `total` bytes have been described before; `None` is a malformed chain. */
  function Walk(t: Table, ram: nat, i: u16, steps: nat, total: nat): Option<seq<Buf>>
    decreases steps
  {
    if steps == 0 then Some([])
    else
      match Admit(t, ram, i, total)
      case None => None
      case Some(d) =>
        if d.HasNext() then Prepend([d.Buffer()], Walk(t, ram, d.next, steps - 1, total + d.len))
        else Some([d.Buffer()])
  }

  function Prepend(bufs: seq<Buf>, rest: Option<seq<Buf>>): Option<seq<Buf>> {
    if rest.None? then None else Some(bufs + rest.value)
  }

  /** What a well-formed chain is, without following the code: a path through
      the descriptor table from `head` along the next fields, ending at the first
      descriptor without one or cut at the table size, every buffer in RAM, and
      all of them together no larger than RAM. */
  ghost predicate IsChain(t: Table, ram: nat, head: u16, path: seq<u16>, bufs: seq<Buf>) {
    1 <= |path| && path[0] == head && IsPath(t, ram, path, bufs, |t|) && TotalLen(bufs) <= ram
  }

  ghost predicate IsPath(t: Table, ram: nat, path: seq<u16>, bufs: seq<Buf>, limit: nat) {
    && |path| == |bufs| <= limit
    && (forall i :: 0 <= i < |path| ==> GoodDesc(t, ram, path[i]) && bufs[i] == t[path[i]].value.Buffer())
    && (forall i :: 0 <= i < |path| - 1 ==>
          GoodDesc(t, ram, path[i]) && t[path[i]].value.HasNext() && path[i + 1] == t[path[i]].value.next)
    && (0 < |path| < limit ==> !t[path[|path| - 1]].value.HasNext())
  }

  ghost predicate GoodDesc(t: Table, ram: nat, i: u16) {
    i < |t| && t[i].Some? && t[i].value.addr + t[i].value.len <= ram
  }

  lemma PathCons(t: Table, ram: nat, i: u16, path: seq<u16>, bufs: seq<Buf>, limit: nat)
    requires |path| > 0 && IsPath(t, ram, path, bufs, limit)
    requires GoodDesc(t, ram, i) && t[i].value.HasNext() && t[i].value.next == path[0]
    ensures IsPath(t, ram, [i] + path, [t[i].value.Buffer()] + bufs, limit + 1)
  {
    var path', bufs' := [i] + path, [t[i].value.Buffer()] + bufs;
    forall k | 0 <= k < |path'|
      ensures GoodDesc(t, ram, path'[k]) && bufs'[k] == t[path'[k]].value.Buffer()
      ensures k < |path'| - 1 ==> t[path'[k]].value.HasNext() && path'[k + 1] == t[path'[k]].value.next
    {
      if k > 0 {
        assert path'[k] == path[k - 1] && bufs'[k] == bufs[k - 1];
      }
    }
  }

  lemma PathOfOne(t: Table, ram: nat, i: u16, limit: nat)
    requires limit > 0 && GoodDesc(t, ram, i) && (t[i].value.HasNext() ==> limit == 1)
    ensures IsPath(t, ram, [i], [t[i].value.Buffer()], limit)
  {}

  lemma {:induction false} WalkFollowsPath(t: Table, ram: nat, i: u16, steps: nat, total: nat)
    returns (path: seq<u16>)
    requires steps > 0 && Walk(t, ram, i, steps, total).Some?
    ensures var bufs := Walk(t, ram, i, steps, total).value;
            |path| > 0 && path[0] == i && IsPath(t, ram, path, bufs, steps) && total + TotalLen(bufs) <= ram
    decreases steps
  {
    hide IsPath;
    var d := t[i].value;
    path := [i];
    if !d.HasNext() || steps == 1 {
      PathOfOne(t, ram, i, steps);
    }
    if d.HasNext() {
      var rest := Walk(t, ram, d.next, steps - 1, total + d.len).value;
      assert ([d.Buffer()] + rest)[1..] == rest;
      assert steps == 1 ==> [d.Buffer()] + rest == [d.Buffer()];
      if steps > 1 {
        var tail := WalkFollowsPath(t, ram, d.next, steps - 1, total + d.len);
        PathCons(t, ram, i, tail, rest, steps - 1);
        path := [i] + tail;
      }
    }
  }

  lemma PathTail(t: Table, ram: nat, path: seq<u16>, bufs: seq<Buf>, limit: nat)
    requires |path| > 1 && IsPath(t, ram, path, bufs, limit)
    ensures IsPath(t, ram, path[1..], bufs[1..], limit - 1)
  {
    var path', bufs' := path[1..], bufs[1..];
    forall i | 0 <= i < |path'|
      ensures GoodDesc(t, ram, path'[i]) && bufs'[i] == t[path'[i]].value.Buffer()
      ensures i < |path'| - 1 ==> t[path'[i]].value.HasNext() && path'[i + 1] == t[path'[i]].value.next
    {
      assert path'[i] == path[i + 1] && bufs'[i] == bufs[i + 1];
    }
  }

  lemma {:induction false} PathIsWalked(
    t: Table, ram: nat, path: seq<u16>, bufs: seq<Buf>, steps: nat, total: nat)
    requires |path| > 0 && IsPath(t, ram, path, bufs, steps) && total + TotalLen(bufs) <= ram
    ensures Walk(t, ram, path[0], steps, total) == Some(bufs)
    decreases steps
  {
    assert GoodDesc(t, ram, path[0]);
    var d := t[path[0]].value;
    var b := d.Buffer();
    if |path| == 1 {
      assert bufs == [b] == [b] + [];
    } else {
      PathTail(t, ram, path, bufs, steps);
      assert bufs == [b] + bufs[1..];
      assert d.HasNext() && path[0 + 1] == d.next;
      PathIsWalked(t, ram, path[1..], bufs[1..], steps - 1, total + d.len);
    }
  }

  /** The bounded walk accepts exactly the well-formed chains, and there is only one. */
  lemma WalkAcceptsExactlyChains(t: Table, ram: nat, head: u16, bufs: seq<Buf>)
    requires t != []
    ensures Walk(t, ram, head, |t|, 0) == Some(bufs) <==> exists path :: IsChain(t, ram, head, path, bufs)
  {
    if Walk(t, ram, head, |t|, 0) == Some(bufs) {
      var path := WalkFollowsPath(t, ram, head, |t|, 0);
      assert IsChain(t, ram, head, path, bufs);
    }
    if path :| IsChain(t, ram, head, path, bufs) {
      PathIsWalked(t, ram, path, bufs, |t|, 0);
    }
  }

  // --- Popping --------------------------------------------------------------

  /** `Idle` leaves the queue where it is; `Malformed` skips the ring entry. */
  datatype Pop = Idle | Malformed | Got(chain: Chain)

  function RingSlot(q: Queue, i: u16): (a: nat)
    requires q.size != 0
    ensures q.avail + 4 <= a <= q.avail + 2 + 2 * q.size
  {
    q.avail + 4 + i % q.size * 2
  }

  function PopOf(m: Image, q: Queue): Pop {
    if !Live(q) then Idle
    else
      var idx, head := GetU16(m, q.avail + 2), GetU16(m, RingSlot(q, q.lastAvail));
      if idx.None? || idx.value == q.lastAvail || head.None? then Idle
      else
        match Walk(TableOf(m, q.desc, q.size), |m|, head.value, q.size, 0)
        case None => Malformed
        case Some(bufs) => Got(Chain(head.value, bufs))
  }

  function AfterPop(q: Queue, r: Pop): Queue {
    if r.Idle? then q else q.(lastAvail := Next(q.lastAvail))
  }

  /** Entries the driver has made available and the device has not yet taken. */
  function Pending(m: Image, q: Queue): nat {
    match GetU16(m, q.avail + 2)
    case None => 0
    case Some(idx) => (idx - q.lastAvail) % 0x1_0000
  }

  class VirtQueue {
    const size: u16
    var pfn: u32
    var desc: u64
    var avail: u64
    var used: u64
    var enabled: bool
    var lastAvail: u16

    ghost function Spec(): Queue
      reads this
    {
      Queue(size, pfn, desc, avail, used, enabled, lastAvail)
    }

    constructor (size: u16)
      ensures Spec() == FreshQueue(size)
    {
      this.size := size;
      pfn, desc, avail, used, enabled, lastAvail := 0, 0, 0, 0, false, 0;
    }

    method SetPfn(pfn: u32)
      modifies this
      ensures Spec() == WithPfn(old(Spec()), pfn)
    {
      this.pfn := pfn;
      if pfn == 0 {
        enabled := false;
        return;
      }
      desc := pfn * 4096;
      avail := desc + DESC_SIZE * size;
      var availSize := 4 + 2 * size + 2;
      used := (avail + availSize + QUEUE_ALIGN - 1) / QUEUE_ALIGN * QUEUE_ALIGN;
      enabled := true;
    }

    /** Returns the chain and whether one was popped; a malformed chain is
        reported like an empty queue but its ring entry is consumed. */
    method TryPop(mem: GuestMemory) returns (chain: Chain, ok: bool)
      requires mem.Valid() && Headroom(Spec())
      modifies this
      ensures Spec() == AfterPop(old(Spec()), PopOf(mem.Image(), old(Spec())))
      ensures ok <==> PopOf(mem.Image(), old(Spec())).Got?
      ensures ok ==> PopOf(mem.Image(), old(Spec())) == Got(chain)
    {
      chain, ok := Chain(0, []), false;
      if !(enabled && size != 0) {
        return;
      }
      var availIdx := mem.ReadU16Checked(avail + 2);
      if availIdx.None? || lastAvail == availIdx.value {
        return;
      }
      ghost var slot := RingSlot(Spec(), lastAvail);
      var head := mem.ReadU16Checked(avail + 4 + lastAvail % size * 2);
      if head.None? {
        return;
      }
      lastAvail := (lastAvail + 1) % 0x1_0000;
      chain, ok := WalkTable(mem, head.value);
    }

    method ReadDesc(mem: GuestMemory, i: u16) returns (d: Option<Desc>)
      requires mem.Valid() && Live(Spec()) && Headroom(Spec())
      ensures d == if i >= size then None else DescAt(mem.Image(), desc + DESC_SIZE * i)
    {
      if i >= size {
        return None;
      }
      var bytes := mem.ReadChecked(desc + i * DESC_SIZE, DESC_SIZE);
      d := if bytes.Some? then Some(ParseDesc(bytes.value)) else None;
    }

    /** The loop of the pop: bounded by the queue size, so a descriptor cycle ends. */
    method WalkTable(mem: GuestMemory, head: u16) returns (chain: Chain, ok: bool)
      requires mem.Valid() && Live(Spec()) && Headroom(Spec())
      ensures chain.head == head
      ensures Walk(TableOf(mem.Image(), desc, size), mem.cells.Length, head, size, 0) == if ok then Some(chain.bufs) else None
    {
      ghost var t := TableOf(mem.Image(), desc, size);
      chain, ok := Chain(head, []), false;
      var budget := mem.cells.Length;
      var total: nat, idx: u16 := 0, head;
      var i := 0;
      PrependNothing(Walk(t, budget, head, size, 0));
      while i < size
        invariant i <= size && chain.head == head && total <= budget
        invariant Walk(t, budget, head, size, 0) == Prepend(chain.bufs, Walk(t, budget, idx, size - i, total))
      {
        var next := ReadDesc(mem, idx);
        if next.None? {
          return;
        }
        var d := next.value;
        var inRam := mem.InBounds(d.addr, d.len);
        if !inRam {
          return;
        }
        total := total + d.len;
        if total > budget {
          return;
        }
        if !d.HasNext() {
          return Chain(head, chain.bufs + [d.Buffer()]), true;
        }
        PrependTwice(chain.bufs, d.Buffer(), Walk(t, budget, d.next, size - i - 1, total));
        chain := chain.(bufs := chain.bufs + [d.Buffer()]);
        idx := d.next;
        i := i + 1;
      }
      assert chain.bufs + [] == chain.bufs;
      ok := true;
    }
  }

  lemma PrependNothing(rest: Option<seq<Buf>>)
    ensures Prepend([], rest) == rest
  {
    assert rest.Some? ==> [] + rest.value == rest.value;
  }

  lemma PrependTwice(bufs: seq<Buf>, b: Buf, rest: Option<seq<Buf>>)
    ensures Prepend(bufs, Prepend([b], rest)) == Prepend(bufs + [b], rest)
  {
    if rest.Some? {
      assert bufs + ([b] + rest.value) == bufs + [b] + rest.value;
    }
  }

  /** The legacy layout (section 2.6.2 of Virtio 1.1): page frame 0 disables the queue. */
  function WithPfn(q: Queue, pfn: u32): Queue {
    if pfn == 0 then q.(pfn := 0, enabled := false)
    else
      var desc: u64 := pfn * 4096;
      var avail: u64 := desc + DESC_SIZE * q.size;
      var used: u64 := (avail + 6 + 2 * q.size + QUEUE_ALIGN - 1) / QUEUE_ALIGN * QUEUE_ALIGN;
      q.(pfn := pfn, desc := desc, avail := avail, used := used, enabled := true)
  }
}
