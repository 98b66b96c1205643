/** The driver's side of a virtqueue (sections 2.6.5 and 2.6.6 of Virtio 1.1), byte by
    byte: what it posts is what the device pops. */
module Postings {
  import opened Bytes
  import opened Memory
  import Seqs
  import opened VirtQueues

  /** The bytes at `a` are `bytes`. */
  ghost predicate HoldsAt(m: Image, a: nat, bytes: seq<u8>) {
    a + |bytes| <= |m| && m[a..a + |bytes|] == bytes
  }

  /** A descriptor for `b` at `a`: address, length, flags (1 if another follows, 2 if the
      device may write) and, if another follows, its index. */
  ghost predicate Describes(m: Image, a: nat, b: Buf, next: Option<u16>) {
    && a + 16 <= |m|
    && HoldsAt(m, a, Le8(b.addr)) && HoldsAt(m, a + 8, Le4(b.len))
    && HoldsAt(m, a + 12, Le2((if next.Some? then 1 else 0) + if b.writable then 2 else 0))
    && (next.Some? ==> HoldsAt(m, a + 14, Le2(next.value)))
  }

  /** The entry after `i`, if there is one. */
  function Following(path: seq<u16>, i: nat): Option<u16> {
    if i + 1 < |path| then Some(path[i + 1]) else None
  }

  /** A chain of buffers described at the table entries `path`, each naming the next. */
  ghost predicate ChainPosted(m: Image, desc: nat, size: nat, path: seq<u16>, bufs: seq<Buf>) {
    && 1 <= |path| == |bufs| <= size
    && forall i :: 0 <= i < |path| ==>
         path[i] < size && Describes(m, desc + 16 * (path[i] as int), bufs[i], Following(path, i))
  }

  /** The driver's index is `idx`, and the entry the device comes to next holds `head`. */
  ghost predicate RingPosted(m: Image, q: Queue, idx: u16, head: u16)
    requires q.size != 0
  {
    HoldsAt(m, q.avail + 2, Le2(idx)) && HoldsAt(m, q.avail + 4 + 2 * (q.lastAvail % q.size), Le2(head))
  }

  lemma ParsePosted(m: Image, a: nat, b: Buf, next: Option<u16>)
    requires Describes(m, a, b, next)
    ensures var d := DescAt(m, a);
            && d.Some? && d.value.Buffer() == b && (d.value.HasNext() <==> next.Some?)
            && (next.Some? ==> d.value.next == next.value)
  {
    hide Le2, Le4, Le8, FromLe2, FromLe4, FromLe8;
    var bs := m[a..a + 16];
    DescSlices(m, a);
    Le8RoundTrip(b.addr);
    Le4RoundTrip(b.len);
    Le2RoundTrip((if next.Some? then 1 else 0) + if b.writable then 2 else 0);
    if next.Some? {
      Le2RoundTrip(next.value);
    }
  }

  lemma DescSlices(m: Image, a: nat)
    requires a + 16 <= |m|
    ensures var bs := m[a..a + 16];
            && bs[0..8] == m[a..a + 8] && bs[8..12] == m[a + 8..a + 12]
            && bs[12..14] == m[a + 12..a + 14] && bs[14..16] == m[a + 14..a + 16]
  {
    Seqs.SubSlice(m, a, 16, 0, 8);
    Seqs.SubSlice(m, a, 16, 8, 12);
    Seqs.SubSlice(m, a, 16, 12, 14);
    Seqs.SubSlice(m, a, 16, 14, 16);
  }

  /** Entry `i` of a posted chain, as the device reads it. */
  lemma PostedEntry(m: Image, desc: nat, size: nat, path: seq<u16>, bufs: seq<Buf>, i: nat)
    requires ChainPosted(m, desc, size, path, bufs) && i < |path|
    ensures |path| == |bufs| <= size && path[i] < size && |TableOf(m, desc, size)| == size
    ensures var d := TableOf(m, desc, size)[path[i]];
            && d.Some? && d.value.Buffer() == bufs[i] && (d.value.HasNext() <==> i + 1 < |path|)
            && (i + 1 < |path| ==> d.value.next == path[i + 1])
  {
    hide DescAt, Describes;
    assert Describes(m, desc + 16 * (path[i] as int), bufs[i], Following(path, i));
    ParsePosted(m, desc + 16 * (path[i] as int), bufs[i], Following(path, i));
    assert TableOf(m, desc, size)[path[i]] == DescAt(m, desc + DESC_SIZE * path[i]);
  }

  lemma PostedIsPath(m: Image, desc: nat, size: nat, path: seq<u16>, bufs: seq<Buf>)
    requires ChainPosted(m, desc, size, path, bufs)
    requires forall b :: b in bufs ==> b.addr + b.len <= |m|
    ensures IsPath(TableOf(m, desc, size), |m|, path, bufs, size)
  {
    hide TableOf, ChainPosted;
    PostedNonEmpty(m, desc, size, path, bufs);
    forall i | 0 <= i < |path|
      ensures GoodDesc(TableOf(m, desc, size), |m|, path[i]) && bufs[i] == TableOf(m, desc, size)[path[i]].value.Buffer()
      ensures i < |path| - 1 <==> TableOf(m, desc, size)[path[i]].value.HasNext()
      ensures i < |path| - 1 ==> path[i + 1] == TableOf(m, desc, size)[path[i]].value.next
    {
      PostedEntry(m, desc, size, path, bufs, i);
      assert bufs[i] in bufs;
    }
  }

  lemma RingRead(m: Image, q: Queue, idx: u16, head: u16)
    requires q.size != 0 && RingPosted(m, q, idx, head)
    ensures GetU16(m, q.avail + 2) == Some(idx) && GetU16(m, RingSlot(q, q.lastAvail)) == Some(head)
  {
    hide Le2, FromLe2;
    Le2RoundTrip(idx);
    Le2RoundTrip(head);
    assert RingSlot(q, q.lastAvail) == q.avail + 4 + 2 * (q.lastAvail % q.size);
  }

  /** A posted chain that is all in RAM is popped, exactly as posted, and its ring entry
      is used up. */
  lemma PopsWhatWasPosted(m: Image, q: Queue, idx: u16, path: seq<u16>, bufs: seq<Buf>)
    requires Live(q) && ChainPosted(m, q.desc, q.size, path, bufs)
    requires RingPosted(m, q, idx, path[0]) && idx != q.lastAvail
    requires (forall b :: b in bufs ==> b.addr + b.len <= |m|) && TotalLen(bufs) <= |m|
    ensures PopOf(m, q) == Got(Chain(path[0], bufs))
    ensures AfterPop(q, PopOf(m, q)) == q.(lastAvail := (q.lastAvail + 1) % 0x1_0000)
  {
    hide IsPath, ChainPosted, RingPosted, TableOf, Walk, GetU16, RingSlot, TotalLen;
    PostedIsPath(m, q.desc, q.size, path, bufs);
    assert |path| > 0 by { PostedNonEmpty(m, q.desc, q.size, path, bufs); }
    PathIsWalked(TableOf(m, q.desc, q.size), |m|, path, bufs, q.size, 0);
    RingRead(m, q, idx, path[0]);
  }

  lemma PostedNonEmpty(m: Image, desc: nat, size: nat, path: seq<u16>, bufs: seq<Buf>)
    requires ChainPosted(m, desc, size, path, bufs)
    ensures 0 < |path| == |bufs| <= size
  {}

  /** The first chain of a queue not yet read from. */
  lemma PopsFirst(m: Image, q: Queue, idx: u16, path: seq<u16>, bufs: seq<Buf>)
    requires Live(q) && q.lastAvail == 0 && ChainPosted(m, q.desc, q.size, path, bufs)
    requires HoldsAt(m, q.avail + 2, Le2(idx)) && HoldsAt(m, q.avail + 4, Le2(path[0])) && idx != 0
    requires (forall b :: b in bufs ==> b.addr + b.len <= |m|) && TotalLen(bufs) <= |m|
    ensures PopOf(m, q) == Got(Chain(path[0], bufs))
  {
    hide ChainPosted, HoldsAt, PopOf, TotalLen, Le2, AfterPop;
    DivMod(0, q.size, 0, 0);
    PopsWhatWasPosted(m, q, idx, path, bufs);
  }

  /** Any entry the driver made available is used up, also one that heads no well-formed
      chain; without one the queue stays where it is. */
  lemma EntryUsedUp(m: Image, q: Queue, idx: u16, head: u16)
    requires Live(q) && RingPosted(m, q, idx, head)
    ensures AfterPop(q, PopOf(m, q)) ==
            if idx == q.lastAvail then q else q.(lastAvail := (q.lastAvail + 1) % 0x1_0000)
    ensures idx != q.lastAvail ==>
              forall bufs :: PopOf(m, q) == Got(Chain(head, bufs)) <==>
                             exists path :: IsChain(TableOf(m, q.desc, q.size), |m|, head, path, bufs)
    ensures idx == q.lastAvail ==> PopOf(m, q) == Idle
  {
    hide RingPosted, TableOf, Walk, GetU16, RingSlot, IsChain;
    RingRead(m, q, idx, head);
    var t := TableOf(m, q.desc, q.size);
    assert |t| == q.size by { TableSize(m, q.desc, q.size); }
    if idx != q.lastAvail {
      forall bufs
        ensures PopOf(m, q) == Got(Chain(head, bufs)) <==> exists path :: IsChain(t, |m|, head, path, bufs)
      {
        WalkAcceptsExactlyChains(t, |m|, head, bufs);
      }
    }
  }

  lemma TableSize(m: Image, desc: nat, size: nat)
    ensures |TableOf(m, desc, size)| == size
  {}
}
