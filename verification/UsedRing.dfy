/** The used ring: an index that wraps at 2^16 over slots taken modulo the queue size. */
module UsedRings {
  import opened Bytes
  import opened Memory
  import opened VirtQueues

  datatype Entry = Entry(id: u32, len: u32)

  /** What the driver can read off a used ring. */
  datatype Ring = Ring(idx: u16, slots: seq<Entry>)

  function SlotIndex(idx: u16, size: nat): (s: nat)
    requires size != 0
    ensures s < size
  {
    idx % size
  }

  function Publish(r: Ring, e: Entry): Ring
    requires r.slots != []
  {
    Ring(Next(r.idx), r.slots[SlotIndex(r.idx, |r.slots|) := e])
  }

  function PublishAll(r: Ring, es: seq<Entry>): (r': Ring)
    requires r.slots != []
    ensures |r'.slots| == |r.slots|
  {
    if es == [] then r else Publish(PublishAll(r, es[..|es| - 1]), es[|es| - 1])
  }

  /** The `j`th ring index from `start` on. */
  function Position(start: u16, j: nat): u16 {
    (start + j) % 0x1_0000
  }

  lemma NextPosition(start: u16, j: nat)
    ensures Next(Position(start, j)) == Position(start, j + 1)
  {
    NextMod(start + j);
  }

  lemma NextMod(x: nat)
    ensures (x % 0x1_0000 + 1) % 0x1_0000 == (x + 1) % 0x1_0000
  {
    var q, r := x / 0x1_0000, x % 0x1_0000;
    if r + 1 < 0x1_0000 {
      DivMod(x + 1, 0x1_0000, q, r + 1);
      DivMod(r + 1, 0x1_0000, 0, r + 1);
    } else {
      DivMod(x + 1, 0x1_0000, q + 1, 0);
      DivMod(r + 1, 0x1_0000, 1, 0);
    }
  }

  /** `r` is what is left of publishing `es` in order from index `start`: the
      index has advanced by their number, and each of the last `size` of them is
      in the slot a driver counting from `start` looks in. */
  ghost predicate Holds(r: Ring, start: u16, es: seq<Entry>)
    requires r.slots != []
  {
    && r.idx == Position(start, |es|)
    && forall j :: 0 <= j < |es| && |es| - |r.slots| <= j ==>
         r.slots[SlotIndex(Position(start, j), |r.slots|)] == es[j]
  }

  lemma SlotOfWrapped(a: nat, n: nat)
    requires n != 0 && 0x1_0000 % n == 0
    ensures a % 0x1_0000 % n == a % n
  {
    var c, k, b := 0x1_0000 / n, a / 0x1_0000, a % 0x1_0000;
    assert 0x1_0000 == n * c;
    calc {
      a;
      0x1_0000 * k + b;
      n * (c * k) + b;
    }
    ModPlus(c * k, b, n);
  }

  lemma ModPlus(k: nat, b: nat, n: nat)
    requires n != 0
    ensures (n * k + b) % n == b % n
  {
    var q, r := b / n, b % n;
    assert n * k + b == n * (k + q) + r;
    DivMod(n * k + b, n, k + q, r);
  }

  lemma SlotsDiffer(a: nat, b: nat, n: nat)
    requires n != 0 && a < b < a + n
    ensures a % n != b % n
  {
    var k := b / n - a / n;
    assert b - a == n * k + (b % n - a % n);
    assert k >= 1 ==> n * k >= n;
    assert k <= 0 ==> n * k <= 0;
  }

  /** Within one turn of a ring whose size divides 2^16, positions have their own slots. */
  lemma SlotsApart(start: u16, j: nat, k: nat, n: nat)
    requires n != 0 && 0x1_0000 % n == 0 && j < k < j + n
    ensures SlotIndex(Position(start, j), n) != SlotIndex(Position(start, k), n)
  {
    SlotOfWrapped(start + j, n);
    SlotOfWrapped(start + k, n);
    SlotsDiffer(start + j, start + k, n);
  }

  lemma HoldsOneMore(r: Ring, start: u16, es: seq<Entry>, e: Entry)
    requires r.slots != [] && 0x1_0000 % |r.slots| == 0 && Holds(r, start, es)
    ensures Holds(Publish(r, e), start, es + [e])
  {
    hide SlotIndex, Position, Next;
    NextPosition(start, |es|);
    var n, k, r', es' := |r.slots|, |es|, Publish(r, e), es + [e];
    forall j | 0 <= j < |es'| && |es'| - n <= j
      ensures r'.slots[SlotIndex(Position(start, j), n)] == es'[j]
    {
      if j < k {
        SlotsApart(start, j, k, n);
      }
    }
  }

  /** Any number of publications, from any index, on a ring whose size divides 2^16. */
  lemma {:induction false} PublishedInOrder(r: Ring, es: seq<Entry>)
    requires r.slots != [] && 0x1_0000 % |r.slots| == 0
    ensures Holds(PublishAll(r, es), r.idx, es)
  {
    if es != [] {
      var k := |es| - 1;
      PublishedInOrder(r, es[..k]);
      HoldsOneMore(PublishAll(r, es[..k]), r.idx, es[..k], es[k]);
      assert es[..k] + [es[k]] == es;
    }
  }

  /** Across the index wrap, two live positions share slot 0 unless `n` divides 2^16. */
  lemma WrapCollision(n: nat)
    requires 0 < n < 0x1_0000 && 0x1_0000 % n != 0
    ensures var j := n - 0x1_0000 % n;
            1 <= j < n && SlotIndex(Position(0x1_0000 - n, j), n) == 0
  {
    var rem := 0x1_0000 % n;
    assert 0x1_0000 - rem == n * (0x1_0000 / n) + 0;
    DivMod(0x1_0000 - rem, n, 0x1_0000 / n, 0);
    DivMod(0x1_0000 - rem, 0x1_0000, 0, 0x1_0000 - rem);
  }

  lemma WrapOverwrites(n: nat, r: Ring)
    requires 0 < n < 0x1_0000 && 0x1_0000 % n != 0 && |r.slots| == n
    ensures !Holds(r, 0x1_0000 - n, seq(n + 1, i requires 0 <= i <= n => Entry(i, 0)))
  {
    WrapCollision(n);
    var es := seq(n + 1, i requires 0 <= i <= n => Entry(i, 0));
    var start, j := 0x1_0000 - n, n - 0x1_0000 % n;
    assert es[j] != es[n] && |es| == n + 1;
    assert SlotIndex(Position(start, n), n) == 0;
  }

  /** The divisibility is exactly what that needs: on a ring of any other size
      some run of publications across the index wrap overwrites an entry the
      driver still expects. */
  lemma RingOrderExactly(n: nat)
    requires 0 < n < 0x1_0000
    ensures 0x1_0000 % n == 0 <==>
            forall r: Ring, es: seq<Entry> :: |r.slots| == n ==> Holds(PublishAll(r, es), r.idx, es)
  {
    if 0x1_0000 % n == 0 {
      forall r: Ring, es: seq<Entry> | |r.slots| == n
        ensures Holds(PublishAll(r, es), r.idx, es)
      {
        PublishedInOrder(r, es);
      }
    } else {
      var r := Ring(0x1_0000 - n, seq(n, _ => Entry(0, 0)));
      var es := seq(n + 1, i requires 0 <= i <= n => Entry(i, 0));
      WrapOverwrites(n, PublishAll(r, es));
      assert !Holds(PublishAll(r, es), r.idx, es);
    }
  }

  // --- The ring in guest memory ----------------------------------------------

  function EntryAt(m: Image, a: nat): Entry
    requires a + 8 <= |m|
  {
    Entry(GetU32(m, a).value, GetU32(m, a + 4).value)
  }

  /** One past the last byte of the used ring that the device touches. */
  function UsedEnd(q: Queue): nat {
    q.used + 4 + 8 * q.size
  }

  function RingOf(m: Image, q: Queue): (r: Ring)
    requires UsedEnd(q) <= |m|
    ensures |r.slots| == q.size
  {
    Ring(GetU16(m, q.used + 2).value,
         seq(q.size, i requires 0 <= i < q.size => EntryAt(m, q.used + 4 + 8 * i)))
  }

  /** The image after the three stores of a push into slot `s`. */
  function Pushed(m: Image, used: nat, s: nat, idx: u16, head: u16, len: u32): Image {
    var slot := used + 4 + s * 8;
    Put(Put(Put(m, slot, Le4(head)), slot + 4, Le4(len)), used + 2, Le2(Next(idx)))
  }

  /** The ring index as the device reads it; an unreadable one counts as 0. */
  function UsedIdx(m: Image, used: nat): u16 {
    match GetU16(m, used + 2) case Some(i) => i case None => 0
  }

  function PushUsed(m: Image, q: Queue, head: u16, len: u32): Image {
    if !Live(q) then m
    else Pushed(m, q.used, SlotIndex(UsedIdx(m, q.used), q.size), UsedIdx(m, q.used), head, len)
  }

  lemma PutEntry(m: Image, a: nat, id: u32, len: u32)
    requires a + 8 <= |m|
    ensures EntryAt(Put(Put(m, a, Le4(id)), a + 4, Le4(len)), a) == Entry(id, len)
  {
    var m1 := Put(m, a, Le4(id));
    PutHere(m, a, Le4(id));
    PutElsewhere(m1, a + 4, Le4(len), a, 4);
    PutHere(m1, a + 4, Le4(len));
    Le4RoundTrip(id);
    Le4RoundTrip(len);
  }

  lemma EntryElsewhere(m: Image, m': Image, a: nat)
    requires Agree(m, m', a, a + 8) && a + 8 <= |m|
    ensures EntryAt(m', a) == EntryAt(m, a)
  {
    AgreeSlice(m, m', a, a + 8, a, 4);
    AgreeSlice(m, m', a, a + 8, a + 4, 4);
  }

  lemma PutThrice(m: Image, a: nat, x: seq<u8>, b: nat, y: seq<u8>, c: nat, z: seq<u8>, lo: nat, hi: nat)
    requires hi <= a || a + |x| <= lo
    requires hi <= b || b + |y| <= lo
    requires hi <= c || c + |z| <= lo
    ensures Agree(m, Put(Put(Put(m, a, x), b, y), c, z), lo, hi)
  {
    PutAgree(m, a, x, lo, hi);
    PutAgree(Put(m, a, x), b, y, lo, hi);
    PutAgree(Put(Put(m, a, x), b, y), c, z, lo, hi);
  }

  lemma PushedElsewhere(m: Image, used: nat, s: nat, idx: u16, head: u16, len: u32, lo: nat, hi: nat)
    requires hi <= used + 4 + s * 8 || used + 12 + s * 8 <= lo
    requires hi <= used + 2 || used + 4 <= lo
    ensures Agree(m, Pushed(m, used, s, idx, head, len), lo, hi)
  {
    hide Put, Le2, Le4;
    var slot := used + 4 + s * 8;
    PutThrice(m, slot, Le4(head), slot + 4, Le4(len), used + 2, Le2(Next(idx)), lo, hi);
  }

  lemma PushedIndex(m: Image, used: nat, s: nat, idx: u16, head: u16, len: u32)
    requires used + 4 <= |m|
    ensures |Pushed(m, used, s, idx, head, len)| == |m|
    ensures GetU16(Pushed(m, used, s, idx, head, len), used + 2) == Some(Next(idx))
  {
    var slot := used + 4 + s * 8;
    var m2 := Put(Put(m, slot, Le4(head)), slot + 4, Le4(len));
    hide Put, Le2, Le4;
    PutHere(m2, used + 2, Le2(Next(idx)));
    Le2RoundTrip(Next(idx));
  }

  lemma PushedEntry(m: Image, used: nat, s: nat, idx: u16, head: u16, len: u32)
    requires used + 12 + s * 8 <= |m|
    ensures EntryAt(Pushed(m, used, s, idx, head, len), used + 4 + s * 8) == Entry(head, len)
  {
    hide Put, Le2, Le4, EntryAt;
    var slot := used + 4 + s * 8;
    var m2 := Put(Put(m, slot, Le4(head)), slot + 4, Le4(len));
    PutEntry(m, slot, head, len);
    PutAgree(m2, used + 2, Le2(Next(idx)), slot, slot + 8);
    EntryElsewhere(m2, Put(m2, used + 2, Le2(Next(idx))), slot);
  }

  lemma SlotAt(m: Image, q: Queue, i: nat)
    requires UsedEnd(q) <= |m| && i < q.size
    ensures RingOf(m, q).slots[i] == EntryAt(m, q.used + 4 + 8 * i)
  {}

  lemma PushedSlots(m: Image, q: Queue, s: nat, idx: u16, head: u16, len: u32, i: nat)
    requires UsedEnd(q) <= |m| && s < q.size && i < q.size
    ensures |Pushed(m, q.used, s, idx, head, len)| == |m|
    ensures RingOf(Pushed(m, q.used, s, idx, head, len), q).slots[i] ==
            RingOf(m, q).slots[s := Entry(head, len)][i]
  {
    hide Put, Le2, Le4, EntryAt;
    var m' := Pushed(m, q.used, s, idx, head, len);
    SlotAt(m, q, i);
    SlotAt(m', q, i);
    if i == s {
      PushedEntry(m, q.used, s, idx, head, len);
    } else {
      PushedElsewhere(m, q.used, s, idx, head, len, q.used + 4 + 8 * i, q.used + 12 + 8 * i);
      EntryElsewhere(m, m', q.used + 4 + 8 * i);
    }
  }

  /** The three stores of one push are one publication, and touch nothing but the ring. */
  lemma PushPublishes(m: Image, q: Queue, head: u16, len: u32)
    requires Live(q) && UsedEnd(q) <= |m|
    ensures |PushUsed(m, q, head, len)| == |m|
    ensures RingOf(PushUsed(m, q, head, len), q) == Publish(RingOf(m, q), Entry(head, len))
    ensures Agree(m, PushUsed(m, q, head, len), 0, q.used)
    ensures Agree(m, PushUsed(m, q, head, len), UsedEnd(q), |m|)
  {
    hide Pushed, EntryAt, SlotIndex;
    var r := RingOf(m, q);
    var s := SlotIndex(r.idx, q.size);
    var m' := Pushed(m, q.used, s, r.idx, head, len);
    assert PushUsed(m, q, head, len) == m';
    PushedIndex(m, q.used, s, r.idx, head, len);
    PushedElsewhere(m, q.used, s, r.idx, head, len, 0, q.used);
    PushedElsewhere(m, q.used, s, r.idx, head, len, UsedEnd(q), |m|);
    var slots, slots' := r.slots[s := Entry(head, len)], RingOf(m', q).slots;
    forall i | 0 <= i < q.size
      ensures slots'[i] == slots[i]
    {
      PushedSlots(m, q, s, r.idx, head, len, i);
    }
    assert slots' == slots;
  }

  /** The same in bytes: the ring entry is the index modulo the size, eight bytes each from
      the fourth on, head and length; the index is two bytes in. Nothing else changes. */
  lemma PushBytes(m: Image, q: Queue, head: u16, len: u32)
    requires Live(q) && UsedEnd(q) <= |m|
    ensures var m', idx := PushUsed(m, q, head, len), Value(m[q.used + 2..q.used + 4]);
            var slot := q.used + 4 + 8 * (idx % q.size);
            && |m'| == |m| && slot + 8 <= UsedEnd(q)
            && m'[slot..slot + 8] == Le4(head) + Le4(len)
            && m'[q.used + 2..q.used + 4] == Le2((idx + 1) % 0x1_0000)
            && Agree(m, m', 0, q.used + 2) && Agree(m, m', q.used + 4, slot) && Agree(m, m', slot + 8, |m|)
  {
    hide Put, Le4, Le2;
    var idx := UsedIdx(m, q.used);
    LittleEndian2(0, m[q.used + 2..q.used + 4]);
    var s := idx % q.size;
    assert SlotIndex(idx, q.size) == s && s < q.size;
    PushedStores(m, q.used, s, idx, head, len);
  }

  lemma PushedStores(m: Image, used: nat, s: nat, idx: u16, head: u16, len: u32)
    requires used + 12 + 8 * s <= |m|
    ensures var m', slot := Pushed(m, used, s, idx, head, len), used + 4 + 8 * s;
            && |m'| == |m| && m'[slot..slot + 8] == Le4(head) + Le4(len)
            && m'[used + 2..used + 4] == Le2((idx + 1) % 0x1_0000)
            && Agree(m, m', 0, used + 2) && Agree(m, m', used + 4, slot) && Agree(m, m', slot + 8, |m|)
  {
    hide Put, Le4, Le2;
    var slot := used + 4 + s * 8;
    var m1 := Put(m, slot, Le4(head));
    var m2 := Put(m1, slot + 4, Le4(len));
    var m' := Put(m2, used + 2, Le2(Next(idx)));
    PutHere(m, slot, Le4(head));
    PutElsewhere(m1, slot + 4, Le4(len), slot, 4);
    PutHere(m1, slot + 4, Le4(len));
    assert m2[slot..slot + 8] == m2[slot..slot + 4] + m2[slot + 4..slot + 8];
    PutElsewhere(m2, used + 2, Le2(Next(idx)), slot, 8);
    PutHere(m2, used + 2, Le2(Next(idx)));
    PushedElsewhere(m, used, s, idx, head, len, 0, used + 2);
    PushedElsewhere(m, used, s, idx, head, len, used + 4, slot);
    PushedElsewhere(m, used, s, idx, head, len, slot + 8, |m|);
  }

  // --- Publications interleaved with other writes --------------------------

  datatype Write = Write(addr: u64, data: seq<u8>)

  /** What happens to guest memory while a queue is served: a completion goes on
      the used ring, or a device stores bytes. */
  datatype Event = Complete(head: u16, len: u32) | Store(w: Write)

  function Effect(m: Image, q: Queue, e: Event): Image {
    match e
    case Complete(head, len) => PushUsed(m, q, head, len)
    case Store(w) => Put(m, w.addr, w.data)
  }

  function Play(m: Image, q: Queue, events: seq<Event>): Image
    decreases |events|
  {
    if events == [] then m else Play(Effect(m, q, events[0]), q, events[1..])
  }

  function Completions(events: seq<Event>): seq<Entry> {
    if events == [] then []
    else (if events[0].Complete? then [Entry(events[0].head, events[0].len)] else []) + Completions(events[1..])
  }

  ghost predicate Avoids(e: Event, lo: nat, hi: nat) {
    e.Store? ==> e.w.data == [] || e.w.addr + |e.w.data| <= lo || hi <= e.w.addr
  }

  ghost predicate AllAvoid(events: seq<Event>, lo: nat, hi: nat) {
    forall e :: e in events ==> Avoids(e, lo, hi)
  }

  lemma PublishNone(r: Ring)
    requires r.slots != []
    ensures PublishAll(r, []) == r
  {}

  lemma {:induction false} PublishAllFromFront(r: Ring, e: Entry, es: seq<Entry>)
    requires r.slots != []
    ensures PublishAll(r, [e] + es) == PublishAll(Publish(r, e), es)
  {
    var all := [e] + es;
    if es == [] {
      assert all[..0] == [];
    } else {
      assert all[..|all| - 1] == [e] + es[..|es| - 1];
      PublishAllFromFront(r, e, es[..|es| - 1]);
    }
  }

  lemma StoreKeepsRing(m: Image, q: Queue, w: Write)
    requires UsedEnd(q) <= |m| && Avoids(Store(w), q.used, UsedEnd(q))
    ensures RingOf(Put(m, w.addr, w.data), q) == RingOf(m, q)
  {
    var m' := Put(m, w.addr, w.data);
    PutAgree(m, w.addr, w.data, q.used, UsedEnd(q));
    AgreeSlice(m, m', q.used, UsedEnd(q), q.used + 2, 2);
    hide EntryAt, Put;
    forall i | 0 <= i < q.size
      ensures RingOf(m', q).slots[i] == RingOf(m, q).slots[i]
    {
      SlotAt(m, q, i);
      SlotAt(m', q, i);
      EntryElsewhere(m, m', q.used + 4 + 8 * i);
    }
    assert RingOf(m', q).slots == RingOf(m, q).slots;
  }

  lemma {:induction false} PlayPublishes(m: Image, q: Queue, events: seq<Event>)
    requires Live(q) && UsedEnd(q) <= |m| && AllAvoid(events, q.used, UsedEnd(q))
    ensures |Play(m, q, events)| == |m|
    ensures RingOf(Play(m, q, events), q) == PublishAll(RingOf(m, q), Completions(events))
    decreases |events|
  {
    hide RingOf, PushUsed, Put, PublishAll;
    if events == [] {
      assert PublishAll(RingOf(m, q), []) == RingOf(m, q) by { PublishNone(RingOf(m, q)); }
    } else {
      var e := events[0];
      var m' := Effect(m, q, e);
      if e.Complete? {
        PushPublishes(m, q, e.head, e.len);
        PublishAllFromFront(RingOf(m, q), Entry(e.head, e.len), Completions(events[1..]));
      } else {
        assert Completions(events) == Completions(events[1..]);
        StoreKeepsRing(m, q, e.w);
      }
      PlayPublishes(m', q, events[1..]);
    }
  }

  /** For any interleaving of completions and stores outside the ring, the driver
      finds the last completions in publication order. */
  lemma UsedRingHistory(m: Image, q: Queue, events: seq<Event>)
    requires Live(q) && UsedEnd(q) <= |m| && AllAvoid(events, q.used, UsedEnd(q))
    requires 0x1_0000 % q.size == 0
    ensures |Play(m, q, events)| == |m|
    ensures Holds(RingOf(Play(m, q, events), q), RingOf(m, q).idx, Completions(events))
  {
    PlayPublishes(m, q, events);
    PublishedInOrder(RingOf(m, q), Completions(events));
  }
}
