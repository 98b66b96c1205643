/** The recording format: a header and a run of self-delimiting events. */
module Recordings {
  import opened Bytes
  import opened Streams
  import Seqs

  const MAGIC: seq<u8> := [0x48, 0x42, 0x52, 0x52] // "HBRR"
  const FORMAT_VERSION: u32 := 2

  datatype Kind = KeyboardRx | NetRx | RngBytes

  function ToByte(k: Kind): u8 {
    match k
    case KeyboardRx => 1
    case NetRx => 2
    case RngBytes => 3
  }

  function FromByte(b: u8): Option<Kind> {
    if b == 1 then Some(KeyboardRx) else if b == 2 then Some(NetRx) else if b == 3 then Some(RngBytes) else None
  }

  datatype Event = Event(branchCount: u64, elapsedMs: u64, kind: Kind, data: seq<u8>)

  datatype Header = Header(memSize: u64, precise: bool)

  const HEADER_LEN := 17
  const EVENT_HEAD_LEN := 21

  function EncodeHeader(h: Header): (bs: seq<u8>)
    ensures |bs| == HEADER_LEN
  {
    MAGIC + Le4(FORMAT_VERSION) + Le8(h.memSize) + [if h.precise then 1 else 0]
  }

  /** The length field is the payload length truncated to 32 bits. */
  function EncodeEvent(e: Event): (bs: seq<u8>)
    ensures |bs| == EVENT_HEAD_LEN + |e.data|
  {
    [ToByte(e.kind)] + Le8(e.branchCount) + Le8(e.elapsedMs) + Le4(|e.data| % 0x1_0000_0000) + e.data
  }

  function EncodeEvents(es: seq<Event>): seq<u8> {
    if es == [] then [] else EncodeEvent(es[0]) + EncodeEvents(es[1..])
  }

  function EncodeAll(h: Header, es: seq<Event>): seq<u8> {
    EncodeHeader(h) + EncodeEvents(es)
  }

  function DecodeHeader(bs: seq<u8>): Result<Header> {
    if |bs| < HEADER_LEN || bs[..4] != MAGIC || FromLe4(bs[4..8]) != FORMAT_VERSION then Err
    else Ok(Header(FromLe8(bs[8..16]), bs[16] != 0))
  }

  function DecodeEvent(bs: seq<u8>): (r: Result<(Event, seq<u8>)>)
    ensures r.Ok? ==> |r.value.1| < |bs|
  {
    if |bs| < EVENT_HEAD_LEN || FromByte(bs[0]).None? then Err
    else
      var end := EVENT_HEAD_LEN + FromLe4(bs[17..21]);
      if |bs| < end then Err
      else Ok((Event(FromLe8(bs[1..9]), FromLe8(bs[9..17]), FromByte(bs[0]).value, bs[21..end]), bs[end..]))
  }

  function DecodeEvents(bs: seq<u8>): Result<seq<Event>>
    decreases |bs|
  {
    if bs == [] then Ok([])
    else
      match DecodeEvent(bs)
      case Err => Err
      case Ok((e, rest)) => Onto([e], DecodeEvents(rest))
  }

  function Onto(done: seq<Event>, rest: Result<seq<Event>>): Result<seq<Event>> {
    if rest.Err? then Err else Ok(done + rest.value)
  }

  lemma OntoNothing(rest: Result<seq<Event>>)
    ensures Onto([], rest) == rest
  {
    assert rest.Ok? ==> [] + rest.value == rest.value;
  }

  lemma OntoTwice(done: seq<Event>, e: Event, rest: Result<seq<Event>>)
    ensures Onto(done, Onto([e], rest)) == Onto(done + [e], rest)
  {
    assert rest.Ok? ==> done + ([e] + rest.value) == done + [e] + rest.value;
  }

  function DecodeAll(bs: seq<u8>): Result<(Header, seq<Event>)> {
    match DecodeHeader(bs)
    case Err => Err
    case Ok(h) =>
      match DecodeEvents(bs[HEADER_LEN..])
      case Err => Err
      case Ok(es) => Ok((h, es))
  }

  // --- Reading a file ----------------------------------------------------------

  method ReadHeader(r: Reader) returns (h: Result<Header>)
    modifies r
    ensures h == DecodeHeader(old(r.rest))
    ensures h.Ok? ==> r.rest == old(r.rest)[HEADER_LEN..]
  {
    ghost var bs := r.rest;
    var magic := r.ReadExact(4);
    if magic.Err? || magic.value != MAGIC { return Err; }
    var version := r.ReadExact(4);
    if version.Err? { return Err; }
    assert version.value == bs[4..8];
    if FromLe4(version.value) != FORMAT_VERSION { return Err; }
    var memSize := r.ReadExact(8);
    if memSize.Err? { return Err; }
    assert memSize.value == bs[8..16];
    var precise := r.ReadExact(1);
    if precise.Err? { return Err; }
    h := Ok(Header(FromLe8(memSize.value), precise.value[0] != 0));
  }

  /** The rest of an event whose kind byte has been read. */
  method ReadBody(r: Reader, kindByte: u8) returns (e: Result<Event>)
    modifies r
    ensures var d := DecodeEvent([kindByte] + old(r.rest));
            if d.Ok? then e == Ok(d.value.0) && r.rest == d.value.1 else e == Err
  {
    hide FromLe4, FromLe8;
    ghost var tail := r.rest;
    ghost var bs := [kindByte] + tail;
    var kind := FromByte(kindByte);
    if kind.None? { return Err; }
    var branchCount := r.ReadExact(8);
    if branchCount.Err? { return Err; }
    var elapsedMs := r.ReadExact(8);
    if elapsedMs.Err? { return Err; }
    var len := r.ReadExact(4);
    if len.Err? { return Err; }
    EventSlices(kindByte, tail);
    var n: nat := FromLe4(len.value);
    var data := r.ReadExact(n);
    if data.Err? { return Err; }
    PayloadSlices(bs, n);
    e := Ok(Event(FromLe8(branchCount.value), FromLe8(elapsedMs.value), kind.value, data.value));
  }

  /** An event's fields, as slices of what follows its kind byte. */
  lemma EventSlices(kind: u8, tail: seq<u8>)
    requires |tail| >= 20
    ensures var bs := [kind] + tail;
            && tail[..8] == bs[1..9] && tail[8..][..8] == bs[9..17] && tail[8..][8..][..4] == bs[17..21]
            && tail[8..][8..][4..] == bs[21..]
  {
    var bs := [kind] + tail;
    assert tail == bs[1..];
    Seqs.SubSlice(bs, 1, |tail|, 0, 8);
    Seqs.SubSlice(bs, 1, |tail|, 8, 16);
    Seqs.SubSlice(bs, 1, |tail|, 16, 20);
    assert tail[8..][8..] == tail[16..] && tail[16..][4..] == tail[20..];
    assert tail[8..][..8] == tail[8..16] && tail[16..][..4] == tail[16..20];
    assert tail[20..] == bs[21..];
  }

  lemma PayloadSlices(bs: seq<u8>, n: nat)
    requires 21 + n <= |bs|
    ensures bs[21..][..n] == bs[21..21 + n] && bs[21..][n..] == bs[21 + n..]
  {}

  method ReadAll(bytes: seq<u8>) returns (r: Result<(Header, seq<Event>)>)
    ensures r == DecodeAll(bytes)
  {
    var file := new Reader(bytes);
    var header := ReadHeader(file);
    if header.Err? {
      return Err;
    }
    hide DecodeEvent;
    var events := [];
    OntoNothing(DecodeEvents(file.rest));
    while true
      invariant DecodeEvents(bytes[HEADER_LEN..]) == Onto(events, DecodeEvents(file.rest))
      decreases |file.rest|
    {
      ghost var bs := file.rest;
      var kindByte := file.ReadExact(1);
      if kindByte.Err? {
        break;
      }
      assert [kindByte.value[0]] + file.rest == bs;
      var e := ReadBody(file, kindByte.value[0]);
      if e.Err? {
        return Err;
      }
      OntoTwice(events, e.value, DecodeEvents(file.rest));
      events := events + [e.value];
    }
    assert events + [] == events;
    r := Ok((header.value, events));
  }

  // --- Round trip and crash prefixes --------------------------------------------

  lemma EventRoundTrip(e: Event, rest: seq<u8>)
    requires |e.data| < 0x1_0000_0000
    ensures DecodeEvent(EncodeEvent(e) + rest) == Ok((e, rest))
  {
    hide Le8, Le4, FromLe8, FromLe4;
    var bs := EncodeEvent(e) + rest;
    Le8RoundTrip(e.branchCount);
    Le8RoundTrip(e.elapsedMs);
    Le4RoundTrip(|e.data|);
    assert bs[1..9] == Le8(e.branchCount);
    assert bs[9..17] == Le8(e.elapsedMs);
    assert bs[17..21] == Le4(|e.data|);
    assert bs[21..21 + |e.data|] == e.data;
    assert bs[21 + |e.data|..] == rest;
  }

  lemma CutEventRejected(e: Event, n: nat)
    requires |e.data| < 0x1_0000_0000 && 0 < n < |EncodeEvent(e)|
    ensures DecodeEvent(EncodeEvent(e)[..n]) == Err
  {
    hide Le8, Le4, FromLe8, FromLe4;
    if n >= EVENT_HEAD_LEN {
      Le4RoundTrip(|e.data|);
      assert EncodeEvent(e)[..n][17..21] == Le4(|e.data|);
    }
  }

  ghost predicate Sized(es: seq<Event>) {
    forall e :: e in es ==> |e.data| < 0x1_0000_0000
  }

  /** Where the first `k` events end. */
  function Boundary(es: seq<Event>, k: nat): nat
    requires k <= |es|
  {
    |EncodeEvents(es[..k])|
  }

  lemma BoundaryStep(es: seq<Event>, k: nat)
    requires 0 < k <= |es|
    ensures Boundary(es, k) == |EncodeEvent(es[0])| + Boundary(es[1..], k - 1)
  {
    assert es[..k][1..] == es[1..][..k - 1];
  }

  /** A run of events cut anywhere is readable exactly when the cut is between
      events, and then yields exactly those before the cut. */
  lemma {:induction false} CutEvents(es: seq<Event>, n: nat)
    requires Sized(es) && n <= |EncodeEvents(es)|
    ensures DecodeEvents(EncodeEvents(es)[..n]).Ok? <==> exists k :: 0 <= k <= |es| && n == Boundary(es, k)
    ensures forall k :: 0 <= k <= |es| && n == Boundary(es, k) ==>
                          DecodeEvents(EncodeEvents(es)[..n]) == Ok(es[..k])
    decreases |es|
  {
    hide EncodeEvent, DecodeEvent;
    assert Boundary(es, 0) == 0;
    forall k | 0 < k <= |es|
      ensures Boundary(es, k) == |EncodeEvent(es[0])| + Boundary(es[1..], k - 1)
    {
      BoundaryStep(es, k);
    }
    if n > 0 {
      var first, rest := EncodeEvent(es[0]), EncodeEvents(es[1..]);
      var cut := EncodeEvents(es)[..n];
      assert es[0] in es;
      if n < |first| {
        assert cut == first[..n];
        CutEventRejected(es[0], n);
      } else {
        var n' := n - |first|;
        assert cut == first + rest[..n'];
        EventRoundTrip(es[0], rest[..n']);
        CutEvents(es[1..], n');
        forall k | 0 <= k <= |es| && n == Boundary(es, k)
          ensures DecodeEvents(cut) == Ok(es[..k])
        {
          assert [es[0]] + es[1..][..k - 1] == es[..k];
        }
        if DecodeEvents(cut).Ok? {
          var k :| 0 <= k <= |es[1..]| && n' == Boundary(es[1..], k);
          assert n == Boundary(es, k + 1);
        }
      }
    }
  }

  lemma HeaderRoundTrip(h: Header, rest: seq<u8>)
    ensures DecodeHeader(EncodeHeader(h) + rest) == Ok(h)
    ensures (EncodeHeader(h) + rest)[HEADER_LEN..] == rest
  {
    var bs := EncodeHeader(h) + rest;
    hide Le8, Le4, FromLe8, FromLe4;
    Le4RoundTrip(FORMAT_VERSION);
    Le8RoundTrip(h.memSize);
    assert bs[..4] == MAGIC && bs[4..8] == Le4(FORMAT_VERSION) && bs[8..16] == Le8(h.memSize);
  }

  /** What a crash leaves of a recording is readable exactly when it was cut
      between events, and then holds exactly the events before the cut. */
  lemma CrashPrefix(h: Header, es: seq<Event>, n: nat)
    requires Sized(es) && HEADER_LEN <= n <= |EncodeAll(h, es)|
    ensures DecodeAll(EncodeAll(h, es)[..n]).Ok? <==>
            exists k :: 0 <= k <= |es| && n == HEADER_LEN + Boundary(es, k)
    ensures forall k :: 0 <= k <= |es| && n == HEADER_LEN + Boundary(es, k) ==>
                          DecodeAll(EncodeAll(h, es)[..n]) == Ok((h, es[..k]))
  {
    hide EncodeHeader, DecodeHeader, DecodeEvents, EncodeEvents;
    var n' := n - HEADER_LEN;
    assert EncodeAll(h, es)[..n] == EncodeHeader(h) + EncodeEvents(es)[..n'];
    HeaderRoundTrip(h, EncodeEvents(es)[..n']);
    CutEvents(es, n');
    if k :| 0 <= k <= |es| && n' == Boundary(es, k) {
      assert n == HEADER_LEN + Boundary(es, k);
    }
  }

  lemma {:induction false} DecodedAreSized(bs: seq<u8>)
    requires DecodeEvents(bs).Ok?
    ensures Sized(DecodeEvents(bs).value)
    decreases |bs|
  {
    if bs != [] {
      var (e, rest) := DecodeEvent(bs).value;
      DecodedAreSized(rest);
    }
  }

  /** Every list of events survives the file, provided its payloads fit the
      32-bit length field; a longer payload never does. */
  lemma RoundTripExactly(h: Header, es: seq<Event>)
    ensures DecodeAll(EncodeAll(h, es)) == Ok((h, es)) <==> Sized(es)
  {
    HeaderRoundTrip(h, EncodeEvents(es));
    if Sized(es) {
      assert es[..|es|] == es;
      var n := |EncodeEvents(es)|;
      assert EncodeEvents(es)[..n] == EncodeEvents(es);
      assert n == Boundary(es, |es|);
      CutEvents(es, n);
    } else if DecodeEvents(EncodeEvents(es)).Ok? {
      DecodedAreSized(EncodeEvents(es));
    }
  }

  // --- The layout ------------------------------------------------------------------

  /** The file starts with "HBRR", version 2, the memory size and the precision flag. */
  lemma HeaderLayout(h: Header)
    ensures var bs := EncodeHeader(h);
            && bs[..4] == [0x48, 0x42, 0x52, 0x52] && Value(bs[4..8]) == 2
            && Value(bs[8..16]) == h.memSize && bs[16] == if h.precise then 1 else 0
  {
    hide Le8, Le4, Value;
    var bs := EncodeHeader(h);
    LittleEndian4(2, []);
    LittleEndian8(h.memSize, []);
    assert bs[4..8] == Le4(2) && bs[8..16] == Le8(h.memSize);
  }

  /** An event is its kind (1 keyboard, 2 network, 3 RNG), branch count, milliseconds,
      length and payload. */
  lemma EventLayout(e: Event)
    requires |e.data| < 0x1_0000_0000
    ensures var bs := EncodeEvent(e);
            && bs[0] == (if e.kind.KeyboardRx? then 1 else if e.kind.NetRx? then 2 else 3)
            && Value(bs[1..9]) == e.branchCount && Value(bs[9..17]) == e.elapsedMs
            && Value(bs[17..21]) == |e.data| && bs[21..] == e.data
  {
    hide Le8, Le4, Value;
    var bs := EncodeEvent(e);
    LittleEndian8(e.branchCount, []);
    LittleEndian8(e.elapsedMs, []);
    LittleEndian4(|e.data|, []);
    assert bs[1..9] == Le8(e.branchCount) && bs[9..17] == Le8(e.elapsedMs) && bs[17..21] == Le4(|e.data|);
  }

  /** Only a file that starts with "HBRR" and version 2 is accepted, and only known kinds of
      event. */
  lemma AcceptedMagic(bs: seq<u8>)
    requires DecodeAll(bs).Ok?
    ensures |bs| >= 17 && bs[..4] == [0x48, 0x42, 0x52, 0x52] && Value(bs[4..8]) == 2
    ensures |bs| > 17 ==> 1 <= bs[17] <= 3
  {
    hide FromLe4, FromLe8, Value;
    LittleEndian4(0, bs[4..8]);
    assert |bs| > 17 ==> bs[17..][0] == bs[17];
  }
}
