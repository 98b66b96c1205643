/** Re-serving a recording: keyboard events in order, RNG bytes in whatever
    amounts they are asked for. */
module Replays {
  import opened Bytes
  import opened Recordings

  function KeyboardOf(es: seq<Event>): seq<Event> {
    if es == [] then []
    else KeyboardOf(es[..|es| - 1]) + if es[|es| - 1].kind.KeyboardRx? then [es[|es| - 1]] else []
  }

  /** The payloads of the RNG events. */
  function RngOf(es: seq<Event>): seq<seq<u8>> {
    if es == [] then []
    else RngOf(es[..|es| - 1]) + if es[|es| - 1].kind.RngBytes? then [es[|es| - 1].data] else []
  }

  function NetCount(es: seq<Event>): nat {
    if es == [] then 0
    else NetCount(es[..|es| - 1]) + if es[|es| - 1].kind.NetRx? then 1 else 0
  }

  function Flat(chunks: seq<seq<u8>>): seq<u8> {
    if chunks == [] then [] else chunks[0] + Flat(chunks[1..])
  }

  function Payloads(es: seq<Event>): seq<seq<u8>> {
    seq(|es|, i requires 0 <= i < |es| => es[i].data)
  }

  /** A call of the replayer, with the counter and clock values it would see. */
  datatype Call = PollKeyboard(branchCount: u64, elapsedMs: u64) | NextRng(want: nat)

  class Replayer {
    const keyboard: seq<Event>
    var nextKeyboard: nat
    var rngData: seq<seq<u8>>
    const skippedNetEvents: nat
    var rngExhaustedWarned: bool
    /** The recorded RNG bytes, and those handed out so far. */
    ghost const recorded: seq<u8>
    ghost var served: seq<u8>

    ghost predicate Valid()
      reads this
    {
      nextKeyboard <= |keyboard| && served + Flat(rngData) == recorded
    }

    constructor (events: seq<Event>)
      ensures Valid() && served == [] && nextKeyboard == 0
      ensures keyboard == KeyboardOf(events) && recorded == Flat(RngOf(events))
      ensures skippedNetEvents == NetCount(events)
    {
      var kb, rng, net := [], [], 0;
      for i := 0 to |events|
        invariant kb == KeyboardOf(events[..i]) && rng == RngOf(events[..i]) && net == NetCount(events[..i])
      {
        assert events[..i + 1][..i] == events[..i];
        match events[i].kind
        case KeyboardRx => kb := kb + [events[i]];
        case RngBytes => rng := rng + [events[i].data];
        case NetRx => net := net + 1;
      }
      assert events[..|events|] == events;
      keyboard, nextKeyboard, rngData, skippedNetEvents := kb, 0, rng, net;
      rngExhaustedWarned := false;
      recorded, served := Flat(rng), [];
    }

    /** The next event is due once either its position or its time is reached. */
    method PollKeyboard(branchCount: u64, elapsedMs: u64) returns (r: Option<seq<u8>>)
      requires Valid()
      modifies this`nextKeyboard
      ensures Valid()
      ensures r.Some? <==>
              && old(nextKeyboard) < |keyboard|
              && (branchCount >= keyboard[old(nextKeyboard)].branchCount ||
                  elapsedMs >= keyboard[old(nextKeyboard)].elapsedMs)
      ensures r.Some? ==> r.value == keyboard[old(nextKeyboard)].data && nextKeyboard == old(nextKeyboard) + 1
      ensures r.None? ==> nextKeyboard == old(nextKeyboard)
    {
      if nextKeyboard >= |keyboard| {
        return None;
      }
      var next := keyboard[nextKeyboard];
      if branchCount >= next.branchCount || elapsedMs >= next.elapsedMs {
        nextKeyboard := nextKeyboard + 1;
        return Some(next.data);
      }
      r := None;
    }

    /** Exactly `want` bytes from the front of what is left, whatever the chunk
        boundaries; or nothing taken at all. */
    method NextRngBytes(want: nat) returns (r: Option<seq<u8>>)
      requires Valid()
      modifies this`rngData, this`rngExhaustedWarned, this`served
      ensures Valid()
      ensures r.Some? <==> want <= |old(Flat(rngData))|
      ensures r.Some? ==> r.value == old(Flat(rngData))[..want] && Flat(rngData) == old(Flat(rngData))[want..]
      ensures r.None? ==> rngData == old(rngData)
      ensures served == old(served) + if r.Some? then r.value else []
    {
      var available := TotalLength(rngData);
      if available < want {
        rngExhaustedWarned := true;
        assert served + [] == served;
        return None;
      }
      var out := TakeFront(want);
      ghost var before := served;
      served := served + out;
      assert before + (out + Flat(rngData)) == served + Flat(rngData);
      r := Some(out);
    }

    /** The refill loop; an empty chunk is dropped without progress in `out`. */
    method TakeFront(want: nat) returns (out: seq<u8>)
      requires want <= |Flat(rngData)|
      modifies this`rngData
      ensures |out| == want && out + Flat(rngData) == old(Flat(rngData))
    {
      out := [];
      while |out| < want
        invariant |out| <= want && out + Flat(rngData) == old(Flat(rngData))
        decreases |rngData|, want - |out|
      {
        var front, need := rngData[0], want - |out|;
        ghost var tail := Flat(rngData[1..]);
        if |front| <= need {
          assert out + (front + tail) == (out + front) + tail;
          out := out + front;
          rngData := rngData[1..];
        } else {
          assert out + (front + tail) == (out + front[..need]) + (front[need..] + tail);
          out := out + front[..need];
          rngData := [front[need..]] + rngData[1..];
        }
      }
    }

    /** Any interleaving of calls: the RNG bytes handed out are a prefix of the
        recorded ones, and the keyboard payloads are the recorded ones in order. */
    method Run(calls: seq<Call>) returns (rng: seq<u8>, keys: seq<seq<u8>>)
      requires Valid()
      modifies this`nextKeyboard, this`rngData, this`rngExhaustedWarned, this`served
      ensures Valid()
      ensures old(served) + rng + Flat(rngData) == recorded
      ensures old(nextKeyboard) <= nextKeyboard
      ensures keys == Payloads(keyboard[old(nextKeyboard)..nextKeyboard])
    {
      hide Flat, Payloads;
      rng, keys := [], [];
      assert served + [] == served;
      NoPayloads(keyboard, nextKeyboard);
      for i := 0 to |calls|
        invariant Valid() && served == old(served) + rng && old(nextKeyboard) <= nextKeyboard
        invariant keys == Payloads(keyboard[old(nextKeyboard)..nextKeyboard])
      {
        match calls[i]
        case PollKeyboard(b, t) =>
          ghost var k := nextKeyboard;
          var r := PollKeyboard(b, t);
          if r.Some? {
            OneMorePayload(keyboard, old(nextKeyboard), k);
            keys := keys + [r.value];
          }
        case NextRng(want) =>
          var r := NextRngBytes(want);
          if r.Some? {
            assert old(served) + rng + r.value == old(served) + (rng + r.value);
            rng := rng + r.value;
          } else {
            assert old(served) + rng + [] == old(served) + rng;
          }
      }
    }
  }

  lemma NoPayloads(es: seq<Event>, i: nat)
    requires i <= |es|
    ensures Payloads(es[i..i]) == []
  {}

  lemma OneMorePayload(es: seq<Event>, lo: nat, hi: nat)
    requires lo <= hi < |es|
    ensures Payloads(es[lo..hi + 1]) == Payloads(es[lo..hi]) + [es[hi].data]
  {}

  method TotalLength(chunks: seq<seq<u8>>) returns (n: nat)
    ensures n == |Flat(chunks)|
  {
    n := 0;
    assert chunks[0..] == chunks;
    for i := 0 to |chunks|
      invariant n + |Flat(chunks[i..])| == |Flat(chunks)|
    {
      assert chunks[i..][1..] == chunks[i + 1..];
      n := n + |chunks[i]|;
    }
  }

  /** The three streams are the events of each kind, in order. */
  lemma {:induction false} StreamsByKind(es: seq<Event>)
    ensures KeyboardOf(es) == OfKind(es, KeyboardRx) && RngOf(es) == Payloads(OfKind(es, RngBytes))
    ensures NetCount(es) == |OfKind(es, NetRx)|
    decreases |es|
  {
    hide Payloads, OfKind;
    if es == [] {
      NoneOfKind();
      NoPayloads(es, 0);
      assert es[0..0] == [];
    } else {
      var n := |es| - 1;
      StreamsByKind(es[..n]);
      OfKindSnoc(es, KeyboardRx);
      OfKindSnoc(es, RngBytes);
      OfKindSnoc(es, NetRx);
      PayloadsSnoc(OfKind(es[..n], RngBytes), es[n]);
      assert RngOf(es[..n]) + [] == RngOf(es[..n]) && KeyboardOf(es[..n]) + [] == KeyboardOf(es[..n]);
    }
  }

  /** And each event is in just one of them. */
  lemma {:induction false} PartitionExactly(es: seq<Event>)
    ensures multiset(OfKind(es, KeyboardRx)) + multiset(OfKind(es, RngBytes)) + multiset(OfKind(es, NetRx)) == multiset(es)
    decreases |es|
  {
    hide OfKind;
    if es == [] {
      NoneOfKind();
    } else {
      var n := |es| - 1;
      PartitionExactly(es[..n]);
      assert es == es[..n] + [es[n]];
      Snoc(es[..n], es[n]);
      Snoc(OfKind(es[..n], es[n].kind), es[n]);
      OfKindSnoc(es, KeyboardRx);
      OfKindSnoc(es, RngBytes);
      OfKindSnoc(es, NetRx);
    }
  }

  lemma NoneOfKind()
    ensures forall kind :: OfKind([], kind) == []
  {}

  lemma OfKindSnoc(es: seq<Event>, kind: Kind)
    requires es != []
    ensures var n := |es| - 1;
            OfKind(es, kind) == if es[n].kind == kind then OfKind(es[..n], kind) + [es[n]] else OfKind(es[..n], kind)
  {}

  lemma Snoc(es: seq<Event>, e: Event)
    ensures multiset(es + [e]) == multiset(es) + multiset{e}
  {}

  lemma PayloadsSnoc(es: seq<Event>, e: Event)
    ensures Payloads(es + [e]) == Payloads(es) + [e.data]
  {}

  /** The events of one kind, in order. */
  function OfKind(es: seq<Event>, kind: Kind): (r: seq<Event>)
    ensures forall e :: e in r ==> e.kind == kind && e in es
  {
    if es == [] then []
    else OfKind(es[..|es| - 1], kind) + if es[|es| - 1].kind == kind then [es[|es| - 1]] else []
  }
}
