/** virtio-gpio (section 5.18 of Virtio 1.2): requests answered at once, and event
    buffers held back until their line fires. */
module GpioDevice {
  import opened Bytes
  import opened Memory
  import opened VirtQueues
  import opened UsedRings
  import opened Drains

  const MSG_GET_NAMES: u16 := 1
  const MSG_GET_DIRECTION: u16 := 2
  const MSG_SET_DIRECTION: u16 := 3
  const MSG_GET_VALUE: u16 := 4
  const MSG_SET_VALUE: u16 := 5
  const MSG_IRQ_TYPE: u16 := 6
  const DIRECTION_IN: u8 := 2
  const STATUS_OK: u8 := 0
  const STATUS_ERR: u8 := 1
  const IRQ_TYPE_NONE: u8 := 0
  const IRQ_STATUS_VALID: u8 := 1
  const REQUEST_LEN := 8
  const IRQ_REQUEST_LEN := 2

  /** What the device asks of the plugin behind the lines. */
  datatype BankCall =
    | GetDirection(line: u16)
    | SetDirection(line: u16, direction: u8)
    | GetValue(line: u16)
    | SetValue(line: u16, value: u8)

  /** The plugin: what it answers may depend on every call made to it before. */
  datatype Bank = Bank(
    ngpio: u16, names: seq<u8>,
    direction: (seq<BankCall>, u16) -> u8, value: (seq<BankCall>, u16) -> u8)

  /** A posted event buffer that is waiting for its line. */
  datatype Arm = Arm(head: u16, statusAddr: u64)

  /** `calls` is what the plugin has been asked so far. */
  datatype Gpio = Gpio(arms: map<u16, Arm>, enabled: set<u16>, calls: seq<BankCall>)

  datatype Completion = Completion(head: u16, statusAddr: u64)

  // --- The request queue -------------------------------------------------------------

  function Called(g: Gpio, call: BankCall): Gpio {
    g.(calls := g.calls + [call])
  }

  /** Status and value of the reply, and the new state. */
  function Answer(bank: Bank, g: Gpio, kind: u16, line: u16, value: u8): (Gpio, u8, u8) {
    if line >= bank.ngpio then (g, STATUS_ERR, 0)
    else if kind == MSG_GET_DIRECTION then (Called(g, GetDirection(line)), STATUS_OK, bank.direction(g.calls, line))
    else if kind == MSG_SET_DIRECTION then
      if value <= DIRECTION_IN then (Called(g, SetDirection(line, value)), STATUS_OK, 0) else (g, STATUS_ERR, 0)
    else if kind == MSG_GET_VALUE then (Called(g, GetValue(line)), STATUS_OK, bank.value(g.calls, line) % 2)
    else if kind == MSG_SET_VALUE then (Called(g, SetValue(line, value % 2)), STATUS_OK, 0)
    else if kind == MSG_IRQ_TYPE then
      (g.(enabled := if value == IRQ_TYPE_NONE then g.enabled - {line} else g.enabled + {line}), STATUS_OK, 0)
    else (g, STATUS_ERR, 0)
  }

  function Respond(g: Gpio, m: Image, res: Buf, response: seq<u8>): Reply<Gpio> {
    var n := Min(|response|, res.len);
    if res.addr + n <= |m| then Reply(g, [Write(res.addr, response[..n])], Done(n)) else Reply(g, [], Done(0))
  }

  function RequestReply(bank: Bank, g: Gpio, m: Image, c: Chain): Reply<Gpio> {
    if |c.bufs| != 2 then Reply(g, [], Done(0))
    else
      var req, res := c.bufs[0], c.bufs[1];
      if req.writable || req.len != REQUEST_LEN || !res.writable || req.addr + REQUEST_LEN > |m| then Reply(g, [], Done(0))
      else
        var kind, line := FromLe2(m[req.addr..req.addr + 2]), FromLe2(m[req.addr + 2..req.addr + 4]);
        if kind == MSG_GET_NAMES then Respond(g, m, res, [STATUS_OK] + bank.names)
        else
          var (g', status, out) := Answer(bank, g, kind, line, m[req.addr + 4]);
          Respond(g', m, res, [status, out])
  }

  /** A well-formed interrupt-type request enables its line, or with type 0 disables
      it, leaves every other line alone, and is answered with an OK status. */
  lemma IrqTypeRequest(bank: Bank, g: Gpio, m: Image, c: Chain, line: u16, kind: u8)
    requires |c.bufs| == 2 && !c.bufs[0].writable && c.bufs[0].len == REQUEST_LEN && c.bufs[1].writable
    requires c.bufs[0].addr + REQUEST_LEN <= |m| && c.bufs[1].addr + c.bufs[1].len <= |m| && c.bufs[1].len >= 2
    requires m[c.bufs[0].addr..c.bufs[0].addr + 5] == Le2(MSG_IRQ_TYPE) + Le2(line) + [kind]
    requires line < bank.ngpio
    ensures var r := RequestReply(bank, g, m, c);
            && (line in r.dev.enabled <==> kind != IRQ_TYPE_NONE)
            && (forall l: u16 :: l != line ==> (l in r.dev.enabled <==> l in g.enabled))
            && r.dev.arms == g.arms && r.dev.calls == g.calls && r.outcome == Done(2)
            && r.writes == [Write(c.bufs[1].addr, [STATUS_OK, 0])]
  {
    hide Le2, FromLe2;
    RequestFields(m, c.bufs[0].addr, MSG_IRQ_TYPE, line, kind);
    assert [STATUS_OK, 0][..2] == [STATUS_OK, 0];
  }

  /** Every other message, byte for byte: what the plugin is asked, and the two bytes of
      the answer, as far as there is room for them. A line the bank does not have, an
      unknown message or a direction that does not exist is answered with an error and
      asks nothing. */
  lemma RequestAnswered(bank: Bank, g: Gpio, m: Image, c: Chain, kind: u16, line: u16, value: u8)
    requires |c.bufs| == 2 && !c.bufs[0].writable && c.bufs[0].len == 8 && c.bufs[1].writable
    requires c.bufs[0].addr + 8 <= |m| && c.bufs[1].addr + c.bufs[1].len <= |m|
    requires m[c.bufs[0].addr..c.bufs[0].addr + 5] == Le2(kind) + Le2(line) + [value]
    requires kind != 1 && kind != 6
    ensures var n := Min(2, c.bufs[1].len);
            var (asked, answer: seq<u8>) :=
              if line >= bank.ngpio then ([], [1, 0])
              else if kind == 2 then ([GetDirection(line)], [0, bank.direction(g.calls, line)])
              else if kind == 3 && value <= 2 then ([SetDirection(line, value)], [0, 0])
              else if kind == 4 then ([GetValue(line)], [0, bank.value(g.calls, line) % 2])
              else if kind == 5 then ([SetValue(line, value % 2)], [0, 0])
              else ([], [1, 0]);
            RequestReply(bank, g, m, c) ==
            Reply(g.(calls := g.calls + asked), [Write(c.bufs[1].addr, answer[..n])], Done(n))
  {
    hide Le2, FromLe2;
    RequestFields(m, c.bufs[0].addr, kind, line, value);
    assert g.calls + [] == g.calls;
  }

  /** The names: an OK status and as many of their bytes as there is room for. */
  lemma NamesAnswered(bank: Bank, g: Gpio, m: Image, c: Chain, line: u16, value: u8)
    requires |c.bufs| == 2 && !c.bufs[0].writable && c.bufs[0].len == 8 && c.bufs[1].writable
    requires c.bufs[0].addr + 8 <= |m| && c.bufs[1].addr + c.bufs[1].len <= |m|
    requires m[c.bufs[0].addr..c.bufs[0].addr + 5] == Le2(1) + Le2(line) + [value]
    ensures var n := Min(1 + |bank.names|, c.bufs[1].len);
            RequestReply(bank, g, m, c) == Reply(g, [Write(c.bufs[1].addr, ([0] + bank.names)[..n])], Done(n))
  {
    hide Le2, FromLe2;
    RequestFields(m, c.bufs[0].addr, 1, line, value);
  }

  lemma RequestFields(m: Image, a: nat, kind: u16, line: u16, value: u8)
    requires a + 5 <= |m| && m[a..a + 5] == Le2(kind) + Le2(line) + [value]
    ensures FromLe2(m[a..a + 2]) == kind && FromLe2(m[a + 2..a + 4]) == line && m[a + 4] == value
  {
    var bs := m[a..a + 5];
    assert m[a] == bs[0] && m[a + 1] == bs[1] && m[a + 2] == bs[2] && m[a + 3] == bs[3] && m[a + 4] == bs[4];
    Le2RoundTrip(kind);
    Le2RoundTrip(line);
  }

  // --- The event queue ----------------------------------------------------------------

  /** The line an event buffer is posted for, or `None` for a malformed chain. */
  function ArmLine(m: Image, c: Chain): Option<u16> {
    if |c.bufs| != 2 then None
    else
      var req, res := c.bufs[0], c.bufs[1];
      if req.writable || req.len != IRQ_REQUEST_LEN || !res.writable || req.addr + IRQ_REQUEST_LEN > |m| then None
      else Some(FromLe2(m[req.addr..req.addr + 2]))
  }

  function ArmReply(g: Gpio, m: Image, c: Chain): Reply<Gpio> {
    match ArmLine(m, c)
    case None => Reply(g, [], Done(0))
    case Some(line) => Reply(g.(arms := g.arms[line := Arm(c.head, c.bufs[1].addr)]), [], Deferred)
  }

  /** An event buffer naming a line is held for it; any other chain is finished at once. */
  lemma EventArmed(g: Gpio, m: Image, c: Chain, line: u16)
    requires |c.bufs| == 2 ==> c.bufs[0].addr + c.bufs[0].len <= |m|
    ensures |c.bufs| == 2 && !c.bufs[0].writable && c.bufs[0].len == 2 && c.bufs[1].writable &&
            m[c.bufs[0].addr..c.bufs[0].addr + 2] == Le2(line) ==>
              ArmReply(g, m, c) == Reply(g.(arms := g.arms[line := Arm(c.head, c.bufs[1].addr)]), [], Deferred)
    ensures |c.bufs| != 2 || c.bufs[0].writable || c.bufs[0].len != 2 || !c.bufs[1].writable ==>
              ArmReply(g, m, c) == Reply(g, [], Done(0))
  {
    hide Le2, FromLe2;
    Le2RoundTrip(line);
  }

  /** A fired line completes its armed buffer if it is enabled, and is lost otherwise. */
  function Poll(g: Gpio, fired: seq<u16>): (Gpio, seq<Completion>) {
    if fired == [] then (g, [])
    else
      var n := |fired| - 1;
      var (g1, done) := Poll(g, fired[..n]);
      var line := fired[n];
      if line !in g1.enabled || line !in g1.arms then (g1, done)
      else (g1.(arms := g1.arms - {line}), done + [Completion(g1.arms[line].head, g1.arms[line].statusAddr)])
  }

  class VirtioGpio {
    const bank: Bank
    var pendingArms: map<u16, Arm>
    var irqEnabled: set<u16>
    var calls: seq<BankCall>

    ghost function Spec(): Gpio
      reads this
    {
      Gpio(pendingArms, irqEnabled, calls)
    }

    constructor (bank: Bank)
      ensures this.bank == bank && Spec() == Gpio(map[], {}, [])
    {
      this.bank := bank;
      pendingArms, irqEnabled, calls := map[], {}, [];
    }

    /** Handles a chain of the event queue; memory is only read. */
    method HandleEventArm(mem: GuestMemory, chain: Chain) returns (outcome: Outcome)
      requires mem.Valid()
      modifies this
      ensures var r := ArmReply(old(Spec()), mem.Image(), chain);
              Spec() == r.dev && outcome == r.outcome
    {
      if |chain.bufs| != 2 {
        return Done(0);
      }
      var req, res := chain.bufs[0], chain.bufs[1];
      if req.writable || req.len != IRQ_REQUEST_LEN || !res.writable {
        return Done(0);
      }
      var bytes := mem.ReadChecked(req.addr, IRQ_REQUEST_LEN);
      if bytes.None? {
        return Done(0);
      }
      pendingArms := pendingArms[FromLe2(bytes.value) := Arm(chain.head, res.addr)];
      outcome := Deferred;
    }

    /** Handles a chain of the request queue. */
    method HandleRequest(mem: GuestMemory, chain: Chain) returns (outcome: Outcome)
      requires mem.Valid()
      modifies this, mem.cells
      ensures var r := RequestReply(bank, old(Spec()), old(mem.Image()), chain);
              && Spec() == r.dev && outcome == r.outcome && |r.writes| <= 1
              && mem.Image() == if r.writes == [] then old(mem.Image())
                                else Put(old(mem.Image()), r.writes[0].addr, r.writes[0].data)
    {
      hide FromLe2, Put;
      if |chain.bufs| != 2 {
        return Done(0);
      }
      var req, res := chain.bufs[0], chain.bufs[1];
      if req.writable || req.len != REQUEST_LEN || !res.writable {
        return Done(0);
      }
      var bytes := mem.ReadChecked(req.addr, REQUEST_LEN);
      if bytes.None? {
        return Done(0);
      }
      FieldSlices(mem.Image(), req.addr, bytes.value);
      var kind, line, value := FromLe2(bytes.value[..2]), FromLe2(bytes.value[2..4]), bytes.value[4];
      if kind == MSG_GET_NAMES {
        outcome := WriteResponse(mem, res, [STATUS_OK] + bank.names);
      } else {
        var status, out := AnswerLine(kind, line, value);
        outcome := WriteResponse(mem, res, [status, out]);
      }
    }

    /** Everything but the names: asks the bank, or sets what the line's interrupt does. */
    method AnswerLine(kind: u16, line: u16, value: u8) returns (status: u8, out: u8)
      modifies this
      ensures (Spec(), status, out) == Answer(bank, old(Spec()), kind, line, value)
    {
      status, out := STATUS_OK, 0;
      if line >= bank.ngpio {
        status := STATUS_ERR;
      } else if kind == MSG_GET_DIRECTION {
        out := bank.direction(calls, line);
        calls := calls + [GetDirection(line)];
      } else if kind == MSG_SET_DIRECTION {
        if value <= DIRECTION_IN {
          calls := calls + [SetDirection(line, value)];
        } else {
          status := STATUS_ERR;
        }
      } else if kind == MSG_GET_VALUE {
        out := bank.value(calls, line) % 2;
        calls := calls + [GetValue(line)];
      } else if kind == MSG_SET_VALUE {
        calls := calls + [SetValue(line, value % 2)];
      } else if kind == MSG_IRQ_TYPE {
        if value == IRQ_TYPE_NONE {
          irqEnabled := irqEnabled - {line};
        } else {
          irqEnabled := irqEnabled + {line};
        }
      } else {
        status := STATUS_ERR;
      }
    }

    /** As much of the response as the driver left room for. */
    method WriteResponse(mem: GuestMemory, res: Buf, response: seq<u8>) returns (outcome: Outcome)
      requires mem.Valid()
      modifies mem.cells
      ensures var r := Respond(Spec(), old(mem.Image()), res, response);
              && outcome == r.outcome && |r.writes| <= 1
              && mem.Image() == if r.writes == [] then old(mem.Image())
                                else Put(old(mem.Image()), r.writes[0].addr, r.writes[0].data)
    {
      hide Put;
      ghost var m := mem.Image();
      var n := Min(|response|, res.len);
      var ok := mem.WriteChecked(res.addr, response[..n]);
      if ok {
        outcome := Done(n);
      } else {
        outcome := Done(0);
        PutNowhere(m, res.addr, response[..n]);
      }
    }

    method PollCompletions(fired: seq<u16>) returns (out: seq<Completion>)
      modifies this
      ensures (Spec(), out) == Poll(old(Spec()), fired)
    {
      out := [];
      for i := 0 to |fired|
        invariant (Spec(), out) == Poll(old(Spec()), fired[..i])
      {
        assert fired[..i + 1][..i] == fired[..i];
        var line := fired[i];
        if line in irqEnabled && line in pendingArms {
          out := out + [Completion(pendingArms[line].head, pendingArms[line].statusAddr)];
          pendingArms := pendingArms - {line};
        }
      }
      assert fired[..|fired|] == fired;
    }
  }

  lemma FieldSlices(m: Image, a: nat, bytes: seq<u8>)
    requires a + REQUEST_LEN <= |m| && bytes == m[a..a + REQUEST_LEN]
    ensures bytes[..2] == m[a..a + 2] && bytes[2..4] == m[a + 2..a + 4] && bytes[4] == m[a + 4]
  {
    forall i | 0 <= i < REQUEST_LEN
      ensures bytes[i] == m[a + i]
    {}
    assert bytes[..2] == [bytes[0], bytes[1]] && m[a..a + 2] == [m[a], m[a + 1]];
    assert bytes[2..4] == [bytes[2], bytes[3]] && m[a + 2..a + 4] == [m[a + 2], m[a + 3]];
  }

  lemma PutNowhere(m: Image, a: nat, src: seq<u8>)
    requires a + |src| > |m|
    ensures Put(m, a, src) == m
  {}

  // --- Runs of the whole device -----------------------------------------------------------

  /** The device with its two queues and guest memory. The history says which chains
      (and so which heads) were taken off the event queue, which heads were put on its
      used ring, and which were displaced by a later arm of the same line. */
  datatype System = System(
    g: Gpio, mem: Image, requests: Queue, events: Queue,
    chains: seq<Chain>, popped: seq<u16>, published: seq<Entry>, superseded: seq<u16>)

  /** One turn of serving either queue, some lines firing, or the driver (or anything
      else) changing memory. */
  datatype Action = ServeRequest | ServeEvent | Fire(lines: seq<u16>) | Driver(mem: Image)

  function Finished(done: seq<Completion>): seq<Event> {
    if done == [] then []
    else
      var n := |done| - 1;
      Finished(done[..n]) + [Store(Write(done[n].statusAddr, [IRQ_STATUS_VALID])), Complete(done[n].head, 1)]
  }

  function ServeEventTurn(s: System): System {
    var p := PopOf(s.mem, s.events);
    var s1 := s.(events := AfterPop(s.events, p));
    if !p.Got? then s1
    else
      var c := p.chain;
      var r := ArmReply(s.g, s.mem, c);
      var line := ArmLine(s.mem, c);
      var evs := ChainEvents(r, c.head);
      s1.(g := r.dev, mem := Play(s.mem, s.events, evs), chains := s.chains + [c], popped := s.popped + [c.head],
          published := s.published + Completions(evs),
          superseded := s.superseded +
            if line.Some? && line.value in s.g.arms then [s.g.arms[line.value].head] else [])
  }

  function Step(bank: Bank, s: System, a: Action): System {
    match a
    case ServeRequest =>
      var p := PopOf(s.mem, s.requests);
      var s1 := s.(requests := AfterPop(s.requests, p));
      if !p.Got? then s1
      else
        var r := RequestReply(bank, s.g, s.mem, p.chain);
        s1.(g := r.dev, mem := Play(s.mem, s.requests, ChainEvents(r, p.chain.head)))
    case ServeEvent => ServeEventTurn(s)
    case Fire(lines) =>
      var (g, done) := Poll(s.g, lines);
      var evs := Finished(done);
      s.(g := g, mem := Play(s.mem, s.events, evs), published := s.published + Completions(evs))
    case Driver(mem) => s.(mem := mem)
  }

  function Run(bank: Bank, s: System, actions: seq<Action>): System {
    if actions == [] then s else Step(bank, Run(bank, s, actions[..|actions| - 1]), actions[|actions| - 1])
  }

  // --- Conservation -------------------------------------------------------------------------

  ghost function ArmedWith(arms: map<u16, Arm>, head: u16): set<u16> {
    set line | line in arms && arms[line].head == head
  }

  function Times(heads: seq<u16>, head: u16): nat {
    multiset(heads)[head]
  }

  function Ids(es: seq<Entry>, head: u16): nat {
    if es == [] then 0 else Ids(es[..|es| - 1], head) + if es[|es| - 1].id == head then 1 else 0
  }

  /** Every popped head is published, still armed, or superseded, and in just one of
      these ways for each time it was popped. */
  ghost predicate Conserved(s: System) {
    forall head: u16 :: Times(s.popped, head) ==
      Ids(s.published, head) + |ArmedWith(s.g.arms, head)| + Times(s.superseded, head)
  }

  lemma ArmCount(arms: map<u16, Arm>, line: u16, arm: Arm, head: u16)
    ensures |ArmedWith(arms[line := arm], head)| ==
            |ArmedWith(arms, head)| - (if line in arms && arms[line].head == head then 1 else 0) +
            (if arm.head == head then 1 else 0)
  {
    var before, after := ArmedWith(arms, head), ArmedWith(arms[line := arm], head);
    if arm.head == head {
      assert after == before + {line};
    } else {
      assert after == before - {line};
    }
  }

  lemma DisarmCount(arms: map<u16, Arm>, line: u16, head: u16)
    requires line in arms
    ensures |ArmedWith(arms - {line}, head)| ==
            |ArmedWith(arms, head)| - if arms[line].head == head then 1 else 0
  {
    assert ArmedWith(arms - {line}, head) == ArmedWith(arms, head) - {line};
  }

  lemma TimesSnoc(heads: seq<u16>, x: u16, head: u16)
    ensures Times(heads + [x], head) == Times(heads, head) + if x == head then 1 else 0
  {}

  lemma {:induction false} IdsConcat(a: seq<Entry>, b: seq<Entry>, head: u16)
    ensures Ids(a + b, head) == Ids(a, head) + Ids(b, head)
    decreases |b|
  {
    if b == [] {
      assert a + b == a;
    } else {
      var n := |b| - 1;
      assert (a + b)[..|a + b| - 1] == a + b[..n];
      IdsConcat(a, b[..n], head);
    }
  }

  lemma FinishedSnoc(done: seq<Completion>, c: Completion)
    ensures Completions(Finished(done + [c])) == Completions(Finished(done)) + [Entry(c.head, 1)]
  {
    assert (done + [c])[..|done|] == done;
    var last := [Store(Write(c.statusAddr, [IRQ_STATUS_VALID])), Complete(c.head, 1)];
    assert last[1..] == [Complete(c.head, 1)] && last[1..][1..] == [];
    assert Completions(last[1..]) == [Entry(c.head, 1)] + Completions([]);
    assert Completions(last) == Completions(last[1..]);
    CompletionsConcat(Finished(done), last);
  }

  /** Polling turns armed buffers into publications one for one; only buffers of
      enabled lines. */
  lemma {:induction false} PollConserves(g: Gpio, fired: seq<u16>, head: u16)
    ensures var (g', done) := Poll(g, fired);
            && g'.enabled == g.enabled
            && |ArmedWith(g.arms, head)| == |ArmedWith(g'.arms, head)| + Ids(Completions(Finished(done)), head)
            && (forall line :: line in g.arms && !(line in g.enabled && line in fired) ==>
                  line in g'.arms && g'.arms[line] == g.arms[line])
            && (forall line :: line in g'.arms ==> line in g.arms && g'.arms[line] == g.arms[line])
            && (forall line :: line in fired && line in g.enabled ==> line !in g'.arms)
    decreases |fired|
  {
    hide Finished, Ids;
    if fired == [] {
      NothingFinished(head);
    } else {
      var n := |fired| - 1;
      PollConserves(g, fired[..n], head);
      var (g1, done) := Poll(g, fired[..n]);
      var line := fired[n];
      if line in g1.enabled && line in g1.arms {
        var c := Completion(g1.arms[line].head, g1.arms[line].statusAddr);
        DisarmCount(g1.arms, line, head);
        FinishedSnoc(done, c);
        IdsOne(Completions(Finished(done)), Entry(c.head, 1), head);
      }
    }
  }

  /** Conversely, what a poll publishes was the held buffer of a line that fired while
      it was enabled. */
  lemma {:induction false} PublishedWereEnabled(g: Gpio, fired: seq<u16>, c: Completion)
    requires c in Poll(g, fired).1
    ensures exists line :: line in fired && line in g.enabled && line in g.arms && g.arms[line] == Arm(c.head, c.statusAddr)
    decreases |fired|
  {
    var n := |fired| - 1;
    PollConserves(g, fired[..n], 0);
    var (g1, done) := Poll(g, fired[..n]);
    if c in done {
      PublishedWereEnabled(g, fired[..n], c);
    } else {
      assert fired[n] in fired && g1.arms[fired[n]] == g.arms[fired[n]] == Arm(c.head, c.statusAddr);
    }
  }

  /** Lines complete in the order they fired, each by itself. */
  lemma {:induction false} PollConcat(g: Gpio, a: seq<u16>, b: seq<u16>)
    ensures var (g1, first) := Poll(g, a);
            var (g2, second) := Poll(g1, b);
            Poll(g, a + b) == (g2, first + second)
    decreases |b|
  {
    if b == [] {
      assert a + b == a;
      assert Poll(g, a).1 + [] == Poll(g, a).1;
    } else {
      var n := |b| - 1;
      assert (a + b)[..|a + b| - 1] == a + b[..n] && (a + b)[|a + b| - 1] == b[n];
      PollConcat(g, a, b[..n]);
      var first, second := Poll(g, a).1, Poll(Poll(g, a).0, b[..n]).1;
      forall c: Completion
        ensures first + second + [c] == first + (second + [c])
      {}
    }
  }

  lemma PollOne(g: Gpio, line: u16)
    ensures Poll(g, [line]) ==
            if line in g.enabled && line in g.arms then
              (g.(arms := g.arms - {line}), [Completion(g.arms[line].head, g.arms[line].statusAddr)])
            else (g, [])
  {
    assert [line][..0] == [] && Poll(g, []) == (g, []);
    if line in g.enabled && line in g.arms {
      var c := Completion(g.arms[line].head, g.arms[line].statusAddr);
      assert [] + [c] == [c];
    }
  }

  lemma NothingFinished(head: u16)
    ensures Ids(Completions(Finished([])), head) == 0
  {}

  lemma IdsOne(es: seq<Entry>, e: Entry, head: u16)
    ensures Ids(es + [e], head) == Ids(es, head) + if e.id == head then 1 else 0
  {
    assert (es + [e])[..|es|] == es;
  }

  /** A turn on the event queue publishes a malformed chain at once and holds a
      well-formed one, displacing an earlier arm of its line. */
  lemma EventTurnConserves(s: System)
    requires Conserved(s)
    ensures Conserved(ServeEventTurn(s))
  {
    var s', p := ServeEventTurn(s), PopOf(s.mem, s.events);
    hide PopOf, Ids, Play;
    if p.Got? {
      var c := p.chain;
      var line := ArmLine(s.mem, c);
      var arm := if line.Some? then Arm(c.head, c.bufs[1].addr) else Arm(0, 0);
      var r := ArmReply(s.g, s.mem, c);
      ChainCompletions(r, c.head, []);
      assert [] + ChainEvents(r, c.head) == ChainEvents(r, c.head);
      forall head: u16
        ensures Times(s'.popped, head) ==
                Ids(s'.published, head) + |ArmedWith(s'.g.arms, head)| + Times(s'.superseded, head)
      {
        hide Times, ArmedWith, ArmLine;
        TimesSnoc(s.popped, c.head, head);
        if line.None? {
          assert s'.published == s.published + [Entry(c.head, 0)];
          IdsOne(s.published, Entry(c.head, 0), head);
          assert s'.superseded == s.superseded;
        } else {
          assert s'.published == s.published;
          ArmCount(s.g.arms, line.value, arm, head);
          if line.value in s.g.arms {
            TimesSnoc(s.superseded, s.g.arms[line.value].head, head);
          } else {
            assert s'.superseded == s.superseded;
          }
        }
      }
    }
  }

  lemma RequestKeepsArms(bank: Bank, g: Gpio, m: Image, c: Chain)
    ensures RequestReply(bank, g, m, c).dev.arms == g.arms
  {
    hide FromLe2;
  }

  lemma StepConserves(bank: Bank, s: System, a: Action)
    requires Conserved(s)
    ensures Conserved(Step(bank, s, a))
  {
    hide PopOf, Ids, Play, ServeEventTurn, RequestReply, Poll, Finished;
    match a
    case ServeEvent => EventTurnConserves(s);
    case ServeRequest =>
      if PopOf(s.mem, s.requests).Got? {
        RequestKeepsArms(bank, s.g, s.mem, PopOf(s.mem, s.requests).chain);
      }
    case Driver(_) =>
    case Fire(lines) =>
      var (g, done) := Poll(s.g, lines);
      forall head: u16
        ensures Ids(s.published + Completions(Finished(done)), head) + |ArmedWith(g.arms, head)| ==
                Ids(s.published, head) + |ArmedWith(s.g.arms, head)|
      {
        PollConserves(s.g, lines, head);
        IdsConcat(s.published, Completions(Finished(done)), head);
      }
  }

  ghost predicate Start(s: System) {
    s.g == Gpio(map[], {}, []) && s.chains == [] && s.popped == [] && s.published == [] && s.superseded == []
  }

  /** Over every run, no event buffer is lost or invented. */
  lemma {:induction false} EveryRunConserves(bank: Bank, s: System, actions: seq<Action>)
    requires Start(s)
    ensures Conserved(Run(bank, s, actions))
    decreases |actions|
  {
    hide Step;
    if actions == [] {
      assert forall head :: ArmedWith(map[], head) == {};
    } else {
      var n := |actions| - 1;
      EveryRunConserves(bank, s, actions[..n]);
      StepConserves(bank, Run(bank, s, actions[..n]), actions[n]);
    }
  }

  /** The line that serving the event queue now would arm. */
  function NextArm(s: System): Option<u16> {
    match PopOf(s.mem, s.events)
    case Got(c) => ArmLine(s.mem, c)
    case _ => None
  }

  /** The driver posts no event buffer for a line that still has one: whenever the event
      queue is served, the chain there does not name a line that is armed. */
  ghost predicate OneArmPerLine(bank: Bank, s: System, actions: seq<Action>)
    decreases |actions|
  {
    actions == [] ||
    var n := |actions| - 1;
    var before := Run(bank, s, actions[..n]);
    && OneArmPerLine(bank, s, actions[..n])
    && (actions[n].ServeEvent? && NextArm(before).Some? ==> NextArm(before).value !in before.g.arms)
  }

  lemma {:induction false} NothingSuperseded(bank: Bank, s: System, actions: seq<Action>)
    requires Start(s) && OneArmPerLine(bank, s, actions)
    ensures Run(bank, s, actions).superseded == []
    decreases |actions|
  {
    if actions != [] {
      var n := |actions| - 1;
      NothingSuperseded(bank, s, actions[..n]);
      StepSupersedes(bank, Run(bank, s, actions[..n]), actions[n]);
    }
  }

  /** A step displaces a held buffer exactly when it arms a line that is armed. */
  lemma StepSupersedes(bank: Bank, s: System, a: Action)
    ensures Step(bank, s, a).superseded == s.superseded <==>
            !(a.ServeEvent? && NextArm(s).Some? && NextArm(s).value in s.g.arms)
  {
    hide PopOf, Play, Poll, Finished, RequestReply, ArmReply, ArmLine, ChainEvents, Completions;
  }

  /** With one outstanding arm per line, each buffer popped once is published at most
      once, and is either published or still armed. */
  lemma NothingLost(bank: Bank, s: System, actions: seq<Action>, head: u16)
    requires Start(s) && OneArmPerLine(bank, s, actions)
    ensures var e := Run(bank, s, actions);
            && Times(e.popped, head) == Ids(e.published, head) + |ArmedWith(e.g.arms, head)|
            && (Times(e.popped, head) == 1 ==> (Ids(e.published, head) == 1 <==> ArmedWith(e.g.arms, head) == {}))
  {
    hide Run, Ids, OneArmPerLine;
    EveryRunConserves(bank, s, actions);
    NothingSuperseded(bank, s, actions);
    var e := Run(bank, s, actions);
    assert Times(e.superseded, head) == 0;
    assert |ArmedWith(e.g.arms, head)| == 0 <==> ArmedWith(e.g.arms, head) == {};
  }

  /** A held buffer leaves the device only by its own line firing while enabled, or
      by being displaced. */
  lemma HeldUntilFired(bank: Bank, s: System, a: Action, line: u16)
    requires line in s.g.arms
    requires line !in Step(bank, s, a).g.arms || Step(bank, s, a).g.arms[line] != s.g.arms[line]
    ensures a.ServeEvent? || (a.Fire? && line in s.g.enabled && line in a.lines)
    ensures a.ServeEvent? ==> s.g.arms[line].head in Step(bank, s, a).superseded
  {
    hide PopOf, Play, Ids, Finished, RequestReply, ArmLine;
    match a
    case ServeEvent =>
    case ServeRequest =>
      if PopOf(s.mem, s.requests).Got? {
        RequestKeepsArms(bank, s.g, s.mem, PopOf(s.mem, s.requests).chain);
      }
    case Driver(_) =>
    case Fire(lines) => PollConserves(s.g, lines, 0);
  }

  // --- Where a completion's status goes -----------------------------------------------------------

  /** `arm` is for the chain `c`: its head, and the start of its device-writable buffer. */
  ghost predicate ArmOf(arm: Arm, c: Chain) {
    && |c.bufs| == 2 && !c.bufs[0].writable && c.bufs[1].writable
    && arm.head == c.head && arm.statusAddr == c.bufs[1].addr
  }

  ghost predicate ArmsPopped(s: System) {
    forall line :: line in s.g.arms ==> exists c :: c in s.chains && ArmOf(s.g.arms[line], c)
  }

  lemma StepKeepsArms(bank: Bank, s: System, a: Action)
    requires ArmsPopped(s)
    ensures ArmsPopped(Step(bank, s, a))
  {
    hide PopOf, Play, Finished, ChainEvents, Completions, FromLe2, Poll, RequestReply, ArmOf;
    var s' := Step(bank, s, a);
    match a
    case ServeEvent => EventKeepsArms(s);
    case ServeRequest =>
      if PopOf(s.mem, s.requests).Got? {
        RequestKeepsArms(bank, s.g, s.mem, PopOf(s.mem, s.requests).chain);
      }
    case Driver(_) =>
    case Fire(lines) => PollConserves(s.g, lines, 0);
  }

  lemma EventKeepsArms(s: System)
    requires ArmsPopped(s)
    ensures ArmsPopped(ServeEventTurn(s))
  {
    hide PopOf, Play, ChainEvents, Completions, FromLe2;
    var s' := ServeEventTurn(s);
    if PopOf(s.mem, s.events).Got? {
      var c := PopOf(s.mem, s.events).chain;
      assert s'.chains == s.chains + [c] && c in s'.chains;
      forall line | line in s'.g.arms
        ensures exists x :: x in s'.chains && ArmOf(s'.g.arms[line], x)
      {
        if ArmLine(s.mem, c) == Some(line) {
          assert ArmOf(s'.g.arms[line], c);
        } else {
          var x :| x in s.chains && ArmOf(s.g.arms[line], x);
          assert x in s'.chains;
        }
      }
    }
  }

  lemma {:induction false} RunKeepsArms(bank: Bank, s: System, actions: seq<Action>)
    requires Start(s)
    ensures ArmsPopped(Run(bank, s, actions))
    decreases |actions|
  {
    hide Step;
    if actions != [] {
      var n := |actions| - 1;
      RunKeepsArms(bank, s, actions[..n]);
      StepKeepsArms(bank, Run(bank, s, actions[..n]), actions[n]);
    }
  }

  /** Over every run, whenever lines fire: each completion is of a chain popped from the
      event queue, and its status byte, 1, goes to the start of that chain's device-writable
      buffer (and so into it exactly if the buffer has any room). */
  lemma StatusInBuffers(bank: Bank, s: System, actions: seq<Action>, lines: seq<u16>, done: Completion)
    requires Start(s) && done in Poll(Run(bank, s, actions).g, lines).1
    ensures exists c :: c in Run(bank, s, actions).chains && StatusFor(done, c)
  {
    hide Run, Poll, Start;
    var e := Run(bank, s, actions);
    RunKeepsArms(bank, s, actions);
    PublishedWereEnabled(e.g, lines, done);
    var line :| line in lines && line in e.g.enabled && line in e.g.arms && e.g.arms[line] == Arm(done.head, done.statusAddr);
    var c :| c in e.chains && ArmOf(e.g.arms[line], c);
    FinishedOne(done);
    assert StatusFor(done, c);
  }

  /** An event buffer with no room is held all the same, and its status byte then goes where
      the driver gave the device no byte to write. */
  lemma EmptyEventBuffer(m: Image, line: u16)
    requires |m| > 0x2000 && m[0x1000..0x1002] == Le2(line)
    ensures var c := Chain(0, [Buf(0x1000, 2, false), Buf(0x2000, 0, true)]);
            var g := ArmReply(Gpio(map[], {line}, []), m, c).dev;
            var done := Poll(g, [line]).1;
            && |done| == 1 && Finished(done)[0] == Store(Write(0x2000, [1]))
            && forall b :: b in c.bufs ==> !Inside(Write(0x2000, [1]), b)
  {
    var c := Chain(0, [Buf(0x1000, 2, false), Buf(0x2000, 0, true)]);
    hide Le2, FromLe2, Poll, Finished;
    Le2RoundTrip(line);
    assert m[c.bufs[0].addr..c.bufs[0].addr + 2] == m[0x1000..0x1002];
    var g := ArmReply(Gpio(map[], {line}, []), m, c).dev;
    PollOne(g, line);
    FinishedOne(Completion(0, 0x2000));
  }

  lemma FinishedOne(done: Completion)
    ensures Finished([done]) == [Store(Write(done.statusAddr, [1])), Complete(done.head, 1)]
  {
    assert [done][..0] == [] && Finished([]) == [];
  }

  /** Completing `done` stores one byte, 1, at the start of the device-writable buffer of
      `c`, and then publishes the head of `c` with length 1. */
  ghost predicate StatusFor(done: Completion, c: Chain) {
    && |c.bufs| == 2 && c.bufs[1].writable && done.head == c.head
    && var w := Write(done.statusAddr, [1]);
       && Finished([done]) == [Store(w), Complete(c.head, 1)]
       && w.addr == c.bufs[1].addr && (Inside(w, c.bufs[1]) <==> c.bufs[1].len > 0)
  }

  /** Several completions are finished one after another. */
  lemma {:induction false} FinishedConcat(a: seq<Completion>, b: seq<Completion>)
    ensures Finished(a + b) == Finished(a) + Finished(b)
    decreases |b|
  {
    if b == [] {
      assert a + b == a;
    } else {
      assert (a + b)[..|a + b| - 1] == a + b[..|b| - 1];
      FinishedConcat(a, b[..|b| - 1]);
    }
  }

  // --- What the plugin is asked -------------------------------------------------------------------

  ghost predicate Sensible(bank: Bank, call: BankCall) {
    && call.line < bank.ngpio
    && (call.SetDirection? ==> call.direction <= DIRECTION_IN)
    && (call.SetValue? ==> call.value <= 1)
  }

  /** Whatever requests the guest makes, the plugin is only ever asked about lines it has,
      and only told directions and values that exist. */
  lemma {:induction false} PluginAskedSensibly(bank: Bank, s: System, actions: seq<Action>)
    requires Start(s)
    ensures forall call :: call in Run(bank, s, actions).g.calls ==> Sensible(bank, call)
    decreases |actions|
  {
    if actions != [] {
      var n := |actions| - 1;
      PluginAskedSensibly(bank, s, actions[..n]);
      StepAsksSensibly(bank, Run(bank, s, actions[..n]), actions[n]);
    }
  }

  lemma StepAsksSensibly(bank: Bank, s: System, a: Action)
    requires forall call :: call in s.g.calls ==> Sensible(bank, call)
    ensures forall call :: call in Step(bank, s, a).g.calls ==> Sensible(bank, call)
  {
    hide PopOf, Play, Finished, ArmLine, ChainEvents, Completions, FromLe2;
    if a.Fire? {
      PollAsksNothing(s.g, a.lines);
    }
  }

  lemma {:induction false} PollAsksNothing(g: Gpio, fired: seq<u16>)
    ensures Poll(g, fired).0.calls == g.calls
    decreases |fired|
  {
    if fired != [] {
      PollAsksNothing(g, fired[..|fired| - 1]);
    }
  }

  // --- Draining the request queue -----------------------------------------------------------------

  function EventDevice(): Device<Gpio> {
    (g: Gpio, m: Image, c: Chain) => ArmReply(g, m, c)
  }

  /** A turn on the event queue is serving the chain popped from it. */
  lemma EventTurnServes(s: System)
    requires PopOf(s.mem, s.events).Got?
    ensures var c, s' := PopOf(s.mem, s.events).chain, ServeEventTurn(s);
            var (g, evs) := Serve(EventDevice(), s.events, s.g, s.mem, [c]);
            && s'.g == g && s'.mem == Play(s.mem, s.events, evs)
            && s'.events == AfterPop(s.events, PopOf(s.mem, s.events))
            && s'.published == s.published + Completions(evs)
            && s'.chains == s.chains + [c] && s'.popped == s.popped + [c.head]
  {
    hide PopOf, ArmReply, ChainEvents, Completions;
    var c := PopOf(s.mem, s.events).chain;
    var r := ArmReply(s.g, s.mem, c);
    assert ([c])[1..] == [];
    assert ChainEvents(r, c.head) + [] == ChainEvents(r, c.head);
    assert Serve(EventDevice(), s.events, r.dev, Play(s.mem, s.events, ChainEvents(r, c.head)), []) == (r.dev, []);
  }

  function RequestDevice(bank: Bank): Device<Gpio> {
    (g: Gpio, m: Image, c: Chain) => RequestReply(bank, g, m, c)
  }

  lemma RequestsStoreInBuffers(bank: Bank)
    ensures StoresInBuffers(RequestDevice(bank))
  {
    hide FromLe2;
    forall g: Gpio, m: Image, c: Chain, w: Write | w in RequestReply(bank, g, m, c).writes
      ensures exists b :: b in c.bufs && Inside(w, b)
    {
      assert c.bufs[1] in c.bufs && Inside(w, c.bufs[1]);
    }
  }

  function HeadsOf(chains: seq<Chain>): seq<u32> {
    seq(|chains|, i requires 0 <= i < |chains| => chains[i].head)
  }

  function IdsOf(es: seq<Entry>): seq<u32> {
    seq(|es|, i requires 0 <= i < |es| => es[i].id)
  }

  /** Every request is answered, in the order they were made. */
  lemma {:induction false} RequestsAllAnswered(bank: Bank, q: Queue, g: Gpio, m: Image, chains: seq<Chain>)
    ensures IdsOf(Completions(Serve(RequestDevice(bank), q, g, m, chains).1)) == HeadsOf(chains)
    decreases |chains|
  {
    hide Play, ChainEvents, Completions, RequestReply;
    if chains == [] {
      NothingServed(bank, q, g, m);
    } else {
      var c := chains[0];
      var r := RequestReply(bank, g, m, c);
      var events := ChainEvents(r, c.head);
      var rest := Serve(RequestDevice(bank), q, r.dev, Play(m, q, events), chains[1..]).1;
      RequestsAllAnswered(bank, q, r.dev, Play(m, q, events), chains[1..]);
      AnsweredAtOnce(bank, g, m, c);
      CompletionsConcat(events, rest);
      assert IdsOf(Completions(events + rest)) == [c.head] + HeadsOf(chains[1..]);
      assert [c.head] + HeadsOf(chains[1..]) == HeadsOf(chains);
    }
  }

  lemma NothingServed(bank: Bank, q: Queue, g: Gpio, m: Image)
    ensures IdsOf(Completions(Serve(RequestDevice(bank), q, g, m, []).1)) == []
  {}

  lemma AnsweredAtOnce(bank: Bank, g: Gpio, m: Image, c: Chain)
    ensures var done := Completions(ChainEvents(RequestReply(bank, g, m, c), c.head));
            |done| == 1 && done[0].id == c.head
  {
    hide FromLe2, Stores, Answer;
    var r := RequestReply(bank, g, m, c);
    ChainCompletions(r, c.head, []);
    assert [] + ChainEvents(r, c.head) == ChainEvents(r, c.head);
  }

  /** A kick of the request queue: every request there is answered, in order, although
      the answers go into the same guest memory the requests are read from. */
  method DrainRequests(gpio: VirtioGpio, queue: VirtQueue, mem: GuestMemory)
    returns (interrupt: bool, ghost events: seq<Event>)
    requires mem.Valid() && Headroom(queue.Spec())
    requires RingsApart(queue.Spec()) && BuffersApart(mem.Image(), queue.Spec())
    modifies gpio, queue, mem.cells
    ensures var requests := Handled(old(mem.Image()), old(queue.Spec()));
            && (gpio.Spec(), events) ==
               Serve(RequestDevice(gpio.bank), old(queue.Spec()), old(gpio.Spec()), old(mem.Image()), requests)
            && IdsOf(Completions(events)) == HeadsOf(requests)
            && interrupt == (requests != [])
    ensures queue.Spec() == AfterDrain(old(mem.Image()), old(queue.Spec()))
    ensures mem.Image() == Play(old(mem.Image()), old(queue.Spec()), events)
  {
    hide Serve, Handled, AfterDrain, Play, RingsApart, BuffersApart, Headroom, StoresInBuffers, Completions, RequestDevice;
    RequestsStoreInBuffers(gpio.bank);
    RequestsAllAnswered(gpio.bank, queue.Spec(), gpio.Spec(), mem.Image(), Handled(mem.Image(), queue.Spec()));
    var g := Gpio(gpio.pendingArms, gpio.irqEnabled, gpio.calls);
    g, interrupt, events := DrainQueue(true, queue, mem, RequestDevice(gpio.bank), g);
    gpio.pendingArms, gpio.irqEnabled, gpio.calls := g.arms, g.enabled, g.calls;
  }

  // --- On the ring ------------------------------------------------------------------------------

  /** Finishing deferred buffers: the status byte of each, then its ring entry. */
  method DrainCompletions(gpio: VirtioGpio, queue: VirtQueue, mem: GuestMemory, fired: seq<u16>) returns (interrupt: bool)
    requires mem.Valid() && Headroom(queue.Spec())
    modifies gpio, mem.cells
    ensures var (g, done) := Poll(old(gpio.Spec()), fired);
            && gpio.Spec() == g && interrupt == (done != [])
            && mem.Image() == Play(old(mem.Image()), queue.Spec(), Finished(done))
  {
    hide Poll, Play, Put, PushUsed;
    var done := gpio.PollCompletions(fired);
    PlayNothing(mem.Image(), queue.Spec());
    for i := 0 to |done|
      invariant (gpio.Spec(), done) == Poll(old(gpio.Spec()), fired)
      invariant mem.Image() == Play(old(mem.Image()), queue.Spec(), Finished(done[..i]))
    {
      var c := done[i];
      assert done[..i + 1][..i] == done[..i];
      PlayFinished(old(mem.Image()), queue.Spec(), Finished(done[..i]), c);
      var _ := mem.WriteChecked(c.statusAddr, [IRQ_STATUS_VALID]);
      PushUsedHead(queue, mem, c.head, 1);
    }
    assert done[..|done|] == done;
    interrupt := done != [];
  }

  lemma PlayFinished(m: Image, q: Queue, evs: seq<Event>, c: Completion)
    ensures Play(m, q, evs + [Store(Write(c.statusAddr, [IRQ_STATUS_VALID])), Complete(c.head, 1)]) ==
            PushUsed(Put(Play(m, q, evs), c.statusAddr, [IRQ_STATUS_VALID]), q, c.head, 1)
  {
    hide Put, PushUsed;
    var last := [Store(Write(c.statusAddr, [IRQ_STATUS_VALID])), Complete(c.head, 1)];
    PlayConcat(m, q, evs, last);
    var m1 := Play(m, q, evs);
    assert last[1..] == [Complete(c.head, 1)] && last[1..][1..] == [];
    assert Play(Effect(m1, q, last[0]), q, last[1..]) == Effect(Effect(m1, q, last[0]), q, last[1]);
  }

  /** Nothing but completions of event buffers touches the event queue's used ring. */
  ghost predicate KeepsRing(bank: Bank, s: System, a: Action) {
    var lo, hi := s.events.used, UsedEnd(s.events);
    match a
    case ServeEvent => true
    case Fire(lines) => AllAvoid(Finished(Poll(s.g, lines).1), lo, hi)
    case ServeRequest => Agree(s.mem, Step(bank, s, a).mem, lo, hi)
    case Driver(mem) => Agree(s.mem, mem, lo, hi)
  }

  ghost predicate RunKeepsRing(bank: Bank, s: System, actions: seq<Action>) {
    actions == [] ||
    (&& RunKeepsRing(bank, s, actions[..|actions| - 1])
     && KeepsRing(bank, Run(bank, s, actions[..|actions| - 1]), actions[|actions| - 1]))
  }

  lemma RingAgrees(m: Image, m': Image, q: Queue)
    requires UsedEnd(q) <= |m| && Agree(m, m', q.used, UsedEnd(q))
    ensures RingOf(m', q) == RingOf(m, q)
  {
    AgreeSlice(m, m', q.used, UsedEnd(q), q.used + 2, 2);
    hide EntryAt;
    forall i | 0 <= i < q.size
      ensures RingOf(m', q).slots[i] == RingOf(m, q).slots[i]
    {
      SlotAt(m, q, i);
      SlotAt(m', q, i);
      EntryElsewhere(m, m', q.used + 4 + 8 * i);
    }
    assert RingOf(m', q).slots == RingOf(m, q).slots;
  }

  lemma {:induction false} PublishAllConcat(r: Ring, a: seq<Entry>, b: seq<Entry>)
    requires r.slots != []
    ensures PublishAll(r, a + b) == PublishAll(PublishAll(r, a), b)
    decreases |b|
  {
    if b == [] {
      assert a + b == a;
    } else {
      assert (a + b)[..|a + b| - 1] == a + b[..|b| - 1];
      PublishAllConcat(r, a, b[..|b| - 1]);
    }
  }

  /** The used ring's place and size never change, only how far the device has read. */
  ghost predicate SameRing(q: Queue, p: Queue) {
    q == p.(lastAvail := q.lastAvail)
  }

  lemma RingOfSame(m: Image, q: Queue, p: Queue)
    requires SameRing(q, p) && UsedEnd(q) <= |m|
    ensures RingOf(m, q) == RingOf(m, p)
  {
    assert RingOf(m, q).slots == RingOf(m, p).slots;
  }

  lemma ArmStoresNothing(s: System, c: Chain)
    ensures AllAvoid(ChainEvents(ArmReply(s.g, s.mem, c), c.head), s.events.used, UsedEnd(s.events))
  {
    hide ArmLine;
  }

  lemma StepPublishes(bank: Bank, s: System, a: Action)
    requires Live(s.events) && UsedEnd(s.events) <= |s.mem| && KeepsRing(bank, s, a)
    ensures var s' := Step(bank, s, a);
            && SameRing(s'.events, s.events) && |s'.mem| == |s.mem|
            && s.published <= s'.published
            && RingOf(s'.mem, s.events) == PublishAll(RingOf(s.mem, s.events), s'.published[|s.published|..])
  {
    var q, s' := s.events, Step(bank, s, a);
    hide PopOf, Play, RingOf, PublishAll, Poll, Finished, RequestReply, ArmReply;
    PublishNone(RingOf(s.mem, q));
    match a
    case Driver(_) =>
      RingAgrees(s.mem, s'.mem, q);
      assert s'.published[|s.published|..] == [];
    case ServeRequest =>
      RingAgrees(s.mem, s'.mem, q);
      assert s'.published[|s.published|..] == [];
    case Fire(lines) =>
      var evs := Finished(Poll(s.g, lines).1);
      PlayPublishes(s.mem, q, evs);
      assert s'.published[|s.published|..] == Completions(evs);
    case ServeEvent =>
      if PopOf(s.mem, q).Got? {
        var c := PopOf(s.mem, q).chain;
        ArmStoresNothing(s, c);
        var evs := ChainEvents(ArmReply(s.g, s.mem, c), c.head);
        PlayPublishes(s.mem, q, evs);
        assert s'.published[|s.published|..] == Completions(evs);
      } else {
        assert s'.published[|s.published|..] == [];
      }
  }

  /** What the history calls published is what the driver finds on the used ring. */
  lemma {:induction false} PublishedOnRing(bank: Bank, s: System, actions: seq<Action>)
    requires Start(s) && Live(s.events) && UsedEnd(s.events) <= |s.mem| && RunKeepsRing(bank, s, actions)
    ensures var e := Run(bank, s, actions);
            && SameRing(e.events, s.events) && |e.mem| == |s.mem|
            && RingOf(e.mem, s.events) == PublishAll(RingOf(s.mem, s.events), e.published)
    decreases |actions|
  {
    hide Step, RingOf, PublishAll, KeepsRing;
    if actions == [] {
      PublishNone(RingOf(s.mem, s.events));
    } else {
      var n := |actions| - 1;
      PublishedOnRing(bank, s, actions[..n]);
      var m := Run(bank, s, actions[..n]);
      var e := Step(bank, m, actions[n]);
      StepPublishes(bank, m, actions[n]);
      RingOfSame(m.mem, m.events, s.events);
      RingOfSame(e.mem, m.events, s.events);
      PublishAllConcat(RingOf(s.mem, s.events), m.published, e.published[|m.published|..]);
      assert m.published + e.published[|m.published|..] == e.published;
    }
  }
}
