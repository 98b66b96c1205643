/** Software breakpoints: real memory holds 0xCC at armed addresses, while the
    debugger keeps seeing the program's own bytes. */
module GdbStubs {
  import opened Bytes
  import opened Memory

  const INT3: u8 := 0xCC
  const MAX_READ := 0x10_0000

  /** `logical` with the trap byte at the armed addresses, except the one being
      stepped over. */
  ghost function Overlay(logical: Image, armed: set<u64>, except: Option<u64>): (m: Image)
    ensures |m| == |logical|
  {
    seq(|logical|, i requires 0 <= i < |logical| => if i in armed && except != Some(i) then 0xCC else logical[i])
  }

  lemma PutByteAt(m: Image, a: nat, b: u8, i: nat)
    requires a < |m| && i < |m|
    ensures Put(m, a, [b])[i] == if i == a then b else m[i]
  {}

  /** Overwriting one byte of an overlay gives the overlay that differs there. */
  lemma OverlayByte(l: Image, s: set<u64>, e: Option<u64>, l': Image, s': set<u64>, e': Option<u64>, a: nat, b: u8)
    requires a < |l| == |l'| && Overlay(l', s', e')[a] == b
    requires forall i :: 0 <= i < |l| && i != a ==> Overlay(l', s', e')[i] == Overlay(l, s, e)[i]
    ensures Put(Overlay(l, s, e), a, [b]) == Overlay(l', s', e')
  {
    hide Overlay, Put;
    var m, m' := Put(Overlay(l, s, e), a, [b]), Overlay(l', s', e');
    forall i | 0 <= i < |l|
      ensures m[i] == m'[i]
    {
      PutByteAt(Overlay(l, s, e), a, b, i);
    }
  }

  lemma Arm(l: Image, s: set<u64>, a: u64)
    requires a < |l|
    ensures Put(Overlay(l, s, None), a, [INT3]) == Overlay(l, s + {a}, None)
  {
    OverlayByte(l, s, None, l, s + {a}, None, a, INT3);
  }

  /** Arming an address, whether or not it was armed: the byte found there becomes the
      program's. */
  lemma Rearm(l: Image, s: set<u64>, a: u64)
    requires a < |l|
    ensures Overlay(l, s, None)[a] == if a in s then INT3 else l[a]
    ensures var l' := if a in s then l[a := INT3] else l;
            Put(Overlay(l, s, None), a, [INT3]) == Overlay(l', s + {a}, None)
  {
    var l' := if a in s then l[a := INT3] else l;
    OverlayByte(l, s, None, l', s + {a}, None, a, INT3);
  }

  lemma Disarm(l: Image, s: set<u64>, a: u64)
    requires a < |l|
    ensures Put(Overlay(l, s, None), a, [l[a]]) == Overlay(l, s - {a}, None)
  {
    OverlayByte(l, s, None, l, s - {a}, None, a, l[a]);
  }

  lemma Uncover(l: Image, s: set<u64>, a: u64)
    requires a < |l| && a in s
    ensures Put(Overlay(l, s, None), a, [l[a]]) == Overlay(l, s, Some(a))
    ensures Put(Overlay(l, s, Some(a)), a, [INT3]) == Overlay(l, s, None)
  {
    OverlayByte(l, s, None, l, s, Some(a), a, l[a]);
    OverlayByte(l, s, Some(a), l, s, None, a, INT3);
  }

  lemma StoreThrough(l: Image, s: set<u64>, e: Option<u64>, a: u64, b: u8)
    requires a < |l| && a !in s
    ensures Put(Overlay(l, s, e), a, [b]) == Overlay(Put(l, a, [b]), s, e)
  {
    hide Put;
    var l' := Put(l, a, [b]);
    forall i | 0 <= i < |l|
      ensures l'[i] == if i == a then b else l[i]
    {
      PutByteAt(l, a, b, i);
    }
    OverlayByte(l, s, e, l', s, e, a, b);
  }

  predicate Within(a: u64, lo: nat, n: nat) {
    lo <= a < lo + n
  }

  function Outside(s: set<u64>, lo: nat, n: nat): set<u64> {
    set a | a in s && !Within(a, lo, n)
  }

  /** A plain write over an overlay clears the traps it covers. */
  lemma WriteOver(l: Image, s: set<u64>, addr: nat, data: seq<u8>)
    requires addr + |data| <= |l|
    ensures Put(Overlay(l, s, None), addr, data) ==
            Overlay(Put(l, addr, data), Outside(s, addr, |data|), None)
  {
    var m, m' := Put(Overlay(l, s, None), addr, data),
                 Overlay(Put(l, addr, data), Outside(s, addr, |data|), None);
    assert forall i :: 0 <= i < |l| ==> m[i] == m'[i];
  }

  // --- The debugger's commands ----------------------------------------------------

  datatype Packet =
    | MemRead(addr: u64, len: u64)
    | MemWrite(addr: u64, data: Payload)
    | BpInsert(addr: u64)
    | BpRemove(addr: u64)
    | Continue(at: Option<u64>)
    | SingleStep(at: Option<u64>)
    | RegRead
    | RegWrite(rip: u64)
    | Detach
    | Kill
    | StopQuery
    | FeatureQuery
    | NoAckMode
    | BadArgument
    | Unsupported

  /** `Registers` stands for the register bytes, which are the vCPU's. */
  datatype Reply = Data(bytes: seq<u8>) | Registers | StopReply | Features | OkReply | Error | Empty | NoReply

  /** What the vCPU's guest-debug control was last set to. */
  datatype Control = Disabled | Enabled(singleStep: bool)

  datatype DebugAction = Stop | ForwardToGuest | Resumed

  /** A debugger on plain memory, with no breakpoints to hide. */
  function PlainStep(m: Image, p: Packet): (Image, Reply) {
    match p
    case MemRead(a, n) => (m, if n <= 0x10_0000 && a + n <= |m| then Data(m[a..a + n]) else Error)
    case MemWrite(a, data) => (Put(m, a, data), if a + |data| <= |m| then OkReply else Error)
    case BpInsert(a) => (m, if a < |m| then OkReply else Error)
    case BpRemove(_) => (m, OkReply)
    case Detach => (m, OkReply)
    case RegRead => (m, Registers)
    case StopQuery => (m, StopReply)
    case FeatureQuery => (m, Features)
    case RegWrite(_) => (m, OkReply)
    case NoAckMode => (m, OkReply)
    case BadArgument => (m, Error)
    case Unsupported => (m, Empty)
    case Continue(_) => (m, NoReply)
    case SingleStep(_) => (m, NoReply)
    case Kill => (m, NoReply)
  }

  function PlainRun(m: Image, ps: seq<Packet>): (Image, seq<Reply>) {
    if ps == [] then (m, [])
    else
      var (m1, rs) := PlainRun(m, ps[..|ps| - 1]);
      var (m2, r) := PlainStep(m1, ps[|ps| - 1]);
      (m2, rs + [r])
  }

  function RipAfter(rip: u64, p: Packet): u64 {
    match p
    case RegWrite(to) => to
    case Continue(Some(at)) => at
    case SingleStep(Some(at)) => at
    case _ => rip
  }

  /** Whether a step is what the debugger last asked for. */
  function AskedAfter(asked: bool, p: Packet): bool {
    if Ends(p) then p.SingleStep? else asked
  }

  /** The armed addresses after one command, and after a run of them. */
  function ArmedStep(armed: set<u64>, size: nat, p: Packet): set<u64> {
    match p
    case BpInsert(a) => if a < size then armed + {a} else armed
    case BpRemove(a) => armed - {a}
    case Detach => {}
    case _ => armed
  }

  function ArmedAfter(armed: set<u64>, size: nat, ps: seq<Packet>): set<u64> {
    if ps == [] then armed else ArmedStep(ArmedAfter(armed, size, ps[..|ps| - 1]), size, ps[|ps| - 1])
  }

  function AskedIn(asked: bool, ps: seq<Packet>): bool {
    if ps == [] then asked else AskedAfter(AskedIn(asked, ps[..|ps| - 1]), ps[|ps| - 1])
  }

  /** No breakpoint is set where one already is. */
  predicate NoRearm(armed: set<u64>, size: nat, ps: seq<Packet>) {
    ps == [] ||
    (&& NoRearm(armed, size, ps[..|ps| - 1])
     && (ps[|ps| - 1].BpInsert? ==> ps[|ps| - 1].addr !in ArmedAfter(armed, size, ps[..|ps| - 1])))
  }

  /** A command that ends the conversation until the next stop. */
  predicate Ends(p: Packet) {
    p.Continue? || p.SingleStep? || p.Detach? || p.Kill?
  }

  /** A command on memory or breakpoints. */
  predicate OnMemory(p: Packet) {
    p.MemRead? || p.MemWrite? || p.BpInsert? || p.BpRemove?
  }

  // --- Whole sessions ------------------------------------------------------------

  datatype Event =
    | Store(addr: u64, byte: u8)
    | DebugExit(pc: u64, rip: u64)
    | Serve(packets: seq<Packet>)

  /** The commands served from `ps`: up to the first that ends the conversation. */
  function Served(ps: seq<Packet>): seq<Packet> {
    if ps == [] then [] else if Ends(ps[0]) then [ps[0]] else [ps[0]] + Served(ps[1..])
  }

  /** One event on a machine without breakpoints: what it does to memory. */
  function PlainEvent(m: Image, e: Event): Image {
    match e
    case Store(a, b) => Put(m, a, [b])
    case DebugExit(_, _) => m
    case Serve(ps) => PlainRun(m, Served(ps)).0
  }

  /** Memory after the same session on a machine without breakpoints. */
  function PlainSession(m: Image, es: seq<Event>): Image {
    if es == [] then m else PlainEvent(PlainSession(m, es[..|es| - 1]), es[|es| - 1])
  }

  function AskedEvent(asked: bool, e: Event): bool {
    if e.Serve? then AskedIn(asked, Served(e.packets)) else asked
  }

  /** Whether a step is what the debugger asked for, after a session. */
  function SessionAsked(asked: bool, es: seq<Event>): bool {
    if es == [] then asked else AskedEvent(SessionAsked(asked, es[..|es| - 1]), es[|es| - 1])
  }

  function ArmedEvent(armed: set<u64>, size: nat, e: Event): set<u64> {
    if e.Serve? then ArmedAfter(armed, size, Served(e.packets)) else armed
  }

  /** The armed addresses after a session. */
  function SessionArmed(armed: set<u64>, size: nat, es: seq<Event>): set<u64> {
    if es == [] then armed else ArmedEvent(SessionArmed(armed, size, es[..|es| - 1]), size, es[|es| - 1])
  }

  /** A stop at event `i` is due: a step was asked for, or `pc` is at a breakpoint. */
  predicate StopDue(asked: bool, armed: set<u64>, size: nat, es: seq<Event>, i: nat)
    requires i < |es| && es[i].DebugExit?
  {
    SessionAsked(asked, es[..i]) || es[i].pc in SessionArmed(armed, size, es[..i])
  }

  /** Every stop reported is due, and a step that was asked for is reported at the very
      next debug exit. */
  ghost predicate StopsRight(asked: bool, armed: set<u64>, size: nat, es: seq<Event>, n: nat, stops: set<nat>)
    requires n <= |es|
  {
    && (forall i :: i in stops ==> i < n && es[i].DebugExit? && StopDue(asked, armed, size, es, i))
    && forall i :: 0 <= i < n && es[i].DebugExit? && SessionAsked(asked, es[..i]) ==> i in stops
  }

  class GdbStub {
    const mem: GuestMemory
    var breakpoints: map<u64, u8>
    var attached: bool
    var stopped: bool
    var killed: bool
    var wasStepping: bool
    var pendingStepOver: Option<u64>
    var resumeAfterStepOver: bool
    var noAck: bool
    /** The vCPU's, of which the stub reads and sets these two. */
    var rip: u64
    var control: Control
    /** Memory as the debugger and the guest mean it. */
    ghost var logical: Image
    /** History: whether the last stop reported was a completed step, and whether the
        debugger has ever let the guest go. */
    ghost var lastStopWasStep: bool
    ghost var everResumed: bool
    /** History: whether the command that last let the guest go was a step. */
    ghost var askedStep: bool

    predicate Stepping()
      reads this`control
    {
      control.Enabled? && control.singleStep
    }

    /** The shadow map holds the program's bytes under the traps in memory. */
    ghost predicate Overlaid()
      reads this`breakpoints, this`logical, this`pendingStepOver, mem.cells
    {
      && mem.Valid() && |logical| == mem.cells.Length
      && (forall a :: a in breakpoints ==> a < |logical| && breakpoints[a] == logical[a])
      && mem.Image() == Overlay(logical, breakpoints.Keys, pendingStepOver)
      && (pendingStepOver.Some? ==> pendingStepOver.value in breakpoints)
    }

    ghost predicate Valid()
      reads this, mem.cells
    {
      && Overlaid()
      && (pendingStepOver.Some? ==> wasStepping)
      && (wasStepping ==> !stopped && attached)
      && (stopped || !attached ==> (Stepping() <==> lastStopWasStep))
      && (!stopped && !attached ==> breakpoints == map[])
      && (control.Disabled? <==> !everResumed)
      && (!stopped ==> StepsAsAsked())
    }

    /** A step that was asked for is being taken, and is reported when done; after a
        continue, or a detach, the only steps are the stub's own over a breakpoint. */
    ghost predicate StepsAsAsked()
      reads this`askedStep, this`wasStepping, this`pendingStepOver, this`resumeAfterStepOver
    {
      if askedStep then wasStepping && (pendingStepOver.Some? ==> !resumeAfterStepOver)
      else wasStepping ==> pendingStepOver.Some? && resumeAfterStepOver
    }

    /** With nothing being stepped over, every trap is in place. */
    lemma TrapsInPlace()
      requires Overlaid() && pendingStepOver.None?
      ensures forall a :: a in breakpoints ==> a < mem.cells.Length && mem.cells[a] == INT3
    {
      forall a | a in breakpoints
        ensures a < mem.cells.Length && mem.cells[a] == INT3
      {
        assert mem.cells[a] == mem.Image()[a];
      }
    }

    /** Puts the original byte back at an armed address. */
    method LiftTrap(addr: u64)
      requires Overlaid() && pendingStepOver.None? && addr in breakpoints
      modifies this`pendingStepOver, mem.cells
      ensures Overlaid() && pendingStepOver == Some(addr) && addr < mem.cells.Length && mem.cells[addr] == logical[addr]
    {
      hide Put;
      Uncover(logical, breakpoints.Keys, addr);
      var _ := mem.WriteChecked(addr, [breakpoints[addr]]);
      pendingStepOver := Some(addr);
      assert mem.cells[addr] == mem.Image()[addr];
    }

    /** And the trap again, once the instruction there has been executed. */
    method SetTrap(addr: u64)
      requires Overlaid() && pendingStepOver == Some(addr)
      modifies this`pendingStepOver, mem.cells
      ensures Overlaid() && pendingStepOver.None?
    {
      hide Put;
      Uncover(logical, breakpoints.Keys, addr);
      var _ := mem.WriteChecked(addr, [INT3]);
      pendingStepOver := None;
    }

    /** The guest may be entered; while attached, single-stepping is armed as the
        stub expects. (Detaching leaves guest debugging as it was armed.) */
    ghost predicate Running()
      reads this
    {
      !stopped && (attached ==> Stepping() == wasStepping)
    }

    constructor (mem: GuestMemory, rip: u64)
      requires mem.Valid()
      ensures Valid() && this.mem == mem && logical == mem.Image() && this.rip == rip
      ensures breakpoints == map[] && attached && stopped && !lastStopWasStep && !everResumed && !askedStep
    {
      this.mem, this.rip := mem, rip;
      breakpoints, attached, stopped, killed, noAck := map[], true, true, false, false;
      wasStepping, pendingStepOver, resumeAfterStepOver, control := false, None, false, Disabled;
      logical, lastStopWasStep, everResumed, askedStep := mem.Image(), false, false, false;
      new;
      assert mem.Image() == Overlay(logical, {}, None);
    }

    /** A store by the guest or a device to a byte that is not armed. */
    method GuestStore(a: u64, b: u8)
      requires Valid() && a < mem.cells.Length && a !in breakpoints
      modifies mem.cells, this`logical
      ensures Valid() && logical == Put(old(logical), a, [b])
    {
      hide Overlay, Put;
      StoreThrough(logical, breakpoints.Keys, pendingStepOver, a, b);
      var _ := mem.WriteChecked(a, [b]);
      logical := Put(logical, a, [b]);
      ShadowsKept(old(logical), logical, a, b);
    }

    lemma ShadowsKept(l: Image, l': Image, a: u64, b: u8)
      requires a < |l| && l' == Put(l, a, [b])
      ensures forall i :: 0 <= i < |l| && i != a ==> l'[i] == l[i]
    {}

    /** A step of the stub's own is done, and the guest is to go on. */
    ghost predicate AfterStep()
      reads this, mem.cells
    {
      Overlaid() && pendingStepOver.None? && !wasStepping && !stopped && attached && everResumed && control.Enabled?
    }

    /** Arms guest debugging for the next entry. On one of its own armed addresses
        the stub puts the original byte back and forces a step over it. */
    method Resume(singleStep: bool)
      requires ((Valid() && stopped) || AfterStep()) && attached && askedStep == singleStep
      modifies this`pendingStepOver, this`resumeAfterStepOver, this`wasStepping, this`stopped,
               this`control, this`everResumed, mem.cells
      ensures Valid() && Running() && everResumed
      ensures pendingStepOver == if rip in breakpoints then Some(rip) else None
      ensures wasStepping == Stepping() == (singleStep || rip in breakpoints)
      ensures rip in breakpoints ==> mem.cells[rip] == logical[rip] && resumeAfterStepOver == !singleStep
      ensures !Stepping() ==> forall a :: a in breakpoints ==> mem.cells[a] == INT3
    {
      hide Overlaid;
      var steppingOver := rip in breakpoints;
      if steppingOver {
        LiftTrap(rip);
        resumeAfterStepOver := !singleStep;
      } else {
        TrapsInPlace();
        pendingStepOver := None;
      }
      control := Enabled(singleStep || steppingOver);
      everResumed := true;
      wasStepping := singleStep || steppingOver;
      stopped := false;
    }

    /** A debug exit at `pc`; `rip` is where the vCPU then is. A step the stub took
        on its own account for a continue reports nothing; every other stop of its
        own reports once; a trap that is not the stub's goes back to the guest. What was
        armed for the last entry stays armed through a stop: stepping after a step's,
        not stepping after a breakpoint's. */
    method HandleDebugExit(pc: u64, rip: u64) returns (action: DebugAction, stopReports: nat)
      requires Valid() && Running()
      modifies this`pendingStepOver, this`resumeAfterStepOver, this`wasStepping, this`stopped,
               this`rip, this`control, this`lastStopWasStep, this`everResumed, mem.cells
      ensures Valid() && this.rip == rip && (everResumed <==> old(everResumed) || action.Resumed?)
      ensures action ==
              if old(wasStepping) then
                if old(pendingStepOver).Some? && old(resumeAfterStepOver) then Resumed else Stop
              else if pc in breakpoints then Stop
              else ForwardToGuest
      ensures stopReports == if action.Stop? then 1 else 0
      ensures if action.Stop? then stopped else Running()
      ensures action.Stop? ==> pendingStepOver.None? && forall a :: a in breakpoints ==> mem.cells[a] == INT3
      ensures action.Stop? ==> lastStopWasStep == Stepping() == old(wasStepping)
      ensures !action.Stop? ==> lastStopWasStep == old(lastStopWasStep)
      ensures !action.Resumed? ==> control == old(control)
      ensures action.Resumed? ==>
                && pendingStepOver == (if rip in breakpoints then Some(rip) else None)
                && wasStepping == Stepping() == (rip in breakpoints) && (rip in breakpoints ==> resumeAfterStepOver)
      ensures action.Stop? ==> if askedStep then old(wasStepping) else pc in breakpoints
      ensures askedStep ==> action.Stop?
      ensures action.ForwardToGuest? ==>
                pendingStepOver == old(pendingStepOver) && wasStepping == old(wasStepping) && mem.Image() == old(mem.Image())
      ensures !attached ==> action.ForwardToGuest?
    {
      hide Overlaid;
      stopReports := 0;
      this.rip := rip;
      if wasStepping {
        wasStepping := false;
        if pendingStepOver.Some? {
          SetTrap(pendingStepOver.value);
          if resumeAfterStepOver {
            Resume(false);
            return Resumed, 0;
          }
        }
        stopped, lastStopWasStep := true, true;
        TrapsInPlace();
        return Stop, 1;
      }
      if pc in breakpoints {
        stopped, lastStopWasStep := true, false;
        TrapsInPlace();
        return Stop, 1;
      }
      action := ForwardToGuest;
    }

    /** `Z0`. On an address that is already armed the trap byte itself is taken for
        the program's: the one case in which the debugger's view changes. */
    method InsertBreakpoint(addr: u64) returns (reply: Reply)
      requires Valid() && stopped && attached
      modifies this`breakpoints, this`logical, mem.cells
      ensures Valid() && |logical| == |old(logical)|
      ensures reply == if addr < |old(logical)| then OkReply else Error
      ensures breakpoints.Keys == old(breakpoints.Keys) + if addr < |old(logical)| then {addr} else {}
      ensures logical == if addr in old(breakpoints) then old(logical)[addr := INT3] else old(logical)
      ensures logical == old(logical) <==> addr in old(breakpoints) ==> old(logical)[addr] == INT3
    {
      hide Overlay, Put;
      var orig := mem.ReadChecked(addr, 1);
      if orig.None? {
        return Error;
      }
      var byte := orig.value[0];
      assert byte == mem.Image()[addr];
      if addr in breakpoints {
        logical := logical[addr := INT3];
      }
      Rearm(old(logical), breakpoints.Keys, addr);
      breakpoints := breakpoints[addr := byte];
      assert breakpoints.Keys == old(breakpoints.Keys) + {addr};
      var _ := mem.WriteChecked(addr, [INT3]);
      reply := OkReply;
    }

    /** `z0`. */
    method RemoveBreakpoint(addr: u64) returns (reply: Reply)
      requires Valid() && stopped && attached
      modifies this`breakpoints, mem.cells
      ensures Valid() && reply == OkReply
      ensures breakpoints.Keys == old(breakpoints.Keys) - {addr}
    {
      hide Overlay, Put;
      if addr in breakpoints {
        var orig := breakpoints[addr];
        Disarm(logical, breakpoints.Keys, addr);
        breakpoints := breakpoints - {addr};
        assert breakpoints.Keys == old(breakpoints.Keys) - {addr};
        var _ := mem.WriteChecked(addr, [orig]);
      }
      reply := OkReply;
    }

    /** `m`: the bytes the program has, not the traps. */
    method ReadMemory(addr: u64, len: u64) returns (reply: Reply)
      requires Valid() && stopped && attached
      ensures reply == PlainStep(logical, MemRead(addr, len)).1
    {
      if len > MAX_READ {
        return Error;
      }
      var read := mem.ReadChecked(addr, len);
      if read.None? {
        return Error;
      }
      var buf := read.value;
      var todo := breakpoints.Keys;
      while todo != {}
        invariant todo <= breakpoints.Keys
        invariant buf == Overlay(logical, todo, None)[addr..addr + len]
        decreases todo
      {
        var bp :| bp in todo;
        if Within(bp, addr, len) {
          buf := buf[bp - addr := breakpoints[bp]];
        }
        todo := todo - {bp};
      }
      assert Overlay(logical, {}, None) == logical;
      reply := Data(buf);
    }

    /** `M`: a plain write, under which the traps stay armed. */
    method WriteMemory(addr: u64, data: Payload) returns (reply: Reply)
      requires Valid() && stopped && attached
      modifies this`breakpoints, this`logical, mem.cells
      ensures Valid() && |logical| == |old(logical)|
      ensures (logical, reply) == PlainStep(old(logical), MemWrite(addr, data))
      ensures breakpoints.Keys == old(breakpoints.Keys)
    {
      hide Overlay, Put, Rewritten, Retrapped;
      ghost var l, keys := logical, breakpoints.Keys;
      var ok := mem.WriteChecked(addr, data);
      if !ok {
        PutOutOfRange(logical, old(mem.Image()), addr, data);
        return Error;
      }
      WriteOver(l, keys, addr, data);
      logical := Put(logical, addr, data);
      var todo := breakpoints.Keys;
      RewriteStarts(breakpoints, l, addr, data);
      while todo != {}
        invariant todo <= keys == breakpoints.Keys && logical == Put(l, addr, data)
        invariant Rewritten(breakpoints, l, addr, data, todo)
        invariant mem.Image() == Overlay(logical, Retrapped(keys, todo, addr, |data|), None)
        decreases todo
      {
        var bp :| bp in todo;
        RewriteStep(breakpoints, l, addr, data, todo, bp);
        if Within(bp, addr, |data|) {
          Arm(logical, Retrapped(keys, todo, addr, |data|), bp);
          breakpoints := breakpoints[bp := data[bp - addr]];
          assert breakpoints.Keys == keys;
          var _ := mem.WriteChecked(bp, [INT3]);
        }
        todo := todo - {bp};
      }
      RewriteEnds(breakpoints, l, addr, data);
      reply := OkReply;
    }

    /** `D`: every byte the program's own again. Guest debugging is left as it was armed
        for the last entry: it is off exactly if the guest was never let go, and stepping
        is off exactly if the last stop was not a step's. */
    method Detach()
      requires Valid() && stopped && attached && !askedStep
      modifies this`breakpoints, this`attached, this`stopped, mem.cells
      ensures Valid() && breakpoints == map[] && !attached && !stopped
      ensures mem.Image() == logical
      ensures !Stepping() <==> !lastStopWasStep
      ensures control.Disabled? <==> !everResumed
    {
      hide Put;
      var todo := breakpoints.Keys;
      while todo != {}
        invariant breakpoints == old(breakpoints) && todo <= breakpoints.Keys
        invariant mem.Image() == Overlay(logical, todo, None)
        decreases todo
      {
        var bp :| bp in todo;
        Disarm(logical, todo, bp);
        var _ := mem.WriteChecked(bp, [breakpoints[bp]]);
        todo := todo - {bp};
      }
      breakpoints := map[];
      attached, stopped := false, false;
      assert Overlay(logical, {}, None) == logical;
    }

    method HandlePacket(p: Packet) returns (reply: Reply)
      requires Valid() && stopped && attached
      modifies this, mem.cells
      ensures Valid() && |logical| == |old(logical)| && lastStopWasStep == old(lastStopWasStep)
      ensures breakpoints.Keys == ArmedStep(old(breakpoints.Keys), |logical|, p)
      ensures !(p.BpInsert? && p.addr in old(breakpoints)) ==> (logical, reply) == PlainStep(old(logical), p)
      ensures stopped == !(p.Continue? || p.SingleStep? || p.Detach?) && attached == !(p.Detach? || p.Kill?)
      ensures stopped || Running()
      ensures rip == RipAfter(old(rip), p) && (noAck <==> old(noAck) || p.NoAckMode?) && (killed <==> old(killed) || p.Kill?)
      ensures p.Continue? || p.SingleStep? ==>
                && Running() && wasStepping == Stepping() == (p.SingleStep? || rip in breakpoints)
                && pendingStepOver == (if rip in breakpoints then Some(rip) else None)
                && (rip in breakpoints ==> resumeAfterStepOver == p.Continue?)
      ensures !(p.Continue? || p.SingleStep?) ==> control == old(control)
      ensures askedStep == AskedAfter(old(askedStep), p)
      ensures p.Detach? ==> mem.Image() == logical && Running() && breakpoints == map[]
    {
      hide Overlaid, Put;
      if OnMemory(p) {
        reply := HandleMemoryPacket(p);
        return;
      }
      if Ends(p) {
        reply := HandleEndingPacket(p);
        return;
      }
      match p
      case RegRead => reply := Registers;
      case RegWrite(to) =>
        ApplyResumeAddress(Some(to));
        reply := OkReply;
      case StopQuery => reply := StopReply;
      case FeatureQuery => reply := Features;
      case NoAckMode =>
        StopAcking();
        reply := OkReply;
      case BadArgument => reply := Error;
      case Unsupported => reply := Empty;
    }

    /** The commands after which the guest goes on, or the session is over. */
    method HandleEndingPacket(p: Packet) returns (reply: Reply)
      requires Valid() && stopped && attached && Ends(p)
      modifies this, mem.cells
      ensures Valid() && logical == old(logical) && lastStopWasStep == old(lastStopWasStep)
      ensures reply == if p.Detach? then OkReply else NoReply
      ensures breakpoints == if p.Detach? then map[] else old(breakpoints)
      ensures stopped == p.Kill? && attached == (p.Continue? || p.SingleStep?) && (stopped || Running())
      ensures rip == RipAfter(old(rip), p) && noAck == old(noAck) && (killed <==> old(killed) || p.Kill?)
      ensures askedStep == p.SingleStep?
      ensures p.Continue? || p.SingleStep? ==>
                && Running() && wasStepping == Stepping() == (p.SingleStep? || rip in breakpoints)
                && pendingStepOver == (if rip in breakpoints then Some(rip) else None)
                && (rip in breakpoints ==> resumeAfterStepOver == p.Continue?)
      ensures p.Detach? || p.Kill? ==> control == old(control)
      ensures p.Detach? ==> mem.Image() == logical && Running()
    {
      hide Overlaid, Put;
      match p
      case Continue(at) =>
        ApplyResumeAddress(at);
        Asked(false);
        Resume(false);
        reply := NoReply;
      case SingleStep(at) =>
        ApplyResumeAddress(at);
        Asked(true);
        Resume(true);
        reply := NoReply;
      case Detach =>
        Asked(false);
        Detach();
        reply := OkReply;
      case Kill =>
        Asked(false);
        Kill();
        reply := NoReply;
    }

    method HandleMemoryPacket(p: Packet) returns (reply: Reply)
      requires Valid() && stopped && attached && OnMemory(p)
      modifies this`breakpoints, this`logical, mem.cells
      ensures Valid() && |logical| == |old(logical)|
      ensures breakpoints.Keys == ArmedStep(old(breakpoints.Keys), |logical|, p)
      ensures !(p.BpInsert? && p.addr in old(breakpoints)) ==> (logical, reply) == PlainStep(old(logical), p)
    {
      hide Valid, Put;
      match p
      case MemRead(a, n) => reply := ReadMemory(a, n);
      case MemWrite(a, data) => reply := WriteMemory(a, data);
      case BpInsert(a) => reply := InsertBreakpoint(a);
      case BpRemove(a) => reply := RemoveBreakpoint(a);
    }

    ghost method Asked(step: bool)
      requires Valid() && stopped
      modifies this`askedStep
      ensures Valid() && askedStep == step
    {
      askedStep := step;
    }

    method Kill()
      requires Valid() && stopped
      modifies this`killed, this`attached
      ensures Valid() && killed && !attached
    {
      killed, attached := true, false;
    }

    method StopAcking()
      requires Valid()
      modifies this`noAck
      ensures Valid() && noAck
    {
      noAck := true;
    }

    method ApplyResumeAddress(at: Option<u64>)
      requires Valid()
      modifies this`rip
      ensures Valid() && rip == if at.Some? then at.value else old(rip)
    {
      if at.Some? {
        rip := at.value;
      }
    }

    /** The comment on detaching promises a guest that runs untrapped. After a step's stop
        it does not: stepping stays armed, and every later debug exit, one for each
        instruction, is taken for the guest's own and injected as a breakpoint. */
    method StepStopDetach(pc: u64, rip: u64, exits: seq<(u64, u64)>) returns (actions: seq<DebugAction>)
      requires Valid() && stopped && attached
      modifies this, mem.cells
      ensures Valid() && !attached && Stepping() && mem.Image() == logical
      ensures actions == [Stop] + seq(|exits|, _ => ForwardToGuest)
    {
      hide Overlay, Put;
      var _ := HandlePacket(SingleStep(None));
      var stop, _ := HandleDebugExit(pc, rip);
      var _ := HandlePacket(Packet.Detach);
      actions := [stop];
      var rest: seq<DebugAction> := AfterDetach(exits);
      actions := actions + rest;
    }

    /** Once detached, every debug exit goes to the guest and guest debugging stays as it is. */
    method AfterDetach(exits: seq<(u64, u64)>) returns (actions: seq<DebugAction>)
      requires Valid() && !attached && Running()
      modifies this, mem.cells
      ensures Valid() && !attached && Running() && mem.Image() == old(mem.Image())
      ensures control == old(control) && logical == old(logical)
      ensures actions == seq(|exits|, _ => ForwardToGuest)
    {
      hide Overlay, Put;
      actions := [];
      for i := 0 to |exits|
        invariant Valid() && !attached && Running() && mem.Image() == old(mem.Image())
        invariant control == old(control) && logical == old(logical)
        invariant actions == seq(i, _ => ForwardToGuest)
      {
        var action, _ := HandleDebugExit(exits[i].0, exits[i].1);
        actions := actions + [action];
      }
    }

    /** Serves commands until one resumes the guest or ends the session. To the
        debugger the stub is a debugger on plain memory: every reply and the final
        memory are those of the reference that has no breakpoints. */
    method ServeUntilResume(packets: seq<Packet>) returns (replies: seq<Reply>, n: nat)
      requires Valid() && stopped && attached
      modifies this, mem.cells
      ensures Valid() && |logical| == |old(logical)| && n <= |packets|
      ensures stopped || Running()
      ensures packets[..n] == Served(packets)
      ensures breakpoints.Keys == ArmedAfter(old(breakpoints.Keys), |logical|, packets[..n])
      ensures NoRearm(old(breakpoints.Keys), |logical|, packets[..n]) ==>
                (logical, replies) == PlainRun(old(logical), packets[..n])
      ensures n < |packets| ==> !(stopped && attached)
      ensures askedStep == AskedIn(old(askedStep), packets[..n])
    {
      hide Valid, PlainStep, PlainRun, ArmedStep, ArmedAfter, NoRearm, Served, Running, AskedAfter, AskedIn;
      replies, n := [], 0;
      assert packets[0..] == packets && packets[..0] == [] && [] + Served(packets) == Served(packets);
      NoPackets(logical, breakpoints.Keys, askedStep);
      while stopped && attached && n < |packets|
        invariant Valid() && |logical| == |old(logical)| && n <= |packets|
        invariant stopped || Running()
        invariant breakpoints.Keys == ArmedAfter(old(breakpoints.Keys), |logical|, packets[..n])
        invariant NoRearm(old(breakpoints.Keys), |logical|, packets[..n]) ==>
                    (logical, replies) == PlainRun(old(logical), packets[..n])
        invariant askedStep == AskedIn(old(askedStep), packets[..n])
        invariant Served(packets) == packets[..n] + if stopped && attached then Served(packets[n..]) else []
        decreases |packets| - n
      {
        OneMorePacket(old(logical), old(breakpoints.Keys), old(askedStep), packets, n);
        var reply := HandlePacket(packets[n]);
        replies := replies + [reply];
        n := n + 1;
      }
      assert n == |packets| ==> packets[n..] == [] && packets[..n] + [] == packets[..n];
    }

    /** An event that cannot happen now, or sets a breakpoint where one already is. */
    ghost predicate Barred(e: Event)
      reads this
    {
      match e
      case Store(a, _) => a >= |logical| || a in breakpoints
      case DebugExit(_, _) => stopped
      case Serve(packets) => !stopped || !attached || !NoRearm(breakpoints.Keys, |logical|, Served(packets))
    }

    /** Any interleaving of guest and device stores, debug exits and conversations,
        up to the first event that cannot happen or re-arms an armed address: the
        program's memory is what it would be had no breakpoint ever been set; and after
        a continue the guest is reported stopped only at a breakpoint, after a step at
        the next exit. `stops` are the events at which a stop is reported. */
    method Session(events: seq<Event>) returns (n: nat, stops: set<nat>)
      requires Valid() && (stopped || Running())
      modifies this, mem.cells
      ensures Valid() && |logical| == |old(logical)| && n <= |events|
      ensures logical == PlainSession(old(logical), events[..n])
      ensures StopsRight(old(askedStep), old(breakpoints.Keys), |logical|, events, n, stops)
      ensures n < |events| ==> Barred(events[n])
      ensures stopped || Running()
      ensures pendingStepOver.Some? ==> Stepping() && pendingStepOver.value in breakpoints
      ensures attached && !stopped && !Stepping() ==> forall a :: a in breakpoints ==> a < mem.cells.Length && mem.cells[a] == INT3
      ensures !attached ==> (Stepping() <==> lastStopWasStep) && (control.Disabled? <==> !everResumed)
    {
      hide Valid, Running, PlainEvent, AskedEvent, ArmedEvent, StopsRight, Barred;
      n, stops := 0, {};
      assert events[..0] == [];
      NoStops(askedStep, breakpoints.Keys, |logical|, events);
      while n < |events|
        invariant Valid() && |logical| == |old(logical)| && n <= |events|
        invariant stopped || Running()
        invariant logical == PlainSession(old(logical), events[..n])
        invariant askedStep == SessionAsked(old(askedStep), events[..n])
        invariant breakpoints.Keys == SessionArmed(old(breakpoints.Keys), |logical|, events[..n])
        invariant StopsRight(old(askedStep), old(breakpoints.Keys), |logical|, events, n, stops)
      {
        assert events[..n + 1][..n] == events[..n];
        var barred, stop := HandleEvent(events[n]);
        if barred {
          break;
        }
        OneMoreEvent(old(askedStep), old(breakpoints.Keys), |logical|, events, n, stops, stop);
        stops := if stop then stops + {n} else stops;
        n := n + 1;
      }
      Steady();
    }

    /** One event, unless it is barred. */
    method HandleEvent(e: Event) returns (barred: bool, stop: bool)
      requires Valid() && (stopped || Running())
      modifies this, mem.cells
      ensures Valid() && (stopped || Running()) && |logical| == |old(logical)|
      ensures barred == old(Barred(e))
      ensures barred ==> logical == old(logical) && askedStep == old(askedStep) && breakpoints == old(breakpoints) && Barred(e)
      ensures !barred ==>
                && logical == PlainEvent(old(logical), e) && askedStep == AskedEvent(old(askedStep), e)
                && breakpoints.Keys == ArmedEvent(old(breakpoints.Keys), |logical|, e)
      ensures stop ==> !barred && e.DebugExit? && (old(askedStep) || e.pc in old(breakpoints))
      ensures !barred && e.DebugExit? && old(askedStep) ==> stop
    {
      assert |logical| == mem.cells.Length;
      hide Valid, Put, PlainRun, Served, NoRearm, AskedIn, ArmedAfter;
      stop := false;
      match e {
        case Store(a, b) =>
          barred := a >= mem.cells.Length || a in breakpoints;
          if !barred {
            GuestStore(a, b);
          }
        case DebugExit(pc, rip) =>
          barred := stopped;
          if !barred {
            var action, _ := HandleDebugExit(pc, rip);
            stop := action.Stop?;
          }
        case Serve(packets) =>
          barred := !stopped || !attached || !NoRearm(breakpoints.Keys, mem.cells.Length, Served(packets));
          if !barred {
            var _, _ := ServeUntilResume(packets);
          }
      }
    }

    /** What holds whenever the stub is at rest. */
    lemma Steady()
      requires Valid() && (stopped || Running())
      ensures pendingStepOver.Some? ==> Stepping() && pendingStepOver.value in breakpoints
      ensures attached && !stopped && !Stepping() ==> forall a :: a in breakpoints ==> a < mem.cells.Length && mem.cells[a] == INT3
      ensures !attached ==> (Stepping() <==> lastStopWasStep) && (control.Disabled? <==> !everResumed)
    {
      hide Overlay;
      if pendingStepOver.None? {
        TrapsInPlace();
      }
    }
  }

  lemma NoStops(asked: bool, armed: set<u64>, size: nat, es: seq<Event>)
    ensures StopsRight(asked, armed, size, es, 0, {})
  {}

  lemma OneMoreEvent(asked: bool, armed: set<u64>, size: nat, es: seq<Event>, n: nat, stops: set<nat>, stop: bool)
    requires n < |es| && StopsRight(asked, armed, size, es, n, stops)
    requires stop ==> es[n].DebugExit? && StopDue(asked, armed, size, es, n)
    requires es[n].DebugExit? && SessionAsked(asked, es[..n]) ==> stop
    ensures StopsRight(asked, armed, size, es, n + 1, if stop then stops + {n} else stops)
  {
    hide SessionAsked, StopDue;
  }

  lemma NoPackets(m: Image, armed: set<u64>, asked: bool)
    ensures PlainRun(m, []) == (m, []) && ArmedAfter(armed, |m|, []) == armed && NoRearm(armed, |m|, [])
    ensures AskedIn(asked, []) == asked && Served([]) == []
  {}

  lemma OneMorePacket(m: Image, armed: set<u64>, asked: bool, ps: seq<Packet>, n: nat)
    requires n < |ps|
    ensures var (m1, rs) := PlainRun(m, ps[..n]);
            PlainRun(m, ps[..n + 1]) == (PlainStep(m1, ps[n]).0, rs + [PlainStep(m1, ps[n]).1])
    ensures ArmedAfter(armed, |m|, ps[..n + 1]) == ArmedStep(ArmedAfter(armed, |m|, ps[..n]), |m|, ps[n])
    ensures AskedIn(asked, ps[..n + 1]) == AskedAfter(AskedIn(asked, ps[..n]), ps[n])
    ensures NoRearm(armed, |m|, ps[..n + 1]) <==>
            && NoRearm(armed, |m|, ps[..n])
            && (ps[n].BpInsert? ==> ps[n].addr !in ArmedAfter(armed, |m|, ps[..n]))
    ensures ps[..n] + Served(ps[n..]) == ps[..n + 1] + if Ends(ps[n]) then [] else Served(ps[n + 1..])
  {
    hide PlainStep, ArmedStep, AskedAfter, Ends;
    assert ps[..n + 1][..n] == ps[..n];
    ServedNext(ps, n);
  }

  lemma ServedNext(ps: seq<Packet>, n: nat)
    requires n < |ps|
    ensures ps[..n] + Served(ps[n..]) == ps[..n + 1] + if Ends(ps[n]) then [] else Served(ps[n + 1..])
  {
    hide Ends;
    assert ps[n..][1..] == ps[n + 1..];
    assert ps[..n] + [ps[n]] == ps[..n + 1];
    assert ps[..n] + ([ps[n]] + Served(ps[n + 1..])) == ps[..n + 1] + Served(ps[n + 1..]);
  }

  lemma PutOutOfRange(l: Image, m: Image, addr: nat, data: seq<u8>)
    requires addr + |data| > |l| == |m|
    ensures Put(l, addr, data) == l && Put(m, addr, data) == m
  {}

  /** While a write's breakpoints are put back: those in `todo` are still to do. */
  ghost predicate Rewritten(bps: map<u64, u8>, l: Image, addr: nat, data: seq<u8>, todo: set<u64>)
    requires addr + |data| <= |l|
  {
    forall a :: a in bps ==>
      && a < |l|
      && bps[a] == if a in todo && Within(a, addr, |data|) then l[a] else Put(l, addr, data)[a]
  }

  /** The addresses whose trap is in place. */
  ghost function Retrapped(keys: set<u64>, todo: set<u64>, addr: nat, n: nat): set<u64> {
    set a | a in keys && !(a in todo && Within(a, addr, n))
  }

  lemma RewriteStarts(bps: map<u64, u8>, l: Image, addr: nat, data: seq<u8>)
    requires addr + |data| <= |l| && forall a :: a in bps ==> a < |l| && bps[a] == l[a]
    ensures Rewritten(bps, l, addr, data, bps.Keys)
    ensures Retrapped(bps.Keys, bps.Keys, addr, |data|) == Outside(bps.Keys, addr, |data|)
  {
    hide Put;
    PutElements(l, addr, data);
  }

  lemma RewriteStep(bps: map<u64, u8>, l: Image, addr: nat, data: seq<u8>, todo: set<u64>, bp: u64)
    requires addr + |data| <= |l| && bp in todo && todo <= bps.Keys && Rewritten(bps, l, addr, data, todo)
    ensures bp < |l|
    ensures var rest := todo - {bp};
            if Within(bp, addr, |data|) then
              && Rewritten(bps[bp := data[bp - addr]], l, addr, data, rest)
              && Retrapped(bps.Keys, rest, addr, |data|) == Retrapped(bps.Keys, todo, addr, |data|) + {bp}
            else
              Rewritten(bps, l, addr, data, rest) && Retrapped(bps.Keys, rest, addr, |data|) == Retrapped(bps.Keys, todo, addr, |data|)
  {
    hide Put;
    PutElements(l, addr, data);
  }

  lemma RewriteEnds(bps: map<u64, u8>, l: Image, addr: nat, data: seq<u8>)
    requires addr + |data| <= |l| && Rewritten(bps, l, addr, data, {})
    ensures forall a :: a in bps ==> a < |l| && bps[a] == Put(l, addr, data)[a]
    ensures Retrapped(bps.Keys, {}, addr, |data|) == bps.Keys
  {}

  lemma PutElements(l: Image, addr: nat, data: seq<u8>)
    requires addr + |data| <= |l|
    ensures forall i: u64 :: i < |l| ==> Put(l, addr, data)[i] == if Within(i, addr, |data|) then data[i - addr] else l[i]
  {}
}
