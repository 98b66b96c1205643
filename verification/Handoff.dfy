/** Migration as a protocol: the vCPU thread of the source, its reactor thread
    and any number of destinations, one step at a time. */
module Handoff {
  import opened Bytes
  import opened Snapshots

  // --- State --------------------------------------------------------------------

  datatype Pause = Running | Requested | Paused

  /** Where the reactor thread is. `woken` is a notification it has not yet acted
      on; `locked` says whether it holds a device lock. */
  datatype ReactorAt =
    | LoopHead
    | CheckingIn
    | Parked(woken: bool)
    | Serving(locked: bool)
    | Stopped

  /** What the reactor is paused for. */
  datatype Job = Migrate(stream: seq<u8>) | Fork

  /** Where the vCPU thread is; it also serves the control socket. */
  datatype VcpuAt =
    | LoopTop
    | InGuest
    | Polling
    | Awaiting(job: Job)
    | Holding(job: Job)
    | Sending
    | Left

  /** A connection to one destination: `sent` bytes of `bytes` have gone out. The
      source only ever writes to the last one. */
  datatype Stream = Stream(bytes: seq<u8>, sent: nat, accepted: bool)

  /** Why the run ends. */
  datatype Cause = MigratedAway | OtherCause

  /** `exit` is the shared exit slot; `children` counts the copies of the guest forked off. */
  datatype State = State(
    pause: Pause, reactor: ReactorAt, vcpu: VcpuAt, exit: Option<Cause>, streams: seq<Stream>, children: nat)

  function Last(s: State): Stream
    requires s.streams != []
  {
    s.streams[|s.streams| - 1]
  }

  ghost predicate Complete(st: Stream) {
    st.sent == |st.bytes|
  }

  ghost predicate Init(s: State) {
    // the reactor thread is absent altogether when it could not create its epoll descriptor
    s == State(Running, LoopHead, LoopTop, None, [], 0) || s == State(Running, Stopped, LoopTop, None, [], 0)
  }

  // --- Steps ---------------------------------------------------------------------

  datatype Action =
    // the vCPU loop
    | EnterGuest
    | LeaveLoop
    | GuestExits
    | RunFails
    | PollDone
    // a migrate or fork command
    | Request(c: Captured, mem: seq<u8>)
    | RequestFork
    | Acknowledged
    | TimedOut
    | Forked
    | ForkFails
    | ConnectFails
    | Connect
    | Send(n: nat)
    | SendFails
    | Finish
    // the reactor
    | ReactorTop
    | CheckIn
    | Wake
    | Lock
    | Unlock
    | ServeDone
    // anyone else
    | RequestExit(cause: Cause)
    | Accept(i: nat, received: nat)

  /** `notify_all`: a parked reactor will look at the state again. */
  function Notified(r: ReactorAt): ReactorAt {
    if r.Parked? then Parked(true) else r
  }

  /** The first to ask for an exit records why; later requests change nothing. */
  function WithExit(s: State, cause: Cause): State {
    if s.exit.None? then s.(exit := Some(cause)) else s
  }

  function Resumed(s: State): State {
    s.(pause := Running, reactor := Notified(s.reactor))
  }

  ghost predicate Enabled(lay: Layout, s: State, a: Action) {
    match a
    case EnterGuest => s.vcpu.LoopTop? && s.exit.None?
    case LeaveLoop => s.vcpu.LoopTop? && s.exit.Some?
    case GuestExits => s.vcpu.InGuest?
    case RunFails => s.vcpu.InGuest?
    case PollDone => s.vcpu.Polling?
    case Request(c, mem) => s.vcpu.Polling? && InRange(lay, c, mem)
    case RequestFork => s.vcpu.Polling?
    case Acknowledged => s.vcpu.Awaiting? && s.pause.Paused?
    case TimedOut => s.vcpu.Awaiting? && !s.pause.Paused?
    case Forked => s.vcpu.Holding? && s.vcpu.job.Fork?
    case ForkFails => s.vcpu.Holding? && s.vcpu.job.Fork?
    case ConnectFails => s.vcpu.Holding? && s.vcpu.job.Migrate?
    case Connect => s.vcpu.Holding? && s.vcpu.job.Migrate?
    case Send(n) => s.vcpu.Sending? && s.streams != [] && Last(s).sent + n <= |Last(s).bytes|
    case SendFails => s.vcpu.Sending? && s.streams != [] && !Complete(Last(s))
    case Finish => s.vcpu.Sending? && s.streams != [] && Complete(Last(s))
    case ReactorTop => s.reactor.LoopHead?
    case CheckIn => s.reactor.CheckingIn?
    case Wake => s.reactor.Parked?
    case Lock => s.reactor.Serving?
    case Unlock => s.reactor.Serving?
    case ServeDone => s.reactor == Serving(false)
    case RequestExit(_) => true
    case Accept(i, received) =>
      && i < |s.streams| && received <= s.streams[i].sent <= |s.streams[i].bytes|
      && Decode(lay, s.streams[i].bytes[..received]).Ok?
  }

  function Step(s: State, a: Action): State {
    match a
    case EnterGuest => s.(vcpu := InGuest)
    case LeaveLoop => s.(vcpu := Left)
    case GuestExits => s.(vcpu := Polling)
    case RunFails => WithExit(s, OtherCause).(vcpu := Left)
    case PollDone => s.(vcpu := LoopTop)
    case Request(c, mem) => s.(pause := Requested, vcpu := Awaiting(Migrate(Encode(c, mem))))
    case RequestFork => s.(pause := Requested, vcpu := Awaiting(Fork))
    case Acknowledged => if s.vcpu.Awaiting? then s.(vcpu := Holding(s.vcpu.job)) else s
    case TimedOut => Resumed(s).(vcpu := Polling)
    case Forked => Resumed(s).(vcpu := Polling, children := s.children + 1)
    case ForkFails => Resumed(s).(vcpu := Polling)
    case ConnectFails => Resumed(s).(vcpu := Polling)
    case Connect =>
      if s.vcpu.Holding? && s.vcpu.job.Migrate? then
        s.(vcpu := Sending, streams := s.streams + [Stream(s.vcpu.job.stream, 0, false)])
      else s
    case Send(n) =>
      if s.streams == [] then s
      else s.(streams := s.streams[|s.streams| - 1 := Last(s).(sent := Last(s).sent + n)])
    case SendFails => Resumed(s).(vcpu := Polling)
    case Finish => WithExit(s, MigratedAway).(vcpu := Polling)
    case ReactorTop => s.(reactor := if s.exit.Some? then Stopped else CheckingIn)
    case CheckIn =>
      if s.pause.Requested? then s.(pause := Paused, reactor := Parked(false)) else s.(reactor := Serving(false))
    case Wake => s.(reactor := if s.pause.Paused? then Parked(false) else Serving(false))
    case Lock => s.(reactor := Serving(true))
    case Unlock => s.(reactor := Serving(false))
    case ServeDone => s.(reactor := LoopHead)
    case RequestExit(cause) => WithExit(s, cause)
    case Accept(i, _) => if i < |s.streams| then s.(streams := s.streams[i := s.streams[i].(accepted := true)]) else s
  }

  ghost predicate Reachable(lay: Layout, s: State, actions: seq<Action>)
    decreases |actions|
  {
    if actions == [] then Init(s)
    else
      var k := |actions| - 1;
      exists s0 :: Reachable(lay, s0, actions[..k]) && Enabled(lay, s0, actions[k]) && s == Step(s0, actions[k])
  }

  // --- The pause -------------------------------------------------------------------

  ghost predicate PauseInv(s: State) {
    && (s.pause.Paused? ==> s.reactor.Parked?)
    && (s.vcpu.Holding? || s.vcpu.Sending? ==> s.pause.Paused?)
    && (s.reactor.Parked? && s.pause.Running? ==> s.reactor.woken)
  }

  lemma PauseInvKept(lay: Layout, s: State, a: Action)
    requires PauseInv(s) && Enabled(lay, s, a)
    ensures PauseInv(Step(s, a))
  {
    hide Encode, Decode;
  }

  /** A granted pause keeps the reactor parked, without a device lock, through
      any step but a resume or a new request (to migrate or to fork); a refused one leaves no pause and
      no reactor that will not wake. */
  lemma PauseGranted(lay: Layout, s: State, a: Action)
    requires PauseInv(s) && Enabled(lay, s, a)
    ensures a.Acknowledged? ==> Step(s, a).reactor.Parked? && Step(s, a).pause.Paused?
    ensures s.pause.Paused? && !a.Request? && !a.RequestFork? && !a.TimedOut? && !a.ConnectFails? && !a.SendFails? &&
            !a.Forked? && !a.ForkFails? ==>
              Step(s, a).pause.Paused? && Step(s, a).reactor.Parked?
    ensures a.Forked? ==> s.reactor.Parked?
    ensures a.TimedOut? ==> Step(s, a).pause.Running? && (Step(s, a).reactor.Parked? ==> Step(s, a).reactor.woken)
    ensures s.pause.Running? && s.reactor.Parked? && a.Wake? ==> Step(s, a).reactor == Serving(false)
  {
    hide Encode, Decode;
    PauseInvKept(lay, s, a);
  }

  // --- The handoff -------------------------------------------------------------------

  ghost predicate Whole(lay: Layout, bytes: seq<u8>) {
    exists c, mem :: InRange(lay, c, mem) && bytes == Encode(c, mem)
  }

  /** Only the last stream can be complete, and only a complete one is accepted. */
  ghost predicate StreamsOk(lay: Layout, streams: seq<Stream>) {
    forall i :: 0 <= i < |streams| ==>
      && Whole(lay, streams[i].bytes) && streams[i].sent <= |streams[i].bytes|
      && (streams[i].accepted ==> Complete(streams[i]))
      && (i < |streams| - 1 ==> !Complete(streams[i]))
  }

  ghost predicate StreamsInv(lay: Layout, s: State) {
    && ((s.vcpu.Awaiting? || s.vcpu.Holding?) && s.vcpu.job.Migrate? ==> Whole(lay, s.vcpu.job.stream))
    && (s.vcpu.Sending? ==> s.streams != [])
    && StreamsOk(lay, s.streams)
  }

  ghost predicate Departed(s: State) {
    s.streams != [] && Complete(Last(s))
  }

  /** Once a stream is complete the source is on its way out: it is not in the
      guest, and the reactor can no longer grant a pause for another stream. */
  ghost predicate DepartedInv(s: State) {
    Departed(s) ==>
      || s.vcpu.Sending?
      || (&& s.exit.Some?
          && (s.vcpu.LoopTop? || s.vcpu.Polling? || s.vcpu.Left? || (s.vcpu.Awaiting? && !s.pause.Paused?))
          && !s.reactor.CheckingIn?)
  }

  /** The vCPU thread is about its ordinary business: no migration or fork is under way. */
  ghost predicate AtLarge(s: State) {
    s.vcpu.LoopTop? || s.vcpu.InGuest? || s.vcpu.Polling?
  }

  /** However a migration or fork ended, short of the guest's departure, the reactor was
      let go again. */
  ghost predicate ResumedInv(s: State) {
    AtLarge(s) && !Departed(s) ==> s.pause.Running?
  }

  ghost predicate Inv(lay: Layout, s: State) {
    PauseInv(s) && StreamsInv(lay, s) && DepartedInv(s) && ResumedInv(s)
  }

  lemma NotEmpty(lay: Layout, c: Captured, mem: seq<u8>)
    requires InRange(lay, c, mem)
    ensures Encode(c, mem) != []
  {
    assert Concat(CpuFields(c, |mem|))[..8] == MAGIC;
  }

  /** A destination that accepts has received everything. */
  lemma AcceptsOnlyWhole(lay: Layout, bytes: seq<u8>, received: nat)
    requires Whole(lay, bytes) && received <= |bytes| && Decode(lay, bytes[..received]).Ok?
    ensures received == |bytes|
  {
    hide Decode, Encode;
    var c, mem :| InRange(lay, c, mem) && bytes == Encode(c, mem);
    if received < |bytes| {
      StrictPrefixRejected(lay, c, mem, received);
    }
  }

  lemma OneMoreStream(lay: Layout, streams: seq<Stream>, bytes: seq<u8>)
    requires StreamsOk(lay, streams) && Whole(lay, bytes)
    requires streams != [] ==> !Complete(streams[|streams| - 1])
    ensures StreamsOk(lay, streams + [Stream(bytes, 0, false)])
  {
    hide Whole;
  }

  lemma LastAdvances(lay: Layout, streams: seq<Stream>, n: nat)
    requires StreamsOk(lay, streams) && streams != []
    requires var last := streams[|streams| - 1];
             last.sent + n <= |last.bytes|
    ensures var last := streams[|streams| - 1];
            StreamsOk(lay, streams[|streams| - 1 := last.(sent := last.sent + n)])
  {
    hide Whole;
  }

  lemma OneAccepted(lay: Layout, streams: seq<Stream>, i: nat)
    requires StreamsOk(lay, streams) && i < |streams| && Complete(streams[i])
    ensures StreamsOk(lay, streams[i := streams[i].(accepted := true)])
  {
    hide Whole;
  }

  /** A destination that accepts its stream. */
  lemma AcceptKeeps(lay: Layout, streams: seq<Stream>, i: nat, received: nat)
    requires StreamsOk(lay, streams) && i < |streams| && received <= streams[i].sent
    requires received <= |streams[i].bytes| && Decode(lay, streams[i].bytes[..received]).Ok?
    ensures StreamsOk(lay, streams[i := streams[i].(accepted := true)])
  {
    hide Decode, Whole;
    AcceptsOnlyWhole(lay, streams[i].bytes, received);
    OneAccepted(lay, streams, i);
  }

  lemma EncodedWhole(lay: Layout, c: Captured, mem: seq<u8>)
    requires InRange(lay, c, mem)
    ensures Whole(lay, Encode(c, mem))
  {
    hide InRange, Encode;
  }

  lemma StreamsInvKept(lay: Layout, s: State, a: Action)
    requires StreamsInv(lay, s) && DepartedInv(s) && PauseInv(s) && Enabled(lay, s, a)
    ensures StreamsInv(lay, Step(s, a))
  {
    hide Decode, Encode, InRange, Whole, StreamsOk;
    if a.Connect? {
      assert !Departed(s);
      OneMoreStream(lay, s.streams, s.vcpu.job.stream);
    } else if a.Send? {
      LastAdvances(lay, s.streams, a.n);
    } else if a.Accept? {
      AcceptKeeps(lay, s.streams, a.i, a.received);
    } else if a.Request? {
      EncodedWhole(lay, a.c, a.mem);
    }
  }

  lemma DepartedInvKept(lay: Layout, s: State, a: Action)
    requires StreamsInv(lay, s) && DepartedInv(s) && PauseInv(s) && Enabled(lay, s, a)
    ensures DepartedInv(Step(s, a))
  {
    hide Decode, Encode, InRange;
    if a.Connect? {
      var c, mem :| InRange(lay, c, mem) && s.vcpu.job.stream == Encode(c, mem);
      NotEmpty(lay, c, mem);
    }
  }

  lemma ResumedInvKept(lay: Layout, s: State, a: Action)
    requires StreamsInv(lay, s) && ResumedInv(s) && Enabled(lay, s, a)
    ensures ResumedInv(Step(s, a))
  {
    hide Decode, Encode, InRange, Whole, StreamsOk;
  }

  lemma {:induction false} InvHolds(lay: Layout, s: State, actions: seq<Action>)
    requires Reachable(lay, s, actions)
    ensures Inv(lay, s)
    decreases |actions|
  {
    hide Enabled, Step, PauseInv, StreamsInv, DepartedInv, ResumedInv;
    if actions == [] {
      InitInv(lay, s);
    } else {
      var k := |actions| - 1;
      var s0 :| Reachable(lay, s0, actions[..k]) && Enabled(lay, s0, actions[k]) && s == Step(s0, actions[k]);
      InvHolds(lay, s0, actions[..k]);
      PauseInvKept(lay, s0, actions[k]);
      StreamsInvKept(lay, s0, actions[k]);
      DepartedInvKept(lay, s0, actions[k]);
      ResumedInvKept(lay, s0, actions[k]);
    }
  }

  lemma InitInv(lay: Layout, s: State)
    requires Init(s)
    ensures Inv(lay, s)
  {}

  /** In every run, a source that still has its guest and is not migrating or forking it
      has its devices served: no pause is in force, and a reactor that is still parked has
      been woken and goes back to serving. */
  lemma ReactorNotStranded(lay: Layout, s: State, actions: seq<Action>)
    requires Reachable(lay, s, actions) && AtLarge(s) && !Departed(s)
    ensures s.pause.Running?
    ensures s.reactor.Parked? ==> s.reactor.woken && Enabled(lay, s, Wake) && Step(s, Wake).reactor == Serving(false)
  {
    hide StreamsInv, DepartedInv, Encode, Decode;
    InvHolds(lay, s, actions);
  }

  /** In every run, whatever is pipelined behind a migrate command: apart from copies
      forked off before it left, the guest runs in at most one process. If any destination took it over, the source is not
      in the guest and no other destination has it; and while the source is in the
      guest, what it sent on any stream is rejected by every reader. */
  lemma GuestRunsInOneProcess(lay: Layout, s: State, actions: seq<Action>)
    requires Reachable(lay, s, actions)
    ensures forall i :: 0 <= i < |s.streams| && s.streams[i].accepted ==> !s.vcpu.InGuest?
    ensures forall i, j :: 0 <= i < j < |s.streams| ==> !(s.streams[i].accepted && s.streams[j].accepted)
    ensures s.vcpu.InGuest? ==> forall i :: 0 <= i < |s.streams| ==>
              s.streams[i].sent < |s.streams[i].bytes| &&
              Decode(lay, s.streams[i].bytes[..s.streams[i].sent]) == Err
  {
    hide Decode, Encode, InRange;
    InvHolds(lay, s, actions);
    if s.vcpu.InGuest? {
      forall i | 0 <= i < |s.streams|
        ensures s.streams[i].sent < |s.streams[i].bytes|
        ensures Decode(lay, s.streams[i].bytes[..s.streams[i].sent]) == Err
      {
        var st := s.streams[i];
        assert !Complete(st);
        var c, mem :| InRange(lay, c, mem) && st.bytes == Encode(c, mem);
        StrictPrefixRejected(lay, c, mem, st.sent);
      }
    }
  }

  /** The recorded cause never changes, so a migrated source reports it unless
      something else had already ended the run. */
  lemma FirstCauseStays(lay: Layout, s: State, a: Action)
    requires Enabled(lay, s, a)
    ensures s.exit.Some? ==> Step(s, a).exit == s.exit
    ensures s.exit.None? && a.RequestExit? ==> Step(s, a).exit == Some(a.cause)
    ensures s.exit.None? && a.RunFails? ==> Step(s, a).exit == Some(OtherCause)
    ensures s.vcpu.LoopTop? && s.exit.Some? ==> !Enabled(lay, s, EnterGuest) && Enabled(lay, s, LeaveLoop)
    ensures a.LeaveLoop? ==> Step(s, a).vcpu.Left?
    ensures a.Finish? ==> Step(s, a).exit == if s.exit.None? then Some(MigratedAway) else s.exit
    ensures Step(s, a).vcpu.Left? && !s.vcpu.Left? ==> Step(s, a).exit.Some?
  {
    hide Encode, Decode;
  }

  /** And it never comes back: a complete stream stays complete, and from then on the
      source cannot enter the guest, cannot open another stream, and cannot fork a copy. */
  lemma NeverReturns(lay: Layout, s: State, a: Action)
    requires Inv(lay, s) && Departed(s) && Enabled(lay, s, a)
    ensures Departed(Step(s, a)) && !Step(s, a).vcpu.InGuest? && !a.Connect?
    ensures !a.Forked? && Step(s, a).children == s.children
  {
    hide Decode, Encode, InRange;
    DepartedInvKept(lay, s, a);
  }

  /** The actions lead from `s` to `s'`. */
  ghost predicate Leads(lay: Layout, s: State, actions: seq<Action>, s': State)
    decreases |actions|
  {
    if actions == [] then s' == s
    else
      var k := |actions| - 1;
      exists m :: Leads(lay, s, actions[..k], m) && Enabled(lay, m, actions[k]) && s' == Step(m, actions[k])
  }

  /** However long the source goes on. */
  lemma {:induction false} GoneForGood(lay: Layout, s: State, actions: seq<Action>, s': State)
    requires Inv(lay, s) && Departed(s) && Leads(lay, s, actions, s')
    ensures Inv(lay, s') && Departed(s')
    ensures actions != [] ==> !s'.vcpu.InGuest?
    ensures s'.children == s.children && (forall a :: a in actions ==> !a.Connect? && !a.Forked?)
    decreases |actions|
  {
    hide Enabled, Step, PauseInv, StreamsInv, DepartedInv, ResumedInv, Departed;
    if actions != [] {
      var k := |actions| - 1;
      var m :| Leads(lay, s, actions[..k], m) && Enabled(lay, m, actions[k]) && s' == Step(m, actions[k]);
      GoneForGood(lay, s, actions[..k], m);
      NeverReturns(lay, m, actions[k]);
      PauseInvKept(lay, m, actions[k]);
      StreamsInvKept(lay, m, actions[k]);
      DepartedInvKept(lay, m, actions[k]);
      ResumedInvKept(lay, m, actions[k]);
    }
  }

  // --- It does work ------------------------------------------------------------------------

  lemma OneStep(lay: Layout, s: State, actions: seq<Action>, m: State, a: Action)
    requires Leads(lay, s, actions, m) && Enabled(lay, m, a)
    ensures Leads(lay, s, actions + [a], Step(m, a))
  {
    hide Enabled, Step;
    assert (actions + [a])[..|actions|] == actions;
  }

  lemma NoSteps(lay: Layout, s: State)
    ensures Leads(lay, s, [], s)
  {}

  /** The vCPU thread serving its control socket, nothing else going on. */
  const READY := State(Running, LoopHead, Polling, None, [], 0)

  const PAUSE: seq<Action> := [ReactorTop, CheckIn, Acknowledged]

  /** A pause asked for is granted. */
  lemma PauseRuns(lay: Layout, request: Action, job: Job)
    requires Enabled(lay, READY, request) && Step(READY, request) == State(Requested, LoopHead, Awaiting(job), None, [], 0)
    ensures Leads(lay, READY, [request] + PAUSE, State(Paused, Parked(false), Holding(job), None, [], 0))
  {
    hide Leads, Encode, Decode;
    var s1 := State(Requested, LoopHead, Awaiting(job), None, [], 0);
    NoSteps(lay, READY);
    OneStep(lay, READY, [], READY, request);
    assert [] + [request] == [request];
    OneStep(lay, READY, [request], s1, ReactorTop);
    var s2 := s1.(reactor := CheckingIn);
    OneStep(lay, READY, [request] + [ReactorTop], s2, CheckIn);
    var s3 := s1.(pause := Paused, reactor := Parked(false));
    OneStep(lay, READY, [request] + [ReactorTop] + [CheckIn], s3, Acknowledged);
    assert [request] + [ReactorTop] + [CheckIn] + [Acknowledged] == [request] + PAUSE;
  }

  /** A stream sent whole is accepted. */
  lemma SendRuns(lay: Layout, past: seq<Action>, e: seq<u8>)
    requires Decode(lay, e[..|e|]).Ok?
    requires Leads(lay, READY, past, State(Paused, Parked(false), Holding(Migrate(e)), None, [], 0))
    ensures Leads(lay, READY, past + [Connect, Send(|e|), Accept(0, |e|)],
                  State(Paused, Parked(false), Sending, None, [Stream(e, |e|, true)], 0))
  {
    hide Leads, Decode, Encode;
    var s0 := State(Paused, Parked(false), Sending, None, [Stream(e, 0, false)], 0);
    var holding := State(Paused, Parked(false), Holding(Migrate(e)), None, [], 0);
    assert Step(holding, Connect) == s0;
    OneStep(lay, READY, past, holding, Connect);
    OneStep(lay, READY, past + [Connect], s0, Send(|e|));
    var s1 := s0.(streams := [Stream(e, |e|, false)]);
    assert Step(s0, Send(|e|)) == s1;
    OneStep(lay, READY, past + [Connect] + [Send(|e|)], s1, Accept(0, |e|));
    assert Step(s1, Accept(0, |e|)) == s1.(streams := [Stream(e, |e|, true)]);
    assert past + [Connect] + [Send(|e|)] + [Accept(0, |e|)] == past + [Connect, Send(|e|), Accept(0, |e|)];
  }

  /** The source then leaves. */
  lemma LeaveRuns(lay: Layout, past: seq<Action>, st: Stream)
    requires Complete(st) && Leads(lay, READY, past, State(Paused, Parked(false), Sending, None, [st], 0))
    ensures Leads(lay, READY, past + [Finish, PollDone, LeaveLoop],
                  State(Paused, Parked(false), Left, Some(MigratedAway), [st], 0))
  {
    hide Leads, Decode, Encode;
    var s0 := State(Paused, Parked(false), Sending, None, [st], 0);
    var s1 := s0.(vcpu := Polling, exit := Some(MigratedAway));
    OneStep(lay, READY, past, s0, Finish);
    OneStep(lay, READY, past + [Finish], s1, PollDone);
    OneStep(lay, READY, past + [Finish] + [PollDone], s1.(vcpu := LoopTop), LeaveLoop);
    assert past + [Finish] + [PollDone] + [LeaveLoop] == past + [Finish, PollDone, LeaveLoop];
  }

  /** A migration with everything going well ends with the whole stream accepted by one
      destination, and the source gone with the migration as its cause. */
  lemma MigrationSucceeds(lay: Layout, c: Captured, mem: seq<u8>)
    requires InRange(lay, c, mem)
    ensures var e := Encode(c, mem);
            Leads(lay, READY,
                  [Request(c, mem)] + PAUSE + [Connect, Send(|e|), Accept(0, |e|)] + [Finish, PollDone, LeaveLoop],
                  State(Paused, Parked(false), Left, Some(MigratedAway), [Stream(e, |e|, true)], 0))
  {
    hide Leads, Encode, Decode, InRange;
    var e := Encode(c, mem);
    AcceptedWhole(lay, c, mem);
    PauseRuns(lay, Request(c, mem), Migrate(e));
    SendRuns(lay, [Request(c, mem)] + PAUSE, e);
    LeaveRuns(lay, [Request(c, mem)] + PAUSE + [Connect, Send(|e|), Accept(0, |e|)], Stream(e, |e|, true));
  }

  lemma AcceptedWhole(lay: Layout, c: Captured, mem: seq<u8>)
    requires InRange(lay, c, mem)
    ensures Decode(lay, Encode(c, mem)[..|Encode(c, mem)|]).Ok?
  {
    hide Encode, Decode;
    var e := Encode(c, mem);
    RoundTrip(lay, c, mem, []);
    assert e[..|e|] == e == e + [];
  }

  /** A fork: the copy is made with the reactor parked, and both go on. */
  lemma ForkSucceeds(lay: Layout)
    ensures Leads(lay, READY, [RequestFork] + PAUSE + [Forked, Wake, PollDone, EnterGuest],
                  State(Running, Serving(false), InGuest, None, [], 1))
  {
    hide Leads, Encode, Decode;
    var past := [RequestFork] + PAUSE;
    PauseRuns(lay, RequestFork, Fork);
    var s0 := State(Running, Parked(true), Polling, None, [], 1);
    OneStep(lay, READY, past, State(Paused, Parked(false), Holding(Fork), None, [], 0), Forked);
    OneStep(lay, READY, past + [Forked], s0, Wake);
    OneStep(lay, READY, past + [Forked] + [Wake], s0.(reactor := Serving(false)), PollDone);
    OneStep(lay, READY, past + [Forked] + [Wake] + [PollDone], s0.(reactor := Serving(false), vcpu := LoopTop), EnterGuest);
    assert past + [Forked] + [Wake] + [PollDone] + [EnterGuest] == past + [Forked, Wake, PollDone, EnterGuest];
  }
}
