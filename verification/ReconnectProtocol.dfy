/**
 Supervisor and worker joined by their two first-in first-out queues, the one-shot timer and an
 arbitrary environment. Each handler runs to its end; which one runs next is unconstrained.
 */
module ReconnectProtocol {
  import opened Prelude
  import opened Reconnect

  datatype Step =
    | UserConnect(profile: Profile)   // set_profile, then the matching connect
    | ReopenPort(path: string)        // connect_serial without set_profile, after firmware work
    | UserDisconnect                  // cancel, then disconnect
    | UserCancel
    | UserScan
    | UserAction
    | TimerFires
    | DeliverEvent                    // the GUI takes the oldest worker signal
    | WorkerTurn(outcome: Outcome)    // the worker takes the oldest command
    | RadioEstablished(i: nat, late: seq<ErrorCode>)
    | RadioLost(i: nat)

  /** `heard` are the interfaces that have reported: finished with their download, or lost. */
  datatype System = System(
    sup: Supervisor, worker: Worker, commands: seq<Command>, events: seq<Event>, heard: set<nat>)
  {
    /** Callbacks of any interface but the current one are ignored. */
    function HeardFrom(i: nat): set<nat> {
      if worker.iface == Some(i) then heard + {i} else heard
    }
  }

  const INITIAL := System(INITIAL_SUPERVISOR, INITIAL_WORKER, [], [], {})

  function Handle(s: System, e: Event): System {
    match e
    case IsConnected => s.(sup := s.sup.AfterConnected())
    case IsDisconnected(reason) => s.(sup := s.sup.AfterDisconnected(reason))
    case Error(code) =>
      s.(sup := s.sup.AfterError(code), commands := s.commands + s.sup.CommandsOnError(code))
  }

  function Next(s: System, step: Step): System {
    match step
    case UserConnect(p) =>
      s.(sup := s.sup.(profile := Some(p)), commands := s.commands + ConnectFor(p))
    case ReopenPort(path) => s.(commands := s.commands + [ConnectSerial(path)])
    case UserDisconnect => s.(sup := s.sup.Cancelled(), commands := s.commands + [Disconnect])
    case UserCancel => s.(sup := s.sup.Cancelled())
    case UserScan => s.(commands := s.commands + [ScanBle])
    case UserAction => s.(commands := s.commands + [Action])
    case TimerFires =>
      if s.sup.timer.None? then s
      else s.(sup := s.sup.(timer := None), commands := s.commands + s.sup.CommandsOnTimeout())
    case DeliverEvent =>
      if s.events == [] then s else Handle(s.(events := s.events[1..]), s.events[0])
    case WorkerTurn(outcome) =>
      if s.commands == [] then s
      else
        var t := RunCommand(s.worker, s.commands[0], outcome);
        s.(worker := t.0, commands := s.commands[1..], events := s.events + t.1)
    case RadioEstablished(i, late) =>
      var t := Established(s.worker, i, late);
      s.(worker := t.0, events := s.events + t.1,
         heard := s.HeardFrom(i))
    case RadioLost(i) =>
      var t := Lost(s.worker, i);
      s.(worker := t.0, events := s.events + t.1, heard := s.HeardFrom(i))
  }

  /** The state after a whole run. */
  function Run(steps: seq<Step>): System {
    if steps == [] then INITIAL else Next(Run(steps[..|steps| - 1]), steps[|steps| - 1])
  }

  // ---------------------------------------------------------------------------------------
  // What every step keeps
  // ---------------------------------------------------------------------------------------

  predicate WorkerAtRest(w: Worker, heard: set<nat>) {
    && w.state !in {Scanning, Connecting, Disconnecting}
    && (w.iface.Some? ==> w.iface.value < w.created)
    && (forall i <- heard :: i < w.created)
    && (w.state == Syncing ==> w.iface.Some? && w.iface.value !in heard)
  }

  /** Every lost connection still in flight is followed by a later connected event. */
  predicate LossesHealed(events: seq<Event>) {
    forall j | 0 <= j < |events| && events[j] == Error(ConnectionLost) :: IsConnected in events[j + 1..]
  }

  predicate Consistent(s: System) {
    && (s.sup.timer.Some? ==> s.sup.active && s.sup.timer.value == Backoff(s.sup.attempt))
    && (s.sup.active ==> s.sup.wasConnected && s.sup.profile.Some?)
    && WorkerAtRest(s.worker, s.heard)
    && (s.worker.state == Connected ==>
          LossesHealed(s.events) && (s.sup.active ==> IsConnected in s.events))
  }

  lemma LossesHealedTail(events: seq<Event>)
    requires events != [] && LossesHealed(events)
    ensures LossesHealed(events[1..])
    ensures events[0] == Error(ConnectionLost) ==> IsConnected in events[1..]
  {
    forall j | 0 <= j < |events[1..]| && events[1..][j] == Error(ConnectionLost)
      ensures IsConnected in events[1..][j + 1..]
    {
      assert events[j + 1] == Error(ConnectionLost);
      assert events[1..][j + 1..] == events[j + 2..];
    }
  }

  lemma LossesHealedByConnected(events: seq<Event>, late: seq<ErrorCode>)
    ensures LossesHealed(events + ([IsConnected] + LateErrors(late)))
  {
    var q := events + ([IsConnected] + LateErrors(late));
    forall j | 0 <= j < |q| && q[j] == Error(ConnectionLost) ensures IsConnected in q[j + 1..] {
      assert q[|events|] == IsConnected;
      assert q[j + 1..][|events| - (j + 1)] == IsConnected;
    }
  }

  lemma LossesHealedAppend(events: seq<Event>, more: seq<Event>)
    requires LossesHealed(events) && Error(ConnectionLost) !in more
    ensures LossesHealed(events + more)
  {
    var q := events + more;
    forall j | 0 <= j < |q| && q[j] == Error(ConnectionLost) ensures IsConnected in q[j + 1..] {
      if j < |events| { assert q[j + 1..] == events[j + 1..] + more; }
    }
  }

  lemma TurnKeepsConsistent(s: System, outcome: Outcome)
    requires Consistent(s) && s.commands != []
    ensures Consistent(Next(s, WorkerTurn(outcome)))
  {
    var t := RunCommand(s.worker, s.commands[0], outcome);
    if s.worker.state == Connected { LossesHealedAppend(s.events, t.1); }
    assert WorkerAtRest(t.0, s.heard);
    assert t.0.state == Connected ==> s.worker.state == Connected;
  }

  lemma RadioKeepsConsistent(s: System, step: Step)
    requires Consistent(s) && (step.RadioEstablished? || step.RadioLost?)
    ensures Consistent(Next(s, step))
  {
    assert s.events + [] == s.events;
    if step.RadioEstablished? && s.worker.iface == Some(step.i) {
      LossesHealedByConnected(s.events, step.late);
      var more := [IsConnected] + LateErrors(step.late);
      assert more[0] == IsConnected && IsConnected in s.events + more;
    }
  }

  lemma NextKeepsConsistent(s: System, step: Step)
    requires Consistent(s)
    ensures Consistent(Next(s, step))
  {
    match step
    case DeliverEvent =>
      if s.events != [] && s.worker.state == Connected { LossesHealedTail(s.events); }
    case WorkerTurn(outcome) => if s.commands != [] { TurnKeepsConsistent(s, outcome); }
    case RadioEstablished(_, _) => RadioKeepsConsistent(s, step);
    case RadioLost(_) => RadioKeepsConsistent(s, step);
    case _ =>
  }

  lemma {:induction false} RunConsistent(steps: seq<Step>)
    ensures Consistent(Run(steps))
  {
    if steps != [] {
      RunConsistent(steps[..|steps| - 1]);
      NextKeepsConsistent(Run(steps[..|steps| - 1]), steps[|steps| - 1]);
    }
  }

  // ---------------------------------------------------------------------------------------
  // A reconnect is never silently abandoned
  // ---------------------------------------------------------------------------------------

  predicate ConnectQueued(commands: seq<Command>) {
    exists k | 0 <= k < |commands| :: commands[k].IsConnect()
  }

  predicate InFlight(events: seq<Event>) {
    exists k | 0 <= k < |events| :: events[k].IsConnected? || events[k].Error?
  }

  /** The worker holds an interface that is still downloading: it has neither finished nor been lost. */
  predicate Awaiting(s: System) {
    s.worker.iface.Some? && s.worker.iface.value !in s.heard
  }

  /** A retry sequence is under way and nothing that could carry it on exists any more. */
  predicate Abandoned(s: System) {
    s.sup.active && s.sup.timer.None? && !ConnectQueued(s.commands) && !InFlight(s.events) && !Awaiting(s)
  }

  /** The same with the worker's own state in place of the interface it holds. */
  predicate AbandonedByState(s: System) {
    s.sup.active && s.sup.timer.None? && !ConnectQueued(s.commands) && !InFlight(s.events)
    && s.worker.state != Syncing
  }

  /** A queued connect that no queued disconnect comes after. */
  predicate ConnectSurvives(commands: seq<Command>) {
    exists k | 0 <= k < |commands| :: commands[k].IsConnect() && Disconnect !in commands[k + 1..]
  }

  predicate HoldsOpen(s: System, byState: bool) {
    Disconnect !in s.commands && if byState then s.worker.state == Syncing else Awaiting(s)
  }

  predicate Carried(s: System, byState: bool) {
    s.sup.active ==>
      s.sup.timer.Some? || ConnectSurvives(s.commands) || InFlight(s.events) || HoldsOpen(s, byState)
  }

  /** The worker is about to scan in the middle of a download. */
  predicate ScansWhileSyncing(s: System, step: Step) {
    step.WorkerTurn? && s.commands != [] && s.commands[0] == ScanBle && s.worker.state == Syncing
  }

  /** And that takes away the last thing that showed the retry sequence going on. */
  predicate ScanHides(s: System, step: Step) {
    && ScansWhileSyncing(s, step) && step.outcome.Succeeds?
    && s.sup.active && s.sup.timer.None? && !ConnectSurvives(s.commands[1..]) && !InFlight(s.events)
  }

  /** The timer is about to fire for a profile whose transport no connect slot serves. */
  predicate FiresUnsupported(s: System, step: Step) {
    step.TimerFires? && s.sup.timer.Some? && s.sup.profile.Some? && !Supported(s.sup.profile.value)
  }

  lemma ConnectSurvivesAppend(commands: seq<Command>, more: seq<Command>)
    requires Disconnect !in more
    requires ConnectSurvives(commands) || exists c <- more :: c.IsConnect()
    ensures ConnectSurvives(commands + more)
  {
    var q := commands + more;
    if ConnectSurvives(commands) {
      var k :| 0 <= k < |commands| && commands[k].IsConnect() && Disconnect !in commands[k + 1..];
      assert q[k + 1..] == commands[k + 1..] + more;
      assert q[k].IsConnect();
    } else {
      var j :| 0 <= j < |more| && more[j].IsConnect();
      var k := |commands| + j;
      assert q[k + 1..] == more[j + 1..];
      assert q[k].IsConnect();
    }
  }

  lemma InFlightAppend(events: seq<Event>, more: seq<Event>)
    requires InFlight(events) || InFlight(more)
    ensures InFlight(events + more)
  {
    var q := events + more;
    if InFlight(events) {
      var k :| 0 <= k < |events| && (events[k].IsConnected? || events[k].Error?);
      assert q[k] == events[k];
    } else {
      var k :| 0 <= k < |more| && (more[k].IsConnected? || more[k].Error?);
      assert q[|events| + k] == more[k];
    }
  }

  /** Taking the oldest command: whatever carried the retry on still does, in one form or another. */
  lemma WorkerTurnKeepsCarried(s: System, outcome: Outcome, byState: bool)
    requires Consistent(s) && Carried(s, byState) && s.commands != []
    requires byState ==> !ScanHides(s, WorkerTurn(outcome))
    ensures Carried(Next(s, WorkerTurn(outcome)), byState)
  {
    var cmd := s.commands[0];
    var t := RunCommand(s.worker, cmd, outcome);
    var s' := Next(s, WorkerTurn(outcome));
    if s.sup.active && s.sup.timer.None? {
      assert t.1 != [] && t.1[0].Error? ==> InFlight(t.1);
      if InFlight(s.events) || InFlight(t.1) {
        InFlightAppend(s.events, t.1);
      } else if ConnectSurvives(s.commands) {
        var k :| 0 <= k < |s.commands| && s.commands[k].IsConnect() && Disconnect !in s.commands[k + 1..];
        if k == 0 {
          ConnectTaken(s, outcome);
        } else {
          assert s'.commands[k - 1] == s.commands[k];
          assert s'.commands[k - 1 + 1..] == s.commands[k + 1..];
        }
      }
    }
  }

  /** A connect that is taken ends in a download, in an error, or finds one of them on its way. */
  lemma ConnectTaken(s: System, outcome: Outcome)
    requires Consistent(s) && s.sup.active && s.commands != [] && s.commands[0].IsConnect()
    ensures var s' := Next(s, WorkerTurn(outcome));
            InFlight(s'.events) || (s'.worker.state == Syncing && Awaiting(s'))
  {
    var t := RunCommand(s.worker, s.commands[0], outcome);
    if s.worker.state == Connected {
      var k :| 0 <= k < |s.events| && s.events[k] == IsConnected;
      InFlightAppend(s.events, t.1);
    } else if t.1 != [] {
      assert t.1[0].Error?;
      InFlightAppend(s.events, t.1);
    }
  }

  lemma DeliverKeepsCarried(s: System, byState: bool)
    requires Consistent(s) && Carried(s, byState) && s.events != []
    ensures Carried(Next(s, DeliverEvent), byState)
  {
    var e := s.events[0];
    if e.IsDisconnected? && s.sup.active && InFlight(s.events) {
      var k :| 0 <= k < |s.events| && (s.events[k].IsConnected? || s.events[k].Error?);
      assert s.events[1..][k - 1] == s.events[k];
    }
  }

  lemma RadioKeepsCarried(s: System, step: Step, byState: bool)
    requires Consistent(s) && Carried(s, byState) && (step.RadioEstablished? || step.RadioLost?)
    ensures Carried(Next(s, step), byState)
  {
    var t := if step.RadioLost? then Lost(s.worker, step.i) else Established(s.worker, step.i, step.late);
    if s.worker.iface == Some(step.i) {
      assert t.1[if step.RadioLost? then 1 else 0] in t.1;
    }
    if InFlight(s.events) || InFlight(t.1) { InFlightAppend(s.events, t.1); }
  }

  /** Every step but the two named ones keeps a retry sequence carried. */
  lemma NextKeepsCarried(s: System, step: Step, byState: bool)
    requires Consistent(s) && Carried(s, byState) && !FiresUnsupported(s, step)
    requires byState ==> !ScanHides(s, step)
    ensures Carried(Next(s, step), byState)
  {
    match step
    case DeliverEvent => if s.events != [] { DeliverKeepsCarried(s, byState); }
    case WorkerTurn(outcome) => if s.commands != [] { WorkerTurnKeepsCarried(s, outcome, byState); }
    case RadioEstablished(_, _) => RadioKeepsCarried(s, step, byState);
    case RadioLost(_) => RadioKeepsCarried(s, step, byState);
    case TimerFires =>
      if s.sup.timer.Some? {
        var cmds := s.sup.CommandsOnTimeout();
        assert cmds[0].IsConnect();
        ConnectSurvivesAppend(s.commands, cmds);
      }
    case UserDisconnect =>
    case UserCancel =>
    case _ =>
      var cmds := Next(s, step).commands[|s.commands|..];
      assert Next(s, step).commands == s.commands + cmds;
      if ConnectSurvives(s.commands) { ConnectSurvivesAppend(s.commands, cmds); }
  }

  lemma CarriedMeans(s: System)
    ensures Carried(s, false) ==> !Abandoned(s)
    ensures Carried(s, true) ==> !AbandonedByState(s)
  {
  }

  /** No prefix of the run ends in a step of the given kind. */
  ghost predicate Avoids(steps: seq<Step>, bad: (System, Step) -> bool) {
    forall n | 0 <= n < |steps| :: !bad(Run(steps[..n]), steps[n])
  }

  lemma PrefixAvoids(steps: seq<Step>, n: nat, bad: (System, Step) -> bool)
    requires Avoids(steps, bad) && n <= |steps|
    ensures Avoids(steps[..n], bad)
  {
    forall k | 0 <= k < n ensures !bad(Run(steps[..n][..k]), steps[..n][k]) {
      assert steps[..n][..k] == steps[..k];
    }
  }

  /** In any run a retry sequence is carried on, provided the timer never fires for an unsupported transport. */
  lemma {:induction false} OnlyUnsupportedAbandons(steps: seq<Step>)
    requires Avoids(steps, FiresUnsupported)
    ensures Carried(Run(steps), false) && !Abandoned(Run(steps))
  {
    if steps != [] {
      var n := |steps| - 1;
      PrefixAvoids(steps, n, FiresUnsupported);
      OnlyUnsupportedAbandons(steps[..n]);
      RunConsistent(steps[..n]);
      NextKeepsCarried(Run(steps[..n]), steps[n], false);
    }
    CarriedMeans(Run(steps));
  }

  /** The window's three connect handlers set a profile with one of the three transports, and nothing else sets one. */
  predicate FromMainWindow(steps: seq<Step>) {
    forall k | 0 <= k < |steps| && steps[k].UserConnect? :: Supported(steps[k].profile)
  }

  lemma {:induction false} ProfileSupported(steps: seq<Step>)
    requires FromMainWindow(steps)
    ensures Run(steps).sup.profile.Some? ==> Supported(Run(steps).sup.profile.value)
  {
    if steps != [] { ProfileSupported(steps[..|steps| - 1]); }
  }

  lemma WindowAvoidsUnsupported(steps: seq<Step>)
    requires FromMainWindow(steps)
    ensures Avoids(steps, FiresUnsupported)
  {
    forall n | 0 <= n < |steps| ensures !FiresUnsupported(Run(steps[..n]), steps[n]) {
      ProfileSupported(steps[..n]);
    }
  }

  /**
   In every state of every run the main window can cause, soft reboots included, a retry sequence still has
   its timer armed, a connect queued, a connected or error signal in flight, or an interface that is
   downloading.
   */
  lemma ReconnectNeverAbandoned(steps: seq<Step>)
    requires FromMainWindow(steps)
    ensures Carried(Run(steps), false) && !Abandoned(Run(steps))
  {
    WindowAvoidsUnsupported(steps);
    OnlyUnsupportedAbandons(steps);
  }

  /** With no scan hiding it, the worker's SYNCING state says as much. */
  lemma {:induction false} CarriedByState(steps: seq<Step>)
    requires Avoids(steps, FiresUnsupported) && Avoids(steps, ScanHides)
    ensures Carried(Run(steps), true)
  {
    if steps != [] {
      var n := |steps| - 1;
      PrefixAvoids(steps, n, FiresUnsupported);
      PrefixAvoids(steps, n, ScanHides);
      CarriedByState(steps[..n]);
      RunConsistent(steps[..n]);
      NextKeepsCarried(Run(steps[..n]), steps[n], true);
    }
  }

  /** A scan that hides the sequence leaves nothing that carries it, by state. */
  lemma ScanHidesIt(s: System, step: Step)
    requires ScanHides(s, step)
    ensures !Carried(Next(s, step), true)
  {
    assert s.events + [] == s.events;
  }

  /** In every state the run passes through, the timer, the queues or the state SYNCING carry the sequence. */
  ghost predicate CarriedThroughout(steps: seq<Step>) {
    forall n | 0 <= n <= |steps| :: Carried(Run(steps[..n]), true)
  }

  /** "The worker is SYNCING" may stand for the interface in exactly the runs in which no scan hides the sequence. */
  lemma SyncingCarriesIff(steps: seq<Step>)
    requires FromMainWindow(steps)
    ensures CarriedThroughout(steps) <==> Avoids(steps, ScanHides)
    ensures CarriedThroughout(steps) ==> !AbandonedByState(Run(steps))
  {
    WindowAvoidsUnsupported(steps);
    if Avoids(steps, ScanHides) {
      forall n | 0 <= n <= |steps| ensures Carried(Run(steps[..n]), true) {
        PrefixAvoids(steps, n, FiresUnsupported);
        PrefixAvoids(steps, n, ScanHides);
        CarriedByState(steps[..n]);
      }
    } else {
      var n :| 0 <= n < |steps| && ScanHides(Run(steps[..n]), steps[n]);
      RunPrefix(steps, n);
      ScanHidesIt(Run(steps[..n]), steps[n]);
    }
    assert steps[..|steps|] == steps;
    CarriedMeans(Run(steps));
  }

  /** For the supervisor by itself: a due timer abandons the sequence when and only when it must. */
  lemma UnsupportedAbandonsExactly(s: System)
    requires Consistent(s) && s.sup.timer.Some?
    ensures Abandoned(Next(s, TimerFires)) <==>
            FiresUnsupported(s, TimerFires) && !ConnectQueued(s.commands) && !InFlight(s.events) && !Awaiting(s)
  {
    var cmds := s.sup.CommandsOnTimeout();
    var q := Next(s, TimerFires).commands;
    if cmds == [] {
      assert q == s.commands;
    } else {
      assert q[|s.commands|] == cmds[0];
      assert cmds[0].IsConnect();
    }
  }

  /** The provision on scans is exact: one that succeeds during a download takes the SYNCING state away. */
  lemma ScanAbandonsExactly(s: System, outcome: Outcome)
    requires Consistent(s) && ScansWhileSyncing(s, WorkerTurn(outcome))
    ensures AbandonedByState(Next(s, WorkerTurn(outcome))) <==>
            s.sup.active && s.sup.timer.None? && !ConnectQueued(s.commands[1..]) && !InFlight(s.events)
            && outcome.Succeeds?
    ensures Awaiting(Next(s, WorkerTurn(outcome)))
  {
    var t := RunCommand(s.worker, s.commands[0], outcome);
    if outcome.Fails? {
      assert t.1[0].Error?;
      InFlightAppend(s.events, t.1);
    } else {
      assert s.events + t.1 == s.events;
    }
  }

  // ---------------------------------------------------------------------------------------
  // Runs written out
  // ---------------------------------------------------------------------------------------

  /** `trace` is what a run passes through: each state follows from the one before it. */
  ghost predicate IsTrace(steps: seq<Step>, trace: seq<System>) {
    && |trace| == |steps| + 1 && trace[0] == INITIAL
    && forall k | 0 <= k < |steps| :: Follows(trace[k], steps[k], trace[k + 1])
  }

  predicate Follows(s: System, step: Step, t: System) {
    Next(s, step) == t
  }

  lemma TracePrefix(steps: seq<Step>, trace: seq<System>)
    requires IsTrace(steps, trace) && steps != []
    ensures IsTrace(steps[..|steps| - 1], trace[..|steps|])
  {
    var n := |steps| - 1;
    forall k | 0 <= k < n ensures Follows(trace[..n + 1][k], steps[..n][k], trace[..n + 1][k + 1]) {
      assert Follows(trace[k], steps[k], trace[k + 1]);
    }
  }

  lemma {:induction false} TraceEnds(steps: seq<Step>, trace: seq<System>)
    requires IsTrace(steps, trace)
    ensures Run(steps) == trace[|steps|]
  {
    if steps != [] {
      var n := |steps| - 1;
      TracePrefix(steps, trace);
      TraceEnds(steps[..n], trace[..n + 1]);
      assert Follows(trace[n], steps[n], trace[n + 1]);
    }
  }

  function First(state: ConnectionState): Worker { Worker(state, Some(0), 1) }

  const PORT := ConnectSerial("p")
  const LINK_UP := Supervisor(None, 0, true, false, None)

  /** A serial port opens, a profile is set, the link is lost, and the timer fires. */
  function LossRun(p: Profile): seq<Step> {
    [ReopenPort("p"), WorkerTurn(Succeeds), RadioEstablished(0, []), DeliverEvent, UserConnect(p), RadioLost(0),
     DeliverEvent, DeliverEvent, TimerFires]
  }

  function LossTrace(p: Profile): seq<System> {
    [INITIAL,
     System(INITIAL_SUPERVISOR, INITIAL_WORKER, [PORT], [], {}),
     System(INITIAL_SUPERVISOR, First(Syncing), [], [], {}),
     System(INITIAL_SUPERVISOR, First(Connected), [], [IsConnected], {0}),
     System(LINK_UP, First(Connected), [], [], {0}),
     System(LINK_UP.(profile := Some(p)), First(Connected), [], [], {0}),
     System(LINK_UP.(profile := Some(p)), First(Failed), [], [IsDisconnected(LinkLost), Error(ConnectionLost)], {0}),
     System(LINK_UP.(profile := Some(p)), First(Failed), [], [Error(ConnectionLost)], {0}),
     System(Supervisor(Some(p), 0, true, true, Some(2)), First(Failed), [EnterReconnecting], [], {0}),
     System(Supervisor(Some(p), 0, true, true, None), First(Failed), [EnterReconnecting], [], {0})]
  }

  lemma PortOpens(p: Profile)
    ensures Follows(LossTrace(p)[0], LossRun(p)[0], LossTrace(p)[1])
    ensures Follows(LossTrace(p)[1], LossRun(p)[1], LossTrace(p)[2])
  {
    assert RStrip("p") == "p";
  }

  lemma PortReports(p: Profile)
    ensures Follows(LossTrace(p)[2], LossRun(p)[2], LossTrace(p)[3])
    ensures Follows(LossTrace(p)[3], LossRun(p)[3], LossTrace(p)[4])
  {}

  lemma PortLost(p: Profile)
    requires !Supported(p)
    ensures Follows(LossTrace(p)[4], LossRun(p)[4], LossTrace(p)[5])
    ensures Follows(LossTrace(p)[5], LossRun(p)[5], LossTrace(p)[6])
    ensures Follows(LossTrace(p)[6], LossRun(p)[6], LossTrace(p)[7])
  {
    assert ConnectFor(p) == [];
  }

  lemma TimerFiresInVain(p: Profile)
    requires !Supported(p)
    ensures Follows(LossTrace(p)[7], LossRun(p)[7], LossTrace(p)[8])
    ensures Follows(LossTrace(p)[8], LossRun(p)[8], LossTrace(p)[9])
  {
    assert ConnectFor(p) == [];
  }

  /** A caller that set an unsupported transport would have a reachable sequence abandoned. */
  lemma UnsupportedProfileAbandons(p: Profile)
    requires !Supported(p)
    ensures Abandoned(Run(LossRun(p)))
  {
    PortOpens(p);
    PortReports(p);
    PortLost(p);
    TimerFiresInVain(p);
    TraceEnds(LossRun(p), LossTrace(p));
  }

  // ---------------------------------------------------------------------------------------
  // A connection comes up, and what ends it
  // ---------------------------------------------------------------------------------------

  /** A user connects, the interface opens and reports, and the GUI hears of it. */
  function UpRun(p: Profile): seq<Step> {
    [UserConnect(p), WorkerTurn(Succeeds), RadioEstablished(0, []), DeliverEvent]
  }

  function UpTrace(p: Profile): seq<System> {
    var sup := INITIAL_SUPERVISOR.(profile := Some(p));
    [INITIAL,
     System(sup, INITIAL_WORKER, ConnectFor(p), [], {}),
     System(sup, First(Syncing), [], [], {}),
     System(sup, First(Connected), [], [IsConnected], {0}),
     System(sup.(wasConnected := true), First(Connected), [], [], {0})]
  }

  lemma UpOpens(p: Profile)
    requires |ConnectFor(p)| == 1 && Callable(ConnectFor(p)[0])
    ensures Follows(UpTrace(p)[0], UpRun(p)[0], UpTrace(p)[1]) && Follows(UpTrace(p)[1], UpRun(p)[1], UpTrace(p)[2])
  {
    ConnectSucceedsIff(INITIAL_WORKER, ConnectFor(p)[0]);
  }

  lemma UpReports(p: Profile)
    ensures Follows(UpTrace(p)[2], UpRun(p)[2], UpTrace(p)[3]) && Follows(UpTrace(p)[3], UpRun(p)[3], UpTrace(p)[4])
  {}

  /** Any profile of the three transports that names something to call can come up. */
  lemma ConnectionComesUp(p: Profile)
    requires |ConnectFor(p)| == 1 && Callable(ConnectFor(p)[0])
    ensures var s := Run(UpRun(p)); s.worker.state == Connected && s.sup.wasConnected && !s.sup.active
  {
    UpOpens(p);
    UpReports(p);
    TraceEnds(UpRun(p), UpTrace(p));
  }

  /** For instance by TCP. */
  lemma TcpComesUp()
    ensures var s := Run(UpRun(Profile("tcp", "", "h", 4403, ""))); s.worker.state == Connected && s.sup.wasConnected
  {
    var p := Profile("tcp", "", "h", 4403, "");
    assert !IsSpace(p.tcpHost[0]) && p.tcpHost[..0] == "";
    ConnectionComesUp(p);
  }

  /** A connection ends in one of three ways: its own interface is lost, or a disconnect or a scan is taken. */
  lemma ConnectionEnds(s: System, step: Step)
    requires s.worker.state == Connected && Next(s, step).worker.state != Connected
    ensures (step.RadioLost? && s.worker.iface == Some(step.i))
            || (step.WorkerTurn? && s.commands != [] && s.commands[0] in {Disconnect, ScanBle})
  {
  }

  /** A callback of an interface the worker no longer holds changes nothing. */
  lemma StaleCallbackIgnored(s: System, i: nat, late: seq<ErrorCode>)
    ensures s.worker.iface != Some(i) <==>
            Next(s, RadioLost(i)) == s && Next(s, RadioEstablished(i, late)) == s
  {
    assert s.events + [] == s.events;
    if s.worker.iface == Some(i) { assert |Next(s, RadioLost(i)).events| > |s.events|; }
  }

  // ---------------------------------------------------------------------------------------
  // A scan that hides a reconnect
  // ---------------------------------------------------------------------------------------

  const RADIO := Profile("ble", "address", "", 0, "")
  const DIAL := ConnectBle("address")

  /**
   Both scans are asked for while the worker is FAILED or DISCONNECTED, when the window allows them: the first
   delays the reconnect and ends DISCONNECTED, the second is queued behind the reconnect.
   */
  const SCANS: seq<Step> :=
    [UserConnect(RADIO), WorkerTurn(Succeeds), RadioEstablished(0, []), DeliverEvent, RadioLost(0), DeliverEvent,
     DeliverEvent, UserScan, WorkerTurn(Succeeds), TimerFires, WorkerTurn(Succeeds), UserScan, WorkerTurn(Succeeds),
     WorkerTurn(Succeeds)]

  const IDLE := Supervisor(Some(RADIO), 0, false, false, None)
  const UP := IDLE.(wasConnected := true)
  const ARMED := Supervisor(Some(RADIO), 0, true, true, Some(2))
  const FIRED := ARMED.(timer := None)

  const TRACE: seq<System> := [
    INITIAL,
    System(IDLE, INITIAL_WORKER, [DIAL], [], {}),
    System(IDLE, First(Syncing), [], [], {}),
    System(IDLE, First(Connected), [], [IsConnected], {0}),
    System(UP, First(Connected), [], [], {0}),
    System(UP, First(Failed), [], [IsDisconnected(LinkLost), Error(ConnectionLost)], {0}),
    System(UP, First(Failed), [], [Error(ConnectionLost)], {0}),
    System(ARMED, First(Failed), [EnterReconnecting], [], {0}),
    System(ARMED, First(Failed), [EnterReconnecting, ScanBle], [], {0}),
    System(ARMED, First(Reconnecting), [ScanBle], [], {0}),
    System(FIRED, First(Reconnecting), [ScanBle, DIAL], [], {0}),
    System(FIRED, First(Disconnected), [DIAL], [], {0}),
    System(FIRED, First(Disconnected), [DIAL, ScanBle], [], {0}),
    System(FIRED, Worker(Syncing, Some(1), 2), [ScanBle], [], {0}),
    System(FIRED, Worker(Disconnected, Some(1), 2), [], [], {0})]

  /** The link comes up. */
  lemma LinkUpTrace()
    ensures Follows(TRACE[0], SCANS[0], TRACE[1]) && Follows(TRACE[1], SCANS[1], TRACE[2])
  {}

  /** The GUI hears of it, and the link is lost. */
  lemma LinkLostTrace()
    ensures Follows(TRACE[2], SCANS[2], TRACE[3]) && Follows(TRACE[3], SCANS[3], TRACE[4])
    ensures Follows(TRACE[4], SCANS[4], TRACE[5])
  {}

  /** A retry sequence begins, and a scan is queued. */
  lemma RetryTrace()
    ensures Follows(TRACE[5], SCANS[5], TRACE[6]) && Follows(TRACE[6], SCANS[6], TRACE[7])
    ensures Follows(TRACE[7], SCANS[7], TRACE[8]) && Follows(TRACE[8], SCANS[8], TRACE[9])
  {}

  /** The reconnect waits behind the scan, another scan behind the reconnect. */
  lemma ScanTrace()
    ensures Follows(TRACE[9], SCANS[9], TRACE[10]) && Follows(TRACE[10], SCANS[10], TRACE[11])
    ensures Follows(TRACE[11], SCANS[11], TRACE[12]) && Follows(TRACE[12], SCANS[12], TRACE[13])
    ensures Follows(TRACE[13], SCANS[13], TRACE[14])
  {}

  /** A run of the program that ends with a reconnect under way which no state, queue or timer shows. */
  lemma ScanHidesReconnect()
    ensures FromMainWindow(SCANS) && AbandonedByState(Run(SCANS)) && Awaiting(Run(SCANS))
  {
    LinkUpTrace();
    LinkLostTrace();
    RetryTrace();
    ScanTrace();
    TraceEnds(SCANS, TRACE);
  }

  // ---------------------------------------------------------------------------------------
  // Cancel is final, and backoff follows the table
  // ---------------------------------------------------------------------------------------

  ghost predicate Delivers(steps: seq<Step>, n: nat, e: Event)
    requires n < |steps|
  {
    steps[n].DeliverEvent? && Run(steps[..n]).events != [] && Run(steps[..n]).events[0] == e
  }

  ghost predicate Cancels(steps: seq<Step>, n: nat)
    requires n < |steps|
  {
    steps[n].UserDisconnect? || steps[n].UserCancel? || Delivers(steps, n, IsDisconnected(ByUser))
  }

  ghost predicate IssuesReconnect(steps: seq<Step>, n: nat)
    requires n < |steps|
  {
    steps[n].TimerFires? && Run(steps[..n]).sup.timer.Some?
  }

  lemma RunSnoc(steps: seq<Step>, step: Step)
    ensures Run(steps + [step]) == Next(Run(steps), step)
  {
    assert (steps + [step])[..|steps|] == steps;
  }

  lemma RunPrefix(steps: seq<Step>, n: nat)
    requires n < |steps|
    ensures Run(steps[..n + 1]) == Next(Run(steps[..n]), steps[n])
  {
    assert steps[..n + 1] == steps[..n] + [steps[n]];
    RunSnoc(steps[..n], steps[n]);
  }

  /** What one step can teach the supervisor. */
  lemma SupervisorStep(s: System, step: Step)
    ensures var s' := Next(s, step);
            var heard := if step.DeliverEvent? && s.events != [] then Some(s.events[0]) else None;
            && (s'.sup.active && !s.sup.active ==>
                  heard == Some(Error(ConnectionLost)) && s.sup.wasConnected && s'.sup.attempt == 0)
            && (s'.sup.wasConnected && !s.sup.wasConnected ==> heard == Some(IsConnected))
            && (s'.sup.active && s.sup.active ==>
                  s'.sup.attempt == s.sup.attempt + if heard.Some? && heard.value.Error? then 1 else 0)
            && (step.UserDisconnect? || step.UserCancel? || heard == Some(IsDisconnected(ByUser)) ==>
                  !s'.sup.active && !s'.sup.wasConnected)
  {
  }

  lemma CancelForgets(steps: seq<Step>, i: nat)
    requires i < |steps| && Cancels(steps, i)
    ensures !Run(steps[..i + 1]).sup.wasConnected && !Run(steps[..i + 1]).sup.active
  {
    RunPrefix(steps, i);
    SupervisorStep(Run(steps[..i]), steps[i]);
  }

  /** What the supervisor remembers after a cancel was taught it by later signals, in order. */
  lemma {:induction false} MemoryAfterCancel(steps: seq<Step>, i: nat, m: nat)
    requires i < m <= |steps| && Cancels(steps, i)
    ensures Run(steps[..m]).sup.wasConnected ==> exists k | i < k < m :: Delivers(steps, k, IsConnected)
    ensures Run(steps[..m]).sup.active ==>
              exists k, l | i < k < l < m ::
                Delivers(steps, k, IsConnected) && Delivers(steps, l, Error(ConnectionLost))
  {
    if i == m - 1 {
      CancelForgets(steps, i);
    } else {
      MemoryAfterCancel(steps, i, m - 1);
      MemoryKept(steps, i, m - 1);
    }
  }

  lemma MemoryKept(steps: seq<Step>, i: nat, n: nat)
    requires i < n < |steps|
    requires Run(steps[..n]).sup.wasConnected ==> exists k | i < k < n :: Delivers(steps, k, IsConnected)
    requires Run(steps[..n]).sup.active ==>
              exists k, l | i < k < l < n ::
                Delivers(steps, k, IsConnected) && Delivers(steps, l, Error(ConnectionLost))
    ensures Run(steps[..n + 1]).sup.wasConnected ==> exists k | i < k < n + 1 :: Delivers(steps, k, IsConnected)
    ensures Run(steps[..n + 1]).sup.active ==>
              exists k, l | i < k < l < n + 1 ::
                Delivers(steps, k, IsConnected) && Delivers(steps, l, Error(ConnectionLost))
  {
    RunPrefix(steps, n);
    var before, after := Run(steps[..n]), Run(steps[..n + 1]);
    SupervisorStep(before, steps[n]);
    if after.sup.active && !before.sup.active {
      assert Delivers(steps, n, Error(ConnectionLost));
    }
    if after.sup.wasConnected && !before.sup.wasConnected {
      assert Delivers(steps, n, IsConnected);
    }
  }

  /**
   After a cancel no reconnect is issued until a connected signal has been followed by a lost
   connection, both of them delivered after the cancel.
   */
  lemma CancelIsFinal(steps: seq<Step>, i: nat, j: nat)
    requires i < j < |steps| && Cancels(steps, i) && IssuesReconnect(steps, j)
    ensures exists k, l | i < k < l < j ::
              Delivers(steps, k, IsConnected) && Delivers(steps, l, Error(ConnectionLost))
  {
    RunConsistent(steps[..j]);
    MemoryAfterCancel(steps, i, j);
  }

  ghost predicate HearsError(steps: seq<Step>, n: nat)
    requires n < |steps|
  {
    exists c :: Delivers(steps, n, Error(c))
  }

  /** How many errors were delivered in steps i..j. */
  ghost function ErrorsDelivered(steps: seq<Step>, i: nat, j: nat): nat
    requires i <= j <= |steps|
    decreases j
  {
    if i == j then 0
    else ErrorsDelivered(steps, i, j - 1) + if HearsError(steps, j - 1) then 1 else 0
  }

  lemma BackoffBounds(a: nat, b: nat)
    requires a <= b
    ensures 2 <= Backoff(a) <= Backoff(b) <= 60
  {
  }

  lemma ErrorsDeliveredGrow(steps: seq<Step>, i: nat, m: nat, j: nat)
    requires i <= m <= j <= |steps|
    ensures ErrorsDelivered(steps, i, m) <= ErrorsDelivered(steps, i, j)
    decreases j
  {
    if m < j { ErrorsDeliveredGrow(steps, i, m, j - 1); }
  }

  /** Step n is part of a running retry sequence: only a delivered error changes the attempt number. */
  lemma AttemptCountsErrors(steps: seq<Step>, n: nat)
    requires n < |steps| && Run(steps[..n]).sup.active && Run(steps[..n + 1]).sup.active
    ensures Run(steps[..n + 1]).sup.attempt ==
            Run(steps[..n]).sup.attempt + if HearsError(steps, n) then 1 else 0
  {
    RunPrefix(steps, n);
    var before := Run(steps[..n]);
    SupervisorStep(before, steps[n]);
    if steps[n].DeliverEvent? && before.events != [] && before.events[0].Error? {
      assert Delivers(steps, n, Error(before.events[0].code));
    }
  }

  /** Step i starts a retry sequence: it delivers a lost connection, and counting starts at 0. */
  lemma SequenceStarts(steps: seq<Step>, i: nat)
    requires i < |steps| && !Run(steps[..i]).sup.active && Run(steps[..i + 1]).sup.active
    ensures Delivers(steps, i, Error(ConnectionLost)) && Run(steps[..i + 1]).sup.attempt == 0
  {
    RunPrefix(steps, i);
    SupervisorStep(Run(steps[..i]), steps[i]);
  }

  ghost predicate ActiveAfter(steps: seq<Step>, m: nat)
    requires m <= |steps|
  {
    Run(steps[..m]).sup.active
  }

  ghost predicate AttemptIs(steps: seq<Step>, m: nat, attempt: nat)
    requires m <= |steps|
  {
    Run(steps[..m]).sup.attempt == attempt
  }

  /** Active in every state after steps i .. j - 1, and not before. */
  ghost predicate RetrySequence(steps: seq<Step>, i: nat, j: nat)
    requires i < j <= |steps|
  {
    !ActiveAfter(steps, i) && forall m | i < m <= j :: ActiveAfter(steps, m)
  }

  /** A retry sequence begins with a delivered lost connection, at attempt 0. */
  lemma RetryBegins(steps: seq<Step>, i: nat, j: nat)
    requires i < j <= |steps| && RetrySequence(steps, i, j)
    ensures Delivers(steps, i, Error(ConnectionLost)) && AttemptIs(steps, i + 1, 0)
  {
    assert ActiveAfter(steps, i + 1);
    SequenceStarts(steps, i);
  }

  lemma RetryShrinks(steps: seq<Step>, i: nat, j: nat)
    requires i < j - 1 < |steps| && RetrySequence(steps, i, j)
    ensures RetrySequence(steps, i, j - 1) && ActiveAfter(steps, j - 1) && ActiveAfter(steps, j)
  {
  }

  lemma AttemptStep(steps: seq<Step>, i: nat, n: nat)
    requires i < n < |steps| && ActiveAfter(steps, n) && ActiveAfter(steps, n + 1)
    requires AttemptIs(steps, n, ErrorsDelivered(steps, i + 1, n))
    ensures AttemptIs(steps, n + 1, ErrorsDelivered(steps, i + 1, n + 1))
  {
    AttemptCountsErrors(steps, n);
  }

  /** The attempt number is the number of errors delivered since the sequence began. */
  lemma {:induction false} AttemptNumber(steps: seq<Step>, i: nat, j: nat)
    requires i < j <= |steps| && RetrySequence(steps, i, j)
    ensures AttemptIs(steps, j, ErrorsDelivered(steps, i + 1, j))
    decreases j
  {
    var n := j - 1;
    if i == n {
      RetryBegins(steps, i, j);
      assert ErrorsDelivered(steps, j, j) == 0;
    } else {
      RetryShrinks(steps, i, j);
      AttemptNumber(steps, i, n);
      AttemptStep(steps, i, n);
    }
  }

  /**
   Within one retry sequence the armed delay is the table's entry for the number of errors
   delivered since it began (its last entry once exhausted), never above 60 s, and no delay
   armed earlier in the sequence was longer.
   */
  lemma BackoffFollowsFailures(steps: seq<Step>, i: nat, m: nat, j: nat)
    requires i < m <= j <= |steps| && RetrySequence(steps, i, j)
    requires Run(steps[..m]).sup.timer.Some? && Run(steps[..j]).sup.timer.Some?
    ensures Run(steps[..j]).sup.timer.value == Backoff(ErrorsDelivered(steps, i + 1, j))
    ensures 2 <= Run(steps[..m]).sup.timer.value <= Run(steps[..j]).sup.timer.value <= 60
  {
    RunConsistent(steps[..m]);
    RunConsistent(steps[..j]);
    AttemptNumber(steps, i, m);
    AttemptNumber(steps, i, j);
    ErrorsDeliveredGrow(steps, i + 1, m, j);
    BackoffBounds(ErrorsDelivered(steps, i + 1, m), ErrorsDelivered(steps, i + 1, j));
  }
}
