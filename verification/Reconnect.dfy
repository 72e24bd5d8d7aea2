/**
 The supervisor (GUI thread) and the worker (radio thread) that keep a connection alive: what
 each handler does to its own state and what it sends the other side.
 */
module Reconnect {
  import opened Prelude

  /** The states a worker can be in between two handlers, and those it only passes through. */
  datatype ConnectionState =
    | Disconnected | Scanning | Connecting | Syncing | Connected | Reconnecting | Disconnecting | Failed

  datatype ErrorCode =
    | ConnectionLost | BleNotAvailable | TcpHostNotFound | SerialPortNotFound
    | ConnectFailed | SendFailed | DeviceControlFailed | InternalError

  datatype Profile = Profile(transport: string, bleAddress: string, tcpHost: string, tcpPort: int, serialPort: string)

  /** Queued invocations, GUI to worker. `Action` stands for every slot that uses a live connection. */
  datatype Command =
    | ConnectBle(address: string) | ConnectTcp(host: string, port: int) | ConnectSerial(path: string)
    | Disconnect | EnterReconnecting | ScanBle | Action
  {
    predicate IsConnect() { ConnectBle? || ConnectTcp? || ConnectSerial? }
  }

  datatype Reason = ByUser | LinkLost

  /** The worker's signals the supervisor listens to, worker to GUI. */
  datatype Event = IsConnected | IsDisconnected(reason: Reason) | Error(code: ErrorCode)

  const BACKOFF_SECONDS: seq<nat> := [2, 5, 15, 30, 60]

  function Backoff(attempt: nat): nat {
    BACKOFF_SECONDS[if attempt < |BACKOFF_SECONDS| - 1 then attempt else |BACKOFF_SECONDS| - 1]
  }

  /** 2, 5, 15 and 30 seconds, then a minute each time. */
  lemma BackoffTable(attempt: nat)
    ensures Backoff(0) == 2 && Backoff(1) == 5 && Backoff(2) == 15 && Backoff(3) == 30
    ensures attempt >= 4 ==> Backoff(attempt) == 60
  {}

  // ---------------------------------------------------------------------------------------
  // Supervisor
  // ---------------------------------------------------------------------------------------

  /** `timer` holds the delay the one-shot timer was last started with, while it is armed. */
  datatype Supervisor = Supervisor(
    profile: Option<Profile>, attempt: nat, wasConnected: bool, active: bool, timer: Option<nat>)
  {
    function Cancelled(): Supervisor {
      this.(active := false, wasConnected := false, timer := None)
    }

    function AfterConnected(): Supervisor {
      this.(timer := None, active := false, attempt := 0, wasConnected := true)
    }

    function AfterDisconnected(reason: Reason): Supervisor {
      if reason == ByUser then Cancelled() else this
    }

    /** Whether this error starts or continues a retry sequence. */
    predicate Retries(code: ErrorCode) {
      active || (code == ConnectionLost && wasConnected && profile.Some?)
    }

    function AfterError(code: ErrorCode): Supervisor {
      if !Retries(code) then this
      else
        var n := if active then attempt + 1 else 0;
        this.(active := true, attempt := n, timer := Some(Backoff(n)))
    }

    function CommandsOnError(code: ErrorCode): seq<Command> {
      if Retries(code) then [EnterReconnecting] else []
    }

    /** The one-shot timer has fired. */
    function CommandsOnTimeout(): seq<Command> {
      if !active || profile.None? then [] else ConnectFor(profile.value)
    }
  }

  /** The connect invocation a profile asks for; none when its transport is not one of the three. */
  function ConnectFor(p: Profile): (cmds: seq<Command>)
    ensures Supported(p) <==> |cmds| == 1
    ensures forall c <- cmds :: c.IsConnect()
    ensures ConnectTcp(p.tcpHost, p.tcpPort) in cmds <==> p.transport == "tcp"
    ensures ConnectSerial(p.serialPort) in cmds <==> p.transport == "serial"
    ensures ConnectBle(p.bleAddress) in cmds <==> p.transport == "ble"
  {
    if p.transport == "tcp" then [ConnectTcp(p.tcpHost, p.tcpPort)]
    else if p.transport == "serial" then [ConnectSerial(p.serialPort)]
    else if p.transport == "ble" then [ConnectBle(p.bleAddress)]
    else []
  }

  const INITIAL_SUPERVISOR := Supervisor(None, 0, false, false, None)

  predicate Supported(p: Profile) {
    p.transport in {"tcp", "serial", "ble"}
  }

  /** The supervisor as the program holds it; `issued` are the commands it has queued so far. */
  class ConnectionSupervisor {
    var profile: Option<Profile>
    var attempt: nat
    var wasConnected: bool
    var active: bool
    var timer: Option<nat>
    var issued: seq<Command>

    function State(): Supervisor
      reads this
    {
      Supervisor(profile, attempt, wasConnected, active, timer)
    }

    constructor ()
      ensures State() == INITIAL_SUPERVISOR && issued == []
    {
      profile, attempt, wasConnected, active, timer, issued := None, 0, false, false, None, [];
    }

    method SetProfile(p: Profile)
      modifies this
      ensures State() == old(State()).(profile := Some(p)) && issued == old(issued)
    {
      profile := Some(p);
    }

    method Cancel()
      modifies this
      ensures State() == old(State()).Cancelled() && issued == old(issued)
    {
      active := false;
      wasConnected := false;
      timer := None;
    }

    method OnConnected()
      modifies this
      ensures State() == old(State()).AfterConnected() && issued == old(issued)
    {
      timer := None;
      active := false;
      attempt := 0;
      wasConnected := true;
    }

    method OnDisconnected(reason: Reason)
      modifies this
      ensures State() == old(State()).AfterDisconnected(reason) && issued == old(issued)
    {
      if reason == ByUser {
        Cancel();
      }
    }

    method OnError(code: ErrorCode)
      modifies this
      ensures State() == old(State()).AfterError(code)
      ensures issued == old(issued) + old(State()).CommandsOnError(code)
    {
      if active {
        attempt := attempt + 1;
        ScheduleRetry();
      } else if code == ConnectionLost && wasConnected && profile.Some? {
        active := true;
        attempt := 0;
        ScheduleRetry();
      }
    }

    method ScheduleRetry()
      modifies this
      ensures State() == old(State()).(timer := Some(Backoff(attempt)))
      ensures issued == old(issued) + [EnterReconnecting]
    {
      var delay := BACKOFF_SECONDS[if attempt < |BACKOFF_SECONDS| - 1 then attempt else |BACKOFF_SECONDS| - 1];
      issued := issued + [EnterReconnecting];
      timer := Some(delay);
    }

    /** The timer's slot; a one-shot timer is disarmed before its slot runs. */
    method AttemptReconnect()
      modifies this
      ensures State() == old(State()).(timer := None)
      ensures issued == old(issued) + old(State()).CommandsOnTimeout()
    {
      timer := None;
      if !active || profile.None? {
        return;
      }
      var p := profile.value;
      if p.transport == "tcp" {
        issued := issued + [ConnectTcp(p.tcpHost, p.tcpPort)];
      } else if p.transport == "serial" {
        issued := issued + [ConnectSerial(p.serialPort)];
      } else if p.transport == "ble" {
        issued := issued + [ConnectBle(p.bleAddress)];
      }
    }
  }

  // ---------------------------------------------------------------------------------------
  // Worker
  // ---------------------------------------------------------------------------------------

  /** Radio interfaces are numbered in the order they are created; `created` counts them. */
  datatype Worker = Worker(state: ConnectionState, iface: Option<nat>, created: nat) {
    predicate Accepts() {
      state == Disconnected || state == Failed || state == Reconnecting
    }
  }

  const INITIAL_WORKER := Worker(Disconnected, None, 0)

  /** What the world answers to a command: the connect constructor, the scan, the action. */
  datatype Outcome = Succeeds | Fails(code: ErrorCode)

  function StartsWith(s: string, prefix: string): bool { prefix <= s }

  /** The checks a connect slot makes before it touches the current interface. */
  function Rejected(cmd: Command): Option<ErrorCode> {
    match cmd
    case ConnectTcp(host, port) =>
      var h := Strip(host);
      if h == [] || StartsWith(h, "http://") || StartsWith(h, "https://") || !(1 <= port <= 65535)
      then Some(TcpHostNotFound) else None
    case ConnectSerial(path) => if Strip(path) == [] then Some(SerialPortNotFound) else None
    case _ => None
  }

  /** A connect that fails never reports a lost connection: there was none yet. */
  function ConnectCode(outcome: Outcome): ErrorCode
    requires outcome.Fails?
  {
    if outcome.code == ConnectionLost then ConnectFailed else outcome.code
  }

  /** One worker slot, run to its end. */
  function RunCommand(w: Worker, cmd: Command, outcome: Outcome): (Worker, seq<Event>) {
    match cmd
    case Disconnect =>
      if w.state == Disconnected then (w, [])
      else (w.(state := Disconnected, iface := None), [IsDisconnected(ByUser)])
    case EnterReconnecting =>
      if w.state in {Connecting, Syncing, Connected} then (w, [])
      else (w.(state := Reconnecting), [])
    case ScanBle =>
      (w.(state := Disconnected), if outcome.Fails? then [Error(BleNotAvailable)] else [])
    case Action =>
      if w.state != Connected || w.iface.None? then (w, [Error(SendFailed)])
      else (w, if outcome.Fails? then [Error(ConnectCode(outcome))] else [])
    case _ =>
      if !w.Accepts() then (w, [])
      else if Rejected(cmd).Some? then (w, [Error(Rejected(cmd).value)])
      else if outcome.Succeeds? then (Worker(Syncing, Some(w.created), w.created + 1), [])
      else (w.(state := Disconnected, iface := None), [Error(ConnectCode(outcome))])
  }

  /** A disconnect leaves no interface and says so once; on a worker that is DISCONNECTED it changes nothing. */
  lemma DisconnectTaken(w: Worker, outcome: Outcome)
    ensures var (after, events) := RunCommand(w, Disconnect, outcome);
            && after.state == Disconnected && after.created == w.created
            && (w.state == Disconnected ==> after == w && events == [])
            && (w.state != Disconnected ==> after.iface == None && events == [IsDisconnected(ByUser)])
  {}

  /** Whatever uses the connection needs one: without it, it changes nothing and reports that sending failed. */
  lemma ActionTaken(w: Worker, outcome: Outcome)
    ensures var (after, events) := RunCommand(w, Action, outcome);
            && after == w
            && (events == [] <==> w.state == Connected && w.iface.Some? && outcome.Succeeds?)
            && (w.state != Connected || w.iface.None? ==> events == [Error(SendFailed)])
            && Error(ConnectionLost) !in events
  {}

  /** The text, once stripped, begins like this. */
  predicate BeginsAs(s: string, prefix: string) {
    exists i | 0 <= i <= |s| :: Blank(s[..i]) && prefix <= s[i..]
  }

  /** There is something to call: a host that is not blank and not a URL, with a real port; a port name; any address. */
  predicate Callable(cmd: Command)
    requires cmd.IsConnect()
  {
    match cmd
    case ConnectTcp(host, port) =>
      !Blank(host) && !BeginsAs(host, "http://") && !BeginsAs(host, "https://") && 1 <= port <= 65535
    case ConnectSerial(path) => !Blank(path)
    case _ => true
  }

  lemma RejectedIff(cmd: Command)
    requires cmd.IsConnect()
    ensures Rejected(cmd).None? <==> Callable(cmd)
  {
    match cmd
    case ConnectTcp(host, _) =>
      StripEmptyIffBlank(host);
      StripBegins(host, "http://");
      StripBegins(host, "https://");
    case ConnectSerial(path) => StripEmptyIffBlank(path);
    case ConnectBle(_) =>
  }

  lemma StripBegins(s: string, prefix: string)
    requires prefix != "" && !IsSpace(prefix[0]) && !IsSpace(prefix[|prefix| - 1])
    ensures StartsWith(Strip(s), prefix) <==> BeginsAs(s, prefix)
  {
    var i, j := StripMeaning(s);
    if BeginsAs(s, prefix) {
      var k :| 0 <= k <= |s| && Blank(s[..k]) && prefix <= s[k..];
      BeginsInside(s, prefix, i, j, k);
    }
  }

  lemma BeginsInside(s: string, prefix: string, i: nat, j: nat, k: nat)
    requires prefix != "" && !IsSpace(prefix[0]) && !IsSpace(prefix[|prefix| - 1])
    requires i <= j <= |s| && Blank(s[..i]) && Blank(s[j..]) && (i < j ==> !IsSpace(s[i]))
    requires k <= |s| && Blank(s[..k]) && prefix <= s[k..]
    ensures prefix <= s[i..j]
  {
    var last := k + |prefix| - 1;
    assert s[k] == s[k..][0] == prefix[0] && s[last] == s[k..][|prefix| - 1] == prefix[|prefix| - 1];
    InkIsInside(s, i, j, k);
    InkIsInside(s, i, j, last);
    InkIsInside(s, k, |s|, i);
    assert s[i..j][..|prefix|] == s[k..][..|prefix|];
  }

  /** A character that is no whitespace lies between the ends. */
  lemma InkIsInside(s: string, i: nat, j: nat, k: nat)
    requires i <= j <= |s| && Blank(s[..i]) && Blank(s[j..]) && k < |s| && !IsSpace(s[k])
    ensures i <= k < j
  {
    assert forall m | 0 <= m < i :: s[m] == s[..i][m];
    assert forall m | j <= m < |s| :: s[m] == s[j..][m - j];
  }

  /**
   From a state that accepts it, a connect whose constructor succeeds ends in SYNCING with the new interface exactly
   when there is something to call; otherwise nothing changes, the old interface is kept, and one error says why.
   */
  lemma ConnectSucceedsIff(w: Worker, cmd: Command)
    requires cmd.IsConnect() && w.state in {Disconnected, Failed, Reconnecting}
    ensures var (after, events) := RunCommand(w, cmd, Succeeds);
            if Callable(cmd) then after == Worker(Syncing, Some(w.created), w.created + 1) && events == []
            else after == w && events == [Error(if cmd.ConnectTcp? then TcpHostNotFound else SerialPortNotFound)]
  {
    RejectedIff(cmd);
  }

  /** In any other state a connect is ignored; one whose constructor fails closes the old interface and says so once. */
  lemma ConnectOtherwise(w: Worker, cmd: Command, outcome: Outcome)
    requires cmd.IsConnect()
    ensures w.state !in {Disconnected, Failed, Reconnecting} ==> RunCommand(w, cmd, outcome) == (w, [])
    ensures w.state in {Disconnected, Failed, Reconnecting} && Callable(cmd) && outcome.Fails? ==>
              var (after, events) := RunCommand(w, cmd, outcome);
              && after == Worker(Disconnected, None, w.created)
              && |events| == 1 && events[0].Error? && events[0].code != ConnectionLost
              && (outcome.code != ConnectionLost ==> events[0].code == outcome.code)
  {
    RejectedIff(cmd);
  }

  /** Library callback: interface `i` finished its download. `late` are errors raised after `connected`. */
  function Established(w: Worker, i: nat, late: seq<ErrorCode>): (Worker, seq<Event>) {
    if w.iface != Some(i) then (w, [])
    else (w.(state := Connected), [IsConnected] + LateErrors(late))
  }

  function LateErrors(late: seq<ErrorCode>): seq<Event> {
    seq(|late|, k requires 0 <= k < |late| => Error(if late[k] == ConnectionLost then InternalError else late[k]))
  }

  /** Library callback: interface `i` lost its link. The interface is kept: it may only be rebooting. */
  function Lost(w: Worker, i: nat): (Worker, seq<Event>) {
    if w.iface != Some(i) then (w, [])
    else (w.(state := Failed), [IsDisconnected(LinkLost), Error(ConnectionLost)])
  }

  class MeshtasticWorker {
    var state: ConnectionState
    var iface: Option<nat>
    var created: nat
    var emitted: seq<Event>

    function State(): Worker
      reads this
    {
      Worker(state, iface, created)
    }

    constructor ()
      ensures State() == INITIAL_WORKER && emitted == []
    {
      state, iface, created, emitted := Disconnected, None, 0, [];
    }

    method CloseInterface()
      modifies this`iface
      ensures iface == None
    {
      iface := None;
    }

    /** The three connect slots differ in their checks and in what they construct. */
    method Connect(cmd: Command, outcome: Outcome)
      requires cmd.IsConnect()
      modifies this
      ensures State() == RunCommand(old(State()), cmd, outcome).0
      ensures emitted == old(emitted) + RunCommand(old(State()), cmd, outcome).1
    {
      if state != Disconnected && state != Failed && state != Reconnecting {
        return;
      }
      var rejected := Rejected(cmd);
      if rejected.Some? {
        emitted := emitted + [Error(rejected.value)];
        return;
      }
      CloseInterface();
      state := Connecting;
      if outcome.Succeeds? {
        iface := Some(created);
        created := created + 1;
        state := Syncing;
      } else {
        iface := None;
        state := Failed;
        state := Disconnected;
        emitted := emitted + [Error(ConnectCode(outcome))];
      }
    }

    method DisconnectRadio(ghost outcome: Outcome)
      modifies this
      ensures State() == RunCommand(old(State()), Disconnect, outcome).0
      ensures emitted == old(emitted) + RunCommand(old(State()), Disconnect, outcome).1
    {
      if state == Disconnected {
        return;
      }
      state := Disconnecting;
      CloseInterface();
      state := Disconnected;
      emitted := emitted + [IsDisconnected(ByUser)];
    }

    method EnterReconnectingState(ghost outcome: Outcome)
      modifies this
      ensures State() == RunCommand(old(State()), EnterReconnecting, outcome).0
      ensures emitted == old(emitted) + RunCommand(old(State()), EnterReconnecting, outcome).1
    {
      if state == Connecting || state == Syncing || state == Connected {
        return;
      }
      state := Reconnecting;
    }

    method Scan(outcome: Outcome)
      modifies this
      ensures State() == RunCommand(old(State()), ScanBle, outcome).0
      ensures emitted == old(emitted) + RunCommand(old(State()), ScanBle, outcome).1
    {
      state := Scanning;
      state := Disconnected;
      if outcome.Fails? {
        emitted := emitted + [Error(BleNotAvailable)];
      }
    }

    method OnConnectionEstablished(i: nat, late: seq<ErrorCode>)
      modifies this
      ensures State() == Established(old(State()), i, late).0
      ensures emitted == old(emitted) + Established(old(State()), i, late).1
    {
      if iface != Some(i) {
        return;
      }
      state := Connected;
      emitted := emitted + ([IsConnected] + LateErrors(late));
    }

    method OnConnectionLost(i: nat)
      modifies this
      ensures State() == Lost(old(State()), i).0
      ensures emitted == old(emitted) + Lost(old(State()), i).1
    {
      if iface != Some(i) {
        return;
      }
      state := Failed;
      emitted := emitted + [IsDisconnected(LinkLost)];
      emitted := emitted + [Error(ConnectionLost)];
    }
  }
}
