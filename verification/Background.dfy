/** The socket lifecycle of browser/src/background/background.ts: module variables that
    event handlers reassign, over sockets and timers that the browser runs. */
module Background {
  import opened Options

  datatype ReadyState = Connecting | Open | Closing | Closed

  /** `ws`, `reconnectTimer` and `heartbeatTimer` are the module's variables; `sockets`,
      `timeouts` and `intervals` are what the browser has running for it.  A socket that
      is closing still owes its close event. */
  datatype State = State(
    device: Option<string>, ws: Option<nat>, reconnectTimer: Option<nat>, heartbeatTimer: Option<nat>,
    sockets: seq<ReadyState>, timeouts: set<nat>, intervals: set<nat>, nextTimer: nat)

  const IDLE := State(None, None, None, None, [], {}, {}, 1)

  predicate Live(s: State, i: nat) {
    i < |s.sockets| && (s.sockets[i] == Connecting || s.sockets[i] == Open)
  }

  predicate SocketIs(s: State, state: ReadyState) {
    s.ws.Some? && s.ws.value < |s.sockets| && s.sockets[s.ws.value] == state
  }

  // ---------- the handlers ----------

  /** `connect`: only with a label, and not while the current socket is live. */
  function Connect(s: State): State {
    if s.device == None || SocketIs(s, Connecting) || SocketIs(s, Open) then s
    else s.(sockets := s.sockets + [Connecting], ws := Some(|s.sockets|))
  }

  function ScheduleReconnect(s: State): State {
    if s.reconnectTimer.Some? then s
    else s.(reconnectTimer := Some(s.nextTimer), timeouts := s.timeouts + {s.nextTimer}, nextTimer := s.nextTimer + 1)
  }

  function StopHeartbeat(s: State): State {
    match s.heartbeatTimer
    case None => s
    case Some(t) => s.(intervals := s.intervals - {t}, heartbeatTimer := None)
  }

  function StartHeartbeat(s: State): State {
    var stopped := StopHeartbeat(s);
    stopped.(heartbeatTimer := Some(s.nextTimer), intervals := stopped.intervals + {s.nextTimer},
        nextTimer := s.nextTimer + 1)
  }

  /** `handleStorageChange`: a new, non-empty label. */
  function HandleStorageChange(s: State, stored: string): State {
    if stored == "" then s
    else
      var labelled := s.(device := Some(stored));
      if SocketIs(labelled, Open) then labelled else Connect(labelled)
  }

  // ---------- the steps of a run ----------

  /** What can happen next: storage reports a label, a socket opens, a live socket starts to
      close, a socket's close event is delivered, a timeout fires. */
  datatype Event =
    | LabelStored(stored: string)
    | SocketOpens(i: nat)
    | SocketCloses(i: nat)
    | CloseEvent(i: nat)
    | TimeoutFires(t: nat)

  /** Whether the browser can raise the event now. */
  predicate Enabled(s: State, e: Event) {
    match e
    case LabelStored(_) => true
    case SocketOpens(i) => i < |s.sockets| && s.sockets[i] == Connecting
    case SocketCloses(i) => Live(s, i)
    case CloseEvent(i) => i < |s.sockets| && s.sockets[i] == Closing
    case TimeoutFires(t) => t in s.timeouts
  }

  function Step(s: State, e: Event): State
    requires Enabled(s, e)
  {
    match e
    case LabelStored(stored) => HandleStorageChange(s, stored)
    case SocketOpens(i) => StartHeartbeat(s.(sockets := s.sockets[i := Open]))
    case SocketCloses(i) => s.(sockets := s.sockets[i := Closing])
    case CloseEvent(i) => ScheduleReconnect(StopHeartbeat(s.(sockets := s.sockets[i := Closed])))
    case TimeoutFires(t) => Connect(s.(timeouts := s.timeouts - {t}, reconnectTimer := None))
  }

  /** The start-up: a stored label connects at once. */
  function Start(stored: Option<string>): State {
    if stored.Some? && stored.value != "" then Connect(IDLE.(device := stored)) else IDLE
  }

  predicate Possible(s: State, events: seq<Event>)
    decreases |events|
  {
    events == [] || (Enabled(s, events[0]) && Possible(Step(s, events[0]), events[1..]))
  }

  function Run(s: State, events: seq<Event>): State
    requires Possible(s, events)
    decreases |events|
  {
    if events == [] then s else Run(Step(s, events[0]), events[1..])
  }

  // ---------- what every run keeps ----------

  ghost predicate OneTimer(variable: Option<nat>, running: set<nat>, next: nat) {
    && running == (if variable.Some? then {variable.value} else {})
    && (variable.Some? ==> variable.value < next)
  }

  ghost predicate Inv(s: State) {
    // at most one socket is live, and it is the current one
    && (forall i: nat :: Live(s, i) ==> s.ws == Some(i))
    && (s.ws.Some? ==> s.ws.value < |s.sockets|)
    // at most one reconnect and one heartbeat run, and they are the ones named
    && OneTimer(s.reconnectTimer, s.timeouts, s.nextTimer)
    && OneTimer(s.heartbeatTimer, s.intervals, s.nextTimer)
    // with a label there is a live socket, an owed close event or a pending reconnect
    && (s.device.Some? ==>
          SocketIs(s, Connecting) || SocketIs(s, Open) || SocketIs(s, Closing) || s.reconnectTimer.Some?)
  }

  lemma ConnectKeeps(s: State)
    requires forall i: nat :: Live(s, i) ==> s.ws == Some(i)
    requires s.ws.Some? ==> s.ws.value < |s.sockets|
    requires OneTimer(s.reconnectTimer, s.timeouts, s.nextTimer) && OneTimer(s.heartbeatTimer, s.intervals, s.nextTimer)
    ensures Inv(Connect(s))
  {
  }

  lemma StepKeeps(s: State, e: Event)
    requires Inv(s) && Enabled(s, e)
    ensures Inv(Step(s, e))
  {
    match e {
      case LabelStored(stored) =>
        hide Connect;
        if stored != "" && !SocketIs(s, Open) {
          ConnectKeeps(s.(device := Some(stored)));
        }
      case SocketOpens(i) =>
      case SocketCloses(i) =>
      case CloseEvent(i) =>
      case TimeoutFires(t) => ConnectKeeps(s.(timeouts := s.timeouts - {t}, reconnectTimer := None));
    }
  }

  /** In every reachable state. */
  lemma {:induction false} RunKeeps(s: State, events: seq<Event>)
    requires Inv(s) && Possible(s, events)
    ensures Inv(Run(s, events))
    decreases |events|
  {
    if events != [] {
      StepKeeps(s, events[0]);
      RunKeeps(Step(s, events[0]), events[1..]);
    }
  }

  lemma EveryRun(stored: Option<string>, events: seq<Event>)
    requires Possible(Start(stored), events)
    ensures Inv(Run(Start(stored), events))
  {
    RunKeeps(Start(stored), events);
  }

  // ---------- heartbeats ----------

  /** Whether the last socket event that touched the heartbeat was a close. */
  function Silenced(events: seq<Event>): bool {
    if events == [] then false
    else
      var last := events[|events| - 1];
      if last.SocketOpens? || last.CloseEvent? then last.CloseEvent? else Silenced(events[..|events| - 1])
  }

  ghost predicate Beating(s: State, silenced: bool) {
    SocketIs(s, Open) ==> (s.heartbeatTimer.Some? <==> !silenced)
  }

  /** An open socket has its heartbeat unless a close event, which can only be an earlier
      socket's, was delivered after it opened. */
  lemma {:induction false} HeartbeatExactly(stored: Option<string>, events: seq<Event>)
    requires Possible(Start(stored), events)
    ensures Beating(Run(Start(stored), events), Silenced(events))
  {
    if events != [] {
      var front, last := events[..|events| - 1], events[|events| - 1];
      assert events == front + [last];
      RunSnoc(Start(stored), front, last);
      HeartbeatExactly(stored, front);
      EveryRun(stored, front);
      StepBeats(Run(Start(stored), front), last, Silenced(front));
    }
  }

  lemma {:induction false} RunSnoc(s: State, front: seq<Event>, last: Event)
    requires Possible(s, front + [last])
    ensures Possible(s, front) && Enabled(Run(s, front), last)
    ensures Run(s, front + [last]) == Step(Run(s, front), last)
    decreases |front|
  {
    if front == [] {
      assert front + [last] == [last];
      assert Run(Step(s, last), [last][1..]) == Step(s, last);
    } else {
      assert (front + [last])[1..] == front[1..] + [last];
      RunSnoc(Step(s, front[0]), front[1..], last);
    }
  }

  lemma StepBeats(s: State, e: Event, was: bool)
    requires Inv(s) && Enabled(s, e) && Beating(s, was)
    ensures Beating(Step(s, e), if e.SocketOpens? || e.CloseEvent? then e.CloseEvent? else was)
  {
  }

  /** It happens: a label stored while the old socket is closing opens a new one, whose
      heartbeat the old socket's late close event then stops. */
  lemma LateCloseSilences()
    ensures var events := [SocketOpens(0), SocketCloses(0), LabelStored("b"), SocketOpens(1), CloseEvent(0)];
            && Possible(Start(Some("a")), events)
            && SocketIs(Run(Start(Some("a")), events), Open)
            && Run(Start(Some("a")), events).heartbeatTimer == None
  {
    var events := [SocketOpens(0), SocketCloses(0), LabelStored("b"), SocketOpens(1), CloseEvent(0)];
    var s0 := Start(Some("a"));
    assert "a" != "" && "b" != "";
    assert s0.sockets == [Connecting] && s0.ws == Some(0);
    var s1 := Step(s0, SocketOpens(0));
    assert s1.sockets == [Open];
    var s2 := Step(s1, SocketCloses(0));
    assert s2.sockets == [Closing];
    var s3 := Step(s2, LabelStored("b"));
    assert s3.sockets == [Closing, Connecting] && s3.ws == Some(1);
    var s4 := Step(s3, SocketOpens(1));
    assert s4.sockets == [Closing, Open];
    var s5 := Step(s4, CloseEvent(0));
    assert s5.sockets == [Closed, Open];
    Unroll(s0, s1, s2, s3, s4, s5, events);
  }

  lemma Unroll(s0: State, s1: State, s2: State, s3: State, s4: State, s5: State, events: seq<Event>)
    requires |events| == 5
    requires Enabled(s0, events[0]) && s1 == Step(s0, events[0])
    requires Enabled(s1, events[1]) && s2 == Step(s1, events[1])
    requires Enabled(s2, events[2]) && s3 == Step(s2, events[2])
    requires Enabled(s3, events[3]) && s4 == Step(s3, events[3])
    requires Enabled(s4, events[4]) && s5 == Step(s4, events[4])
    ensures Possible(s0, events) && Run(s0, events) == s5
  {
    var rest := events[4..];
    assert rest[1..] == [] && Possible(s5, []);
    assert Possible(s4, rest) && Run(s4, rest) == s5;
    assert events[3..][1..] == rest;
    assert Possible(s3, events[3..]) && Run(s3, events[3..]) == s5;
    assert events[2..][1..] == events[3..];
    assert Possible(s2, events[2..]) && Run(s2, events[2..]) == s5;
    assert events[1..][1..] == events[2..];
  }

  // ---------- the module ----------

  class Worker {
    var device: Option<string>
    var ws: Option<nat>
    var reconnectTimer: Option<nat>
    var heartbeatTimer: Option<nat>
    var sockets: seq<ReadyState>
    var timeouts: set<nat>
    var intervals: set<nat>
    var nextTimer: nat

    function View(): State
      reads this
    {
      State(device, ws, reconnectTimer, heartbeatTimer, sockets, timeouts, intervals, nextTimer)
    }

    constructor (stored: Option<string>)
      ensures View() == Start(stored)
    {
      device, ws, reconnectTimer, heartbeatTimer := None, None, None, None;
      sockets, timeouts, intervals, nextTimer := [], {}, {}, 1;
      new;
      if stored.Some? && stored.value != "" {
        device := stored;
        DoConnect();
      }
    }

    method DoConnect()
      modifies this
      ensures View() == Connect(old(View()))
    {
      if device == None {
        return;
      }
      if ws.Some? && ws.value < |sockets| && (sockets[ws.value] == Connecting || sockets[ws.value] == Open) {
        return;
      }
      ws := Some(|sockets|);
      sockets := sockets + [Connecting];
    }

    method DoScheduleReconnect()
      modifies this
      ensures View() == ScheduleReconnect(old(View()))
    {
      if reconnectTimer.Some? {
        return;
      }
      reconnectTimer := Some(nextTimer);
      timeouts := timeouts + {nextTimer};
      nextTimer := nextTimer + 1;
    }

    method DoStopHeartbeat()
      modifies this
      ensures View() == StopHeartbeat(old(View()))
    {
      if heartbeatTimer.Some? {
        intervals := intervals - {heartbeatTimer.value};
        heartbeatTimer := None;
      }
    }

    method DoStartHeartbeat()
      modifies this
      ensures View() == StartHeartbeat(old(View()))
    {
      DoStopHeartbeat();
      heartbeatTimer := Some(nextTimer);
      intervals := intervals + {nextTimer};
      nextTimer := nextTimer + 1;
    }

    /** One event and the handler that it runs. */
    method Handle(e: Event)
      requires Inv(View()) && Enabled(View(), e)
      modifies this
      ensures View() == Step(old(View()), e) && Inv(View())
    {
      StepKeeps(View(), e);
      match e {
        case LabelStored(stored) =>
          if stored != "" {
            device := Some(stored);
            if !(ws.Some? && ws.value < |sockets| && sockets[ws.value] == Open) {
              DoConnect();
            }
          }
        case SocketOpens(i) =>
          sockets := sockets[i := Open];
          DoStartHeartbeat();
        case SocketCloses(i) =>
          sockets := sockets[i := Closing];
        case CloseEvent(i) =>
          sockets := sockets[i := Closed];
          DoStopHeartbeat();
          DoScheduleReconnect();
        case TimeoutFires(t) =>
          timeouts := timeouts - {t};
          reconnectTimer := None;
          DoConnect();
      }
    }
  }
}
