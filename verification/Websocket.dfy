/** The reconnecting client of frontend/src/lib/websocket.ts, driven by a browser that
    delivers socket, timer and interval events in any order.

    The first half is the transition system on values; the classes at the end are the
    client and the browser objects it calls, each method proved against its transition. */
module Websocket {
  import opened Numbers
  import opened Text
  import opened Wrappers

  // The ready states of section 3.1 of the WHATWG WebSockets Standard.
  datatype ReadyState = Connecting | Open | Closing | Closed

  // `attached` says whether the four handlers are still installed on the socket.
  datatype Socket = Socket(state: ReadyState, attached: bool, wasOpen: bool)

  datatype TimerKind = DeferredConnect | Reconnect

  datatype Timer = Timer(kind: TimerKind, delay: nat)

  datatype Message = Ping | Malformed | Payload(body: int)

  // Everything an observer outside the client can notice.
  datatype Action =
    | SocketCreated(socket: nat)
    | TimerArmed(timer: Timer)
    | Retried
    | StatusNotified(connected: bool)
    | Delivered(body: int)
    | PingStarted
    | PongSent

  datatype Event =
    | Connect
    | Disconnect
    | TimerFires(id: nat)
    | IntervalFires(id: nat)
    | Opens(socket: nat)
    | Receives(socket: nat, message: Message)
    | Fails(socket: nat)
    | StartsClosing(socket: nat)
    | Closes(socket: nat, failed: bool)

  datatype State = State(
    // the client's fields
    ws: Option<nat>,
    reconnectTimer: Option<nat>,
    pendingConnect: Option<nat>,
    reconnectDelay: nat,
    shouldReconnect: bool,
    pingInterval: Option<nat>,
    // the browser
    sockets: seq<Socket>,
    timers: map<nat, Timer>,
    intervals: set<nat>,
    nextId: nat,
    // what has been observed so far
    log: seq<Action>)

  const BASE_DELAY := 1000
  const MAX_DELAY := 30000

  const INITIAL := State(None, None, None, BASE_DELAY, true, None, [], map[], {}, 1, [])

  // ---- the browser's operations ----

  function WithState(sockets: seq<Socket>, s: nat, state: ReadyState): seq<Socket> {
    if s < |sockets| then sockets[s := sockets[s].(state := state)] else sockets
  }

  // close() of section 3.1: a socket that is closing or closed is left alone.
  function CloseSocket(sockets: seq<Socket>, s: nat): seq<Socket> {
    if s < |sockets| && sockets[s].state in {Connecting, Open}
    then WithState(sockets, s, Closing)
    else sockets
  }

  function Detach(sockets: seq<Socket>, s: nat): seq<Socket> {
    if s < |sockets| then sockets[s := sockets[s].(attached := false)] else sockets
  }

  predicate CurrentIn(st: State, states: set<ReadyState>) {
    st.ws.Some? && st.ws.value < |st.sockets| && st.sockets[st.ws.value].state in states
  }

  function ArmTimer(st: State, t: Timer): State {
    st.(timers := st.timers[st.nextId := t], nextId := st.nextId + 1, log := st.log + [TimerArmed(t)])
  }

  // ---- the client's methods and callbacks ----

  function AfterConnect(st: State): State {
    var st1 := st.(shouldReconnect := true);
    if CurrentIn(st1, {Open, Connecting}) then st1
    else if st1.pendingConnect.Some? then st1
    else ArmTimer(st1, Timer(DeferredConnect, 0)).(pendingConnect := Some(st1.nextId))
  }

  function AfterOpenSocket(st: State): State {
    st.(sockets := st.sockets + [Socket(Connecting, true, false)],
        ws := Some(|st.sockets|),
        log := st.log + [SocketCreated(|st.sockets|)])
  }

  function AfterDeferredFires(st: State): State {
    var st1 := st.(pendingConnect := None);
    if st1.shouldReconnect then AfterOpenSocket(st1) else st1
  }

  function AfterReconnectFires(st: State): State {
    AfterOpenSocket(st.(reconnectDelay := Min(st.reconnectDelay * 2, MAX_DELAY), log := st.log + [Retried]))
  }

  function AfterStartPing(st: State): State {
    st.(pingInterval := Some(st.nextId), intervals := st.intervals + {st.nextId}, nextId := st.nextId + 1,
        log := st.log + [PingStarted])
  }

  function AfterStopPing(st: State): State {
    if st.pingInterval.Some?
    then st.(intervals := st.intervals - {st.pingInterval.value}, pingInterval := None)
    else st
  }

  function AfterOnOpen(st: State, s: nat): State {
    if st.ws != Some(s) then st
    else AfterStartPing(st.(reconnectDelay := BASE_DELAY, log := st.log + [StatusNotified(true)]))
  }

  function AfterSendPong(st: State): State {
    if CurrentIn(st, {Open}) then st.(log := st.log + [PongSent]) else st
  }

  function AfterOnMessage(st: State, s: nat, m: Message): State {
    if st.ws != Some(s) then st
    else match m
      case Ping => AfterSendPong(st)
      case Malformed => st
      case Payload(body) => st.(log := st.log + [Delivered(body)])
  }

  function AfterOnClose(st: State, s: nat): State {
    if st.ws != Some(s) then st
    else
      var st1 := AfterStopPing(st.(log := st.log + [StatusNotified(false)]));
      if st1.shouldReconnect
      then ArmTimer(st1, Timer(Reconnect, st1.reconnectDelay)).(reconnectTimer := Some(st1.nextId))
      else st1
  }

  function AfterOnError(st: State, s: nat): State {
    if st.ws != Some(s) then st else st.(sockets := CloseSocket(st.sockets, s))
  }

  function AfterDisconnect(st: State): State {
    var st1 := st.(shouldReconnect := false);
    if st1.pendingConnect.Some?
    then st1.(timers := st1.timers - {st1.pendingConnect.value}, pendingConnect := None)
    else
      var st2 := if st1.reconnectTimer.Some?
                 then st1.(timers := st1.timers - {st1.reconnectTimer.value}, reconnectTimer := None)
                 else st1;
      var st3 := AfterStopPing(st2);
      if st3.ws.Some?
      then st3.(sockets := CloseSocket(Detach(st3.sockets, st3.ws.value), st3.ws.value), ws := None)
      else st3
  }

  // ---- one event; an event the browser cannot deliver in this state changes nothing ----

  predicate InState(st: State, s: nat, states: set<ReadyState>) {
    s < |st.sockets| && st.sockets[s].state in states
  }

  function Step(st: State, e: Event): State {
    match e
    case Connect => AfterConnect(st)
    case Disconnect => AfterDisconnect(st)
    case TimerFires(id) => AfterTimerFires(st, id)
    case IntervalFires(id) => if id in st.intervals then AfterSendPong(st) else st
    case Opens(s) => AfterOpens(st, s)
    case Receives(s, m) =>
      if InState(st, s, {Open}) && st.sockets[s].attached then AfterOnMessage(st, s, m) else st
    case Fails(s) =>
      if InState(st, s, {Connecting, Open, Closing}) && st.sockets[s].attached then AfterOnError(st, s) else st
    case StartsClosing(s) =>
      if InState(st, s, {Connecting, Open}) then st.(sockets := WithState(st.sockets, s, Closing)) else st
    case Closes(s, failed) => AfterCloses(st, s, failed)
  }

  function AfterTimerFires(st: State, id: nat): State {
    if id !in st.timers then st
    else
      var st1 := st.(timers := st.timers - {id});
      match st.timers[id].kind
      case DeferredConnect => AfterDeferredFires(st1)
      case Reconnect => AfterReconnectFires(st1)
  }

  function AfterOpens(st: State, s: nat): State {
    if !InState(st, s, {Connecting}) then st
    else
      var st1 := st.(sockets := st.sockets[s := st.sockets[s].(state := Open, wasOpen := true)]);
      if st.sockets[s].attached then AfterOnOpen(st1, s) else st1
  }

  // The closing task of the standard: closed first, then the error event if the
  // connection failed, then the close event.
  function AfterCloses(st: State, s: nat, failed: bool): State {
    if !InState(st, s, {Connecting, Open, Closing}) then st
    else
      var st1 := st.(sockets := WithState(st.sockets, s, Closed));
      if !st.sockets[s].attached then st1
      else AfterOnClose(if failed then AfterOnError(st1, s) else st1, s)
  }

  // ---- runs ----

  function Run(trace: seq<Event>): State {
    if trace == [] then INITIAL else Step(Run(trace[..|trace| - 1]), trace[|trace| - 1])
  }

  // connect() has been called and disconnect() has not been called since.
  predicate Active(trace: seq<Event>) {
    trace != [] &&
    match trace[|trace| - 1]
    case Connect => true
    case Disconnect => false
    case _ => Active(trace[..|trace| - 1])
  }

  // What frontend/src/pages/RealTime.tsx does: one connect per mount, one disconnect per unmount.
  predicate Alternates(trace: seq<Event>) {
    forall i | 0 <= i < |trace| ::
      (trace[i] == Connect ==> !Active(trace[..i])) && (trace[i] == Disconnect ==> Active(trace[..i]))
  }

  // A connect() that arrives while active finds the socket connecting or open, or the
  // deferred connect still armed, and returns early.
  predicate SafeToConnect(st: State, active: bool) {
    !active || CurrentIn(st, {Connecting, Open}) || st.pendingConnect.Some?
  }

  // The widest calling discipline under which the ownership property holds.
  predicate Disciplined(trace: seq<Event>) {
    forall i | 0 <= i < |trace| ::
      trace[i] == Connect ==> SafeToConnect(Run(trace[..i]), Active(trace[..i]))
  }

  // ---- the ownership property ----

  datatype Way = ByTimer(id: nat) | BySocket(socket: nat)

  // Each way the client can still come to act: an armed timer, or the current socket
  // while its close event is still to come.
  function Ways(st: State): set<Way> {
    (set id | id in st.timers :: ByTimer(id)) +
    (if CurrentIn(st, {Connecting, Open, Closing}) then {BySocket(st.ws.value)} else {})
  }

  predicate Owned(st: State, active: bool) {
    && |Ways(st)| == (if active then 1 else 0)
    && (forall k | 0 <= k < |st.sockets| && st.ws != Some(k) :: st.sockets[k].state in {Closing, Closed})
    && |st.intervals| <= 1
    && (st.intervals != {} <==>
        CurrentIn(st, {Open, Closing}) && st.sockets[st.ws.value].wasOpen)
  }

  // The four shapes a disciplined client moves between.

  predicate Idle(st: State) {
    st.timers == map[] && st.ws == None && st.pendingConnect == None && st.intervals == {} && st.pingInterval == None
  }

  predicate Deferring(st: State) {
    && st.pendingConnect.Some? && st.timers == map[st.pendingConnect.value := Timer(DeferredConnect, 0)]
    && st.ws == None && st.intervals == {} && st.pingInterval == None
  }

  predicate Live(st: State) {
    && st.timers == map[] && st.pendingConnect == None
    && CurrentIn(st, {Connecting, Open, Closing}) && st.sockets[st.ws.value].attached
    && var socket := st.sockets[st.ws.value];
    && (socket.wasOpen ==> st.pingInterval.Some? && st.intervals == {st.pingInterval.value} && socket.state != Connecting)
    && (!socket.wasOpen ==> st.pingInterval == None && st.intervals == {} && socket.state != Open)
  }

  predicate Waiting(st: State) {
    && st.pendingConnect == None && CurrentIn(st, {Closed})
    && st.reconnectTimer.Some?
    && st.timers == map[st.reconnectTimer.value := Timer(Reconnect, st.reconnectDelay)]
    && st.intervals == {} && st.pingInterval == None
  }

  predicate Inv(st: State, active: bool) {
    && (forall id | id in st.timers :: id < st.nextId)
    // every socket but the current one is closed for good, or closing with no handler left
    && (forall k | 0 <= k < |st.sockets| && st.ws != Some(k) ::
          st.sockets[k].state == Closed || (st.sockets[k].state == Closing && !st.sockets[k].attached))
    && if active
       then st.shouldReconnect && (Deferring(st) || Live(st) || Waiting(st))
       else Idle(st)
  }

  lemma OneTimer(st: State, id: nat)
    requires st.timers.Keys == {id} && !CurrentIn(st, {Connecting, Open, Closing})
    ensures Ways(st) == {ByTimer(id)}
  {
  }

  lemma OneSocket(st: State)
    requires st.timers == map[] && CurrentIn(st, {Connecting, Open, Closing})
    ensures Ways(st) == {BySocket(st.ws.value)}
  {
  }

  lemma WaysOf(st: State, active: bool)
    requires Inv(st, active)
    ensures |Ways(st)| == (if active then 1 else 0)
  {
    if !active {
      assert Ways(st) == {};
    } else if Live(st) {
      OneSocket(st);
    } else {
      hide Ways;
      OneTimer(st, if Deferring(st) then st.pendingConnect.value else st.reconnectTimer.value);
    }
  }

  lemma InvGivesOwned(st: State, active: bool)
    requires Inv(st, active)
    ensures Owned(st, active)
  {
    WaysOf(st, active);
    hide Ways;
  }

  lemma ConnectKeepsInv(st: State, active: bool)
    requires Inv(st, active) && SafeToConnect(st, active)
    ensures Inv(AfterConnect(st), true)
  {
  }

  lemma DisconnectKeepsInv(st: State, active: bool)
    requires Inv(st, active)
    ensures Inv(AfterDisconnect(st), false)
  {
    var after := AfterDisconnect(st);
    if active && Deferring(st) {
      assert after.timers == map[];
    } else if active && Waiting(st) {
      assert after.timers == map[];
    } else if active && st.reconnectTimer.Some? {
      assert st.timers - {st.reconnectTimer.value} == map[];
    }
  }

  lemma EventKeepsInv(st: State, active: bool, e: Event)
    requires Inv(st, active) && e != Connect && e != Disconnect
    ensures Inv(Step(st, e), active)
  {
    match e
    case TimerFires(id) => TimerKeepsInv(st, active, id);
    case Closes(s, failed) => ClosesKeepsInv(st, active, s, failed);
    case Opens(s) => OpensKeepsInv(st, active, s);
    case _ =>
  }

  lemma TimerKeepsInv(st: State, active: bool, id: nat)
    requires Inv(st, active)
    ensures Inv(AfterTimerFires(st, id), active)
  {
    if id in st.timers {
      assert st.timers - {id} == map[];
    }
  }

  lemma OpensKeepsInv(st: State, active: bool, s: nat)
    requires Inv(st, active)
    ensures Inv(AfterOpens(st, s), active)
  {
  }

  lemma ClosesKeepsInv(st: State, active: bool, s: nat, failed: bool)
    requires Inv(st, active)
    ensures Inv(AfterCloses(st, s, failed), active)
  {
    var st1 := st.(sockets := WithState(st.sockets, s, Closed));
    assert AfterOnError(st1, s) == st1 || s >= |st.sockets|;
  }

  lemma {:induction false} OwnershipInductive(trace: seq<Event>)
    requires Disciplined(trace)
    ensures Inv(Run(trace), Active(trace))
  {
    if trace == [] {
    } else {
      var before, e := trace[..|trace| - 1], trace[|trace| - 1];
      assert forall i | 0 <= i < |before| :: trace[..i] == before[..i];
      OwnershipInductive(before);
      match e
      case Connect => ConnectKeepsInv(Run(before), Active(before));
      case Disconnect => DisconnectKeepsInv(Run(before), Active(before));
      case _ => EventKeepsInv(Run(before), Active(before), e);
    }
  }

  /** While active there is exactly one way forward, and none while not; every other
      socket is on its way out; at most one ping interval runs, and exactly while the
      current socket has opened and not yet closed. */
  lemma OwnershipOverRuns(trace: seq<Event>)
    requires Disciplined(trace)
    ensures Owned(Run(trace), Active(trace))
  {
    OwnershipInductive(trace);
    InvGivesOwned(Run(trace), Active(trace));
  }

  lemma AlternationIsDisciplined(trace: seq<Event>)
    requires Alternates(trace)
    ensures Disciplined(trace) && Owned(Run(trace), Active(trace))
  {
    OwnershipOverRuns(trace);
  }

  // The ownership property holds at every moment of the run.
  ghost predicate AlwaysOwned(trace: seq<Event>) {
    forall k | 0 <= k <= |trace| :: Owned(Run(trace[..k]), Active(trace[..k]))
  }

  lemma AlwaysOwnedStep(init: seq<Event>, e: Event)
    ensures AlwaysOwned(init + [e]) <==> AlwaysOwned(init) && Owned(Run(init + [e]), Active(init + [e]))
  {
    hide Owned, Run, Active;
    var trace := init + [e];
    assert trace[..|trace|] == trace && forall k | 0 <= k <= |init| :: trace[..k] == init[..k];
  }

  lemma DisciplinedStep(init: seq<Event>, e: Event)
    ensures Disciplined(init + [e]) <==> Disciplined(init) && (e == Connect ==> SafeToConnect(Run(init), Active(init)))
  {
    hide SafeToConnect, Run, Active;
    var trace := init + [e];
    assert trace[..|init|] == init && trace[|init|] == e;
    assert forall k | 0 <= k < |init| :: trace[..k] == init[..k] && trace[k] == init[k];
  }

  lemma ActiveStep(init: seq<Event>, e: Event)
    ensures Active(init + [e]) <==> e == Connect || (e != Disconnect && Active(init))
  {
    assert (init + [e])[..|init|] == init;
  }

  /** The discipline is exact: a run has one way forward at every moment if and only if each of its
      connects was safe to make. */
  lemma {:induction false} AlwaysOwnedIff(trace: seq<Event>)
    ensures AlwaysOwned(trace) <==> Disciplined(trace)
  {
    if trace == [] {
      OwnershipOverRuns([]);
    } else {
      hide *;
      var init, e := trace[..|trace| - 1], trace[|trace| - 1];
      assert trace == init + [e];
      AlwaysOwnedIff(init);
      AlwaysOwnedStep(init, e);
      DisciplinedStep(init, e);
      if Disciplined(init) {
        if e == Connect {
          OwnershipInductive(init);
          ConnectKeepsOwnershipIff(Run(init), Active(init));
          ConnectIsStep(init);
          ActiveStep(init, e);
        } else {
          OwnershipOverRuns(trace);
        }
      }
    }
  }

  lemma ConnectIsStep(init: seq<Event>)
    ensures Run(init + [Connect]) == AfterConnect(Run(init))
  {
    hide AfterConnect;
    RunStep(init, Connect);
  }

  /** The discipline cannot be weakened: from any state the invariant allows, a connect()
      keeps the ownership property if and only if it was safe to make. */
  lemma ConnectKeepsOwnershipIff(st: State, active: bool)
    requires Inv(st, active)
    ensures Owned(AfterConnect(st), true) <==> SafeToConnect(st, active)
  {
    var after := AfterConnect(st);
    if SafeToConnect(st, active) {
      ConnectKeepsInv(st, active);
      InvGivesOwned(after, true);
    } else {
      var added := ByTimer(st.nextId);
      assert st.nextId in after.timers;
      var other := if Live(st) then BySocket(st.ws.value) else ByTimer(st.reconnectTimer.value);
      assert Live(st) || st.reconnectTimer.value in after.timers;
      assert {added, other} <= Ways(after);
      TwoElements(Ways(after), added, other);
    }
  }

  lemma TwoElements<T>(s: set<T>, a: T, b: T)
    requires a in s && b in s && a != b
    ensures |s| >= 2
  {
    assert s == {a} + {b} + (s - {a} - {b});
  }

  function Next(way: Way, failed: bool): Event {
    match way
    case ByTimer(id) => TimerFires(id)
    case BySocket(s) => Closes(s, failed)
  }

  /** An active client is never stuck: when its one way forward comes about, either a new
      socket starts connecting, or a reconnect is armed that will start one. */
  lemma WayForwardReconnects(trace: seq<Event>, way: Way, failed: bool)
    requires Disciplined(trace) && Active(trace) && way in Ways(Run(trace))
    ensures var st, next := Run(trace), Step(Run(trace), Next(way, failed));
            match way
            case ByTimer(_) => next.ws == Some(|st.sockets|) && CurrentIn(next, {Connecting}) && next.timers == map[]
            case BySocket(_) => next.timers == map[st.nextId := Timer(Reconnect, st.reconnectDelay)]
  {
    OwnershipInductive(trace);
    InvWayForward(Run(trace), way, failed);
    hide *;
  }

  lemma InvWayForward(st: State, way: Way, failed: bool)
    requires Inv(st, true) && way in Ways(st)
    ensures var next := Step(st, Next(way, failed));
            match way
            case ByTimer(_) => next.ws == Some(|st.sockets|) && CurrentIn(next, {Connecting}) && next.timers == map[]
            case BySocket(_) => next.timers == map[st.nextId := Timer(Reconnect, st.reconnectDelay)]
  {
    hide AfterTimerFires, AfterCloses;
    match way
    case ByTimer(id) => TimerOpens(st, id);
    case BySocket(s) => LiveCloseArms(st, s, failed);
  }

  lemma TimerOpens(st: State, id: nat)
    requires Inv(st, true) && id in st.timers
    ensures var next := AfterTimerFires(st, id);
            next.ws == Some(|st.sockets|) && CurrentIn(next, {Connecting}) && next.timers == map[]
  {
    assert st.timers - {id} == map[];
  }

  lemma LiveCloseArms(st: State, s: nat, failed: bool)
    requires Inv(st, true) && st.ws == Some(s) && Live(st)
    ensures AfterCloses(st, s, failed).timers == map[st.nextId := Timer(Reconnect, st.reconnectDelay)]
  {
    var st1 := st.(sockets := WithState(st.sockets, s, Closed));
    assert AfterOnError(st1, s) == st1;
  }

  // ---- silence after disconnect ----

  lemma IdleStepIsSilent(st: State, e: Event)
    requires Inv(st, false) && e != Connect
    ensures Inv(Step(st, e), false)
    ensures Step(st, e).log == st.log && |Step(st, e).sockets| == |st.sockets|
  {
    if e == Disconnect {
      DisconnectKeepsInv(st, false);
    } else {
      EventKeepsInv(st, false, e);
    }
  }

  lemma {:induction false} SilentFrom(before: seq<Event>, after: seq<Event>)
    requires Inv(Run(before), false) && Connect !in after
    ensures Inv(Run(before + after), false)
    ensures Run(before + after).log == Run(before).log
    ensures |Run(before + after).sockets| == |Run(before).sockets|
  {
    hide *;
    if after == [] {
      NothingAppended(before);
    } else {
      var init, e := after[..|after| - 1], after[|after| - 1];
      SilentFrom(before, init);
      LastOfConcat(before, after);
      RunStep(before + init, e);
      IdleStepIsSilent(Run(before + init), e);
    }
  }

  /** A disciplined client that was disconnected is inert until the next connect: it holds no timer,
      no interval and no socket, creates none, and calls no handler. */
  lemma SilentAfterDisconnect(before: seq<Event>, after: seq<Event>)
    requires Disciplined(before) && Connect !in after
    ensures var left := Run(before + [Disconnect]);
            var later := Run(before + [Disconnect] + after);
            later.log == left.log && |later.sockets| == |left.sockets| &&
            later.timers == map[] && later.intervals == {} && later.ws == None &&
            later.pendingConnect == None && later.pingInterval == None &&
            left.reconnectTimer == if Run(before).pendingConnect.Some? then Run(before).reconnectTimer else None
  {
    OwnershipInductive(before);
    var torn := before + [Disconnect];
    assert torn[..|torn| - 1] == before;
    DisconnectKeepsInv(Run(before), Active(before));
    SilentFrom(torn, after);
  }

  lemma RunStep(trace: seq<Event>, e: Event)
    ensures Run(trace + [e]) == Step(Run(trace), e)
  {
    assert (trace + [e])[..|trace|] == trace;
  }

  /** An error on the current socket starts closing it unless it is closing or closed already, and does
      nothing else; an error on any other socket does nothing. */
  lemma ErrorOnlyCloses(trace: seq<Event>, s: nat)
    ensures var st, next := Run(trace), Run(trace + [Fails(s)]);
            && next == st.(sockets := next.sockets) && |next.sockets| == |st.sockets|
            && forall k | 0 <= k < |st.sockets| ::
                 next.sockets[k] ==
                 if k == s && st.ws == Some(s) && st.sockets[s].attached && st.sockets[s].state in {Connecting, Open}
                 then st.sockets[k].(state := Closing)
                 else st.sockets[k]
  {
    RunStep(trace, Fails(s));
    hide Run, AfterConnect, AfterDisconnect, AfterTimerFires, AfterOpens, AfterCloses, AfterOnMessage, AfterSendPong;
  }

  // A second connect() while a reconnect timer is armed.
  const TWICE := [Connect, TimerFires(1), Closes(0, false), Connect]

  lemma AfterFirstConnect()
    ensures Run([Connect]) == INITIAL.(pendingConnect := Some(1), timers := map[1 := Timer(DeferredConnect, 0)], nextId := 2,
                                       log := [TimerArmed(Timer(DeferredConnect, 0))])
  {
    RunStep([], Connect);
    assert [] + [Connect] == [Connect];
    hide Run;
    assert INITIAL.timers[1 := Timer(DeferredConnect, 0)] == map[1 := Timer(DeferredConnect, 0)];
    assert [] + [TimerArmed(Timer(DeferredConnect, 0))] == [TimerArmed(Timer(DeferredConnect, 0))];
  }

  lemma AfterFirstOpen()
    ensures var st := Run([Connect, TimerFires(1)]);
            && st.timers == map[] && st.nextId == 2 && st.pendingConnect == None && st.reconnectTimer == None && st.shouldReconnect
            && st.ws == Some(0) && st.sockets == [Socket(Connecting, true, false)] && st.pingInterval == None
            && st.reconnectDelay == 1000
  {
    AfterFirstConnect();
    RunStep([Connect], TimerFires(1));
    assert [Connect] + [TimerFires(1)] == [Connect, TimerFires(1)];
    hide Run;
    assert map[1 := Timer(DeferredConnect, 0)] - {1} == map[];
  }

  lemma AfterFirstClose()
    ensures var st := Run([Connect, TimerFires(1), Closes(0, false)]);
            && st.timers == map[2 := Timer(Reconnect, 1000)] && st.nextId == 3 && st.pendingConnect == None
            && st.reconnectTimer == Some(2) && st.ws == Some(0) && |st.sockets| == 1 && st.sockets[0].state == Closed
  {
    AfterFirstOpen();
    var st := Run([Connect, TimerFires(1)]);
    RunStep([Connect, TimerFires(1)], Closes(0, false));
    assert [Connect, TimerFires(1)] + [Closes(0, false)] == [Connect, TimerFires(1), Closes(0, false)];
    hide Run;
    assert st.timers[2 := Timer(Reconnect, 1000)] == map[2 := Timer(Reconnect, 1000)];
  }

  // ---- exactly when a disconnect silences any client, disciplined or not ----

  // Nothing left can act: no reconnect is armed, and the current socket, if any, is closed.
  predicate Mute(st: State) {
    && !st.shouldReconnect
    && (forall id | id in st.timers :: st.timers[id].kind == DeferredConnect)
    && !CurrentIn(st, {Connecting, Open, Closing})
  }

  lemma MuteStep(st: State, e: Event)
    requires Mute(st) && e != Connect
    ensures Mute(Step(st, e)) && Step(st, e).log == st.log
  {
  }

  // What disconnect() has to find to leave nothing that acts. With the deferred connect armed it
  // clears that timer alone, and must find no reconnect and no live socket; otherwise it clears
  // the reconnect timer it knows and lets go of the current socket.
  predicate SafeToDisconnect(st: State) {
    if st.pendingConnect.Some?
    then
      && (forall id | id in st.timers && st.timers[id].kind == Reconnect :: id == st.pendingConnect.value)
      && !CurrentIn(st, {Connecting, Open, Closing})
    else
      forall id | id in st.timers && st.timers[id].kind == Reconnect :: st.reconnectTimer == Some(id)
  }

  lemma SafeDisconnectMutes(st: State)
    requires SafeToDisconnect(st)
    ensures Mute(AfterDisconnect(st))
  {
  }

  lemma {:induction false} MuteFrom(before: seq<Event>, after: seq<Event>)
    requires Mute(Run(before)) && Connect !in after
    ensures Mute(Run(before + after)) && Run(before + after).log == Run(before).log
  {
    hide *;
    if after == [] {
      NothingAppended(before);
    } else {
      var init, e := after[..|after| - 1], after[|after| - 1];
      MuteFrom(before, init);
      LastOfConcat(before, after);
      RunStep(before + init, e);
      MuteStep(Run(before + init), e);
    }
  }

  predicate CurrentAttached(st: State) {
    st.ws.Some? ==> st.ws.value < |st.sockets| && st.sockets[st.ws.value].attached
  }

  lemma StepKeepsAttached(st: State, e: Event)
    requires CurrentAttached(st)
    ensures CurrentAttached(Step(st, e))
  {
  }

  lemma {:induction false} AttachedOverRuns(trace: seq<Event>)
    ensures CurrentAttached(Run(trace))
  {
    if trace == [] {
    } else {
      hide CurrentAttached, Step;
      AttachedOverRuns(trace[..|trace| - 1]);
      StepKeepsAttached(Run(trace[..|trace| - 1]), trace[|trace| - 1]);
    }
  }

  // After any other disconnect one event is enough to be noticed: a forgotten reconnect timer, or
  // the close of the socket that was not let go of.
  lemma UnsafeDisconnectSpeaks(st: State) returns (e: Event)
    requires CurrentAttached(st) && !SafeToDisconnect(st)
    ensures e != Connect && Step(AfterDisconnect(st), e).log != AfterDisconnect(st).log
  {
    var torn := AfterDisconnect(st);
    if st.pendingConnect.Some? && CurrentIn(st, {Connecting, Open, Closing}) {
      e := Closes(st.ws.value, false);
    } else {
      var id :| id in st.timers && st.timers[id].kind == Reconnect &&
        (if st.pendingConnect.Some? then id != st.pendingConnect.value else st.reconnectTimer != Some(id));
      assert id in torn.timers && torn.timers[id].kind == Reconnect;
      e := TimerFires(id);
      assert AfterReconnectFires(torn.(timers := torn.timers - {id})).log != torn.log;
    }
  }

  // Whatever follows the disconnect, short of a connect, nothing more is observed.
  ghost predicate StaysSilent(before: seq<Event>) {
    forall after | Connect !in after :: Run(before + [Disconnect] + after).log == Run(before + [Disconnect]).log
  }

  /** In every run whatsoever, a disconnect is followed by silence until the next connect if and
      only if it was safe to make. */
  lemma SilentAfterDisconnectIff(before: seq<Event>)
    ensures StaysSilent(before) <==> SafeToDisconnect(Run(before))
  {
    hide Step, SafeToDisconnect, Mute, AfterDisconnect, Run;
    var st := Run(before);
    DisconnectIsStep(before);
    if SafeToDisconnect(st) {
      SafeDisconnectMutes(st);
      forall after | Connect !in after
        ensures Run(before + [Disconnect] + after).log == Run(before + [Disconnect]).log
      {
        MuteFrom(before + [Disconnect], after);
      }
    } else {
      AttachedOverRuns(before);
      var e := UnsafeDisconnectSpeaks(st);
      RunStep(before + [Disconnect], e);
      assert Connect !in [e];
    }
  }

  lemma DisconnectIsStep(before: seq<Event>)
    ensures Run(before + [Disconnect]) == AfterDisconnect(Run(before))
  {
    hide AfterDisconnect;
    RunStep(before, Disconnect);
  }

  // A connect() while the current socket is closing, undone before its deferred timer fires.
  const CLOSING := [Connect, TimerFires(1), StartsClosing(0), Connect]

  lemma AfterClosingConnect()
    ensures var st := Run(CLOSING);
            && st.pendingConnect.Some? && st.ws == Some(0) && |st.sockets| == 1 && st.sockets[0] == Socket(Closing, true, false)
            && st.timers == map[2 := Timer(DeferredConnect, 0)] && st.pendingConnect == Some(2)
  {
    AfterFirstOpen();
    var s2 := Run([Connect, TimerFires(1)]);
    RunStep([Connect, TimerFires(1)], StartsClosing(0));
    RunStep([Connect, TimerFires(1)] + [StartsClosing(0)], Connect);
    assert [Connect, TimerFires(1)] + [StartsClosing(0)] + [Connect] == CLOSING;
    hide Run;
    var s3 := s2.(sockets := WithState(s2.sockets, 0, Closing));
    assert Step(s2, StartsClosing(0)) == s3;
    assert s3.timers[2 := Timer(DeferredConnect, 0)] == map[2 := Timer(DeferredConnect, 0)];
  }

  /** The early return of disconnect() leaves that socket attached, and its close event calls a
      status handler although no timer is left. */
  lemma ClosingSocketSpeaks()
    ensures var torn, later := Run(CLOSING + [Disconnect]), Run(CLOSING + [Disconnect] + [Closes(0, false)]);
            torn.timers == map[] && !torn.shouldReconnect && later.log == torn.log + [StatusNotified(false)]
  {
    AfterClosingConnect();
    DisconnectIsStep(CLOSING);
    RunStep(CLOSING + [Disconnect], Closes(0, false));
    hide Run;
    var torn := Run(CLOSING + [Disconnect]);
    assert map[2 := Timer(DeferredConnect, 0)] - {2} == map[];
    assert torn.sockets[0] == Socket(Closing, true, false);
  }

  /** Without the discipline both properties fail: a second connect() while the reconnect
      timer is armed leaves two timers, and the early return of disconnect() then leaves
      one of them to create a socket after the client was torn down. */
  lemma UndisciplinedConnectLeaks()
    ensures !Owned(Run(TWICE), true)
    ensures var torn := Run(TWICE + [Disconnect]);
            !torn.shouldReconnect && |Run(TWICE + [Disconnect] + [TimerFires(2)]).sockets| > |torn.sockets|
  {
    AfterFirstClose();
    var s3 := Run([Connect, TimerFires(1), Closes(0, false)]);
    var s4 := AfterConnect(s3);
    RunStep([Connect, TimerFires(1), Closes(0, false)], Connect);
    assert [Connect, TimerFires(1), Closes(0, false)] + [Connect] == TWICE;
    RunStep(TWICE, Disconnect);
    RunStep(TWICE + [Disconnect], TimerFires(2));
    hide Run;
    assert s4.pendingConnect == Some(3) && 2 in s4.timers && 3 in s4.timers;
    TwoElements(Ways(s4), ByTimer(2), ByTimer(3));
    var torn := AfterDisconnect(s4);
    assert 2 in torn.timers && torn.timers[2].kind == Reconnect;
  }

  // ---- what is observed, event by event ----

  // The socket's handlers are installed and it is the one the client looks at.
  predicate Heard(st: State, s: nat) {
    s < |st.sockets| && st.sockets[s].attached && st.ws == Some(s)
  }

  predicate IsOpen(st: State, s: nat) {
    s < |st.sockets| && st.sockets[s].state == Open
  }

  // What one event lets an observer see, said of the socket and the timers it concerns.
  function Seen(st: State, e: Event): seq<Action> {
    match e
    case Connect =>
      if st.pendingConnect.Some? || (st.ws.Some? && st.ws.value < |st.sockets| && st.sockets[st.ws.value].state in {Connecting, Open})
      then [] else [TimerArmed(Timer(DeferredConnect, 0))]
    case Disconnect => []
    case TimerFires(id) =>
      if id !in st.timers then []
      else if st.timers[id].kind == Reconnect then [Retried, SocketCreated(|st.sockets|)]
      else if st.shouldReconnect then [SocketCreated(|st.sockets|)]
      else []
    case IntervalFires(id) => if id in st.intervals && st.ws.Some? && IsOpen(st, st.ws.value) then [PongSent] else []
    case Opens(s) =>
      if Heard(st, s) && st.sockets[s].state == Connecting then [StatusNotified(true), PingStarted] else []
    case Receives(s, m) =>
      if !Heard(st, s) || !IsOpen(st, s) then []
      else if m.Ping? then [PongSent]
      else if m.Payload? then [Delivered(m.body)]
      else []
    case Fails(_) => []
    case StartsClosing(_) => []
    case Closes(s, _) =>
      if !Heard(st, s) || st.sockets[s].state == Closed then []
      else if st.shouldReconnect then [StatusNotified(false), TimerArmed(Timer(Reconnect, st.reconnectDelay))]
      else [StatusNotified(false)]
  }

  lemma StepIsSeen(st: State, e: Event)
    ensures Step(st, e).log == st.log + Seen(st, e)
  {
    NothingAppended(st.log);
    hide AfterOpens, AfterCloses, AfterTimerFires, AfterOnMessage, AfterDisconnect;
    match e
    case Opens(s) => OpensIsSeen(st, s);
    case Closes(s, failed) => ClosesIsSeen(st, s, failed);
    case TimerFires(id) => TimerIsSeen(st, id);
    case Receives(s, m) => MessageIsSeen(st, s, m);
    case Disconnect => DisconnectIsSeen(st);
    case _ =>
  }

  lemma OpensIsSeen(st: State, s: nat)
    ensures AfterOpens(st, s).log == st.log + Seen(st, Opens(s))
  {
    NothingAppended(st.log);
  }

  lemma ClosesIsSeen(st: State, s: nat, failed: bool)
    ensures AfterCloses(st, s, failed).log == st.log + Seen(st, Closes(s, failed))
  {
    NothingAppended(st.log);
  }

  lemma TimerIsSeen(st: State, id: nat)
    ensures AfterTimerFires(st, id).log == st.log + Seen(st, TimerFires(id))
  {
    NothingAppended(st.log);
  }

  lemma MessageIsSeen(st: State, s: nat, m: Message)
    ensures Step(st, Receives(s, m)).log == st.log + Seen(st, Receives(s, m))
  {
    NothingAppended(st.log);
  }

  lemma DisconnectIsSeen(st: State)
    ensures AfterDisconnect(st).log == st.log
  {
  }

  // The payloads received on a socket that was open, attached and current at that moment.
  function Received(trace: seq<Event>): seq<int> {
    if trace == [] then []
    else
      var init, e := trace[..|trace| - 1], trace[|trace| - 1];
      Received(init) +
      (if e.Receives? && e.message.Payload? && Heard(Run(init), e.socket) && IsOpen(Run(init), e.socket) then [e.message.body] else [])
  }

  function Bodies(log: seq<Action>): seq<int> {
    if log == [] then []
    else Bodies(log[..|log| - 1]) + (if log[|log| - 1].Delivered? then [log[|log| - 1].body] else [])
  }

  // Pings received on such a socket, and ping intervals that fired while the current socket was open.
  function PongsDue(trace: seq<Event>): nat {
    if trace == [] then 0
    else
      var init, e := trace[..|trace| - 1], trace[|trace| - 1];
      PongsDue(init) +
      (if e.Receives? && e.message.Ping? && Heard(Run(init), e.socket) && IsOpen(Run(init), e.socket) then 1
       else if e.IntervalFires? && e.id in Run(init).intervals && Run(init).ws.Some? && IsOpen(Run(init), Run(init).ws.value) then 1
       else 0)
  }

  function Pongs(log: seq<Action>): nat {
    if log == [] then 0 else Pongs(log[..|log| - 1]) + (if log[|log| - 1].PongSent? then 1 else 0)
  }

  // The openings and closings of attached, current sockets.
  function Changes(trace: seq<Event>): seq<bool> {
    if trace == [] then []
    else
      var init, e := trace[..|trace| - 1], trace[|trace| - 1];
      Changes(init) +
      (if e.Opens? && Heard(Run(init), e.socket) && Run(init).sockets[e.socket].state == Connecting then [true]
       else if e.Closes? && Heard(Run(init), e.socket) && Run(init).sockets[e.socket].state != Closed then [false]
       else [])
  }

  function Statuses(log: seq<Action>): seq<bool> {
    if log == [] then []
    else Statuses(log[..|log| - 1]) + (if log[|log| - 1].StatusNotified? then [log[|log| - 1].connected] else [])
  }

  lemma {:induction false} TalliesAppend(log: seq<Action>, more: seq<Action>)
    ensures Bodies(log + more) == Bodies(log) + Bodies(more) && Pongs(log + more) == Pongs(log) + Pongs(more)
    ensures Statuses(log + more) == Statuses(log) + Statuses(more)
  {
    if more == [] {
      assert log + more == log;
    } else {
      TalliesAppend(log, more[..|more| - 1]);
      assert (log + more)[..|log + more| - 1] == log + more[..|more| - 1];
    }
  }

  lemma SeenTallies(st: State, e: Event)
    ensures Bodies(Seen(st, e)) ==
            if e.Receives? && e.message.Payload? && Heard(st, e.socket) && IsOpen(st, e.socket) then [e.message.body] else []
    ensures Pongs(Seen(st, e)) ==
            if e.Receives? && e.message.Ping? && Heard(st, e.socket) && IsOpen(st, e.socket) then 1
            else if e.IntervalFires? && e.id in st.intervals && st.ws.Some? && IsOpen(st, st.ws.value) then 1
            else 0
    ensures Statuses(Seen(st, e)) ==
            if e.Opens? && Heard(st, e.socket) && st.sockets[e.socket].state == Connecting then [true]
            else if e.Closes? && Heard(st, e.socket) && st.sockets[e.socket].state != Closed then [false]
            else []
  {
    OneOrTwo(Seen(st, e));
  }

  lemma OneOrTwo(log: seq<Action>)
    requires |log| <= 2
    ensures Bodies(log) == (if |log| > 0 && log[0].Delivered? then [log[0].body] else []) +
                           (if |log| > 1 && log[1].Delivered? then [log[1].body] else [])
    ensures Pongs(log) == (if |log| > 0 && log[0].PongSent? then 1 else 0) + (if |log| > 1 && log[1].PongSent? then 1 else 0)
    ensures Statuses(log) == (if |log| > 0 && log[0].StatusNotified? then [log[0].connected] else []) +
                             (if |log| > 1 && log[1].StatusNotified? then [log[1].connected] else [])
  {
    if |log| == 2 {
      var front := log[..1];
      assert front[..0] == [] && front[0] == log[0];
    } else if |log| == 1 {
      assert log[..0] == [];
    }
  }

  /** Over every run the handlers are called for exactly the payloads received on the socket that was
      open, attached and current, in order and each once; one pong goes out for each ping received
      there and each ping interval that fires while the current socket is open, and none for a
      malformed frame; status handlers hear of each opening and closing of such a socket. */
  lemma {:induction false} DeliveriesExact(trace: seq<Event>)
    ensures Bodies(Run(trace).log) == Received(trace)
    ensures Pongs(Run(trace).log) == PongsDue(trace)
    ensures Statuses(Run(trace).log) == Changes(trace)
  {
    if trace == [] {
    } else {
      hide Step, Seen, Bodies, Pongs, Statuses, Heard, IsOpen;
      var init, e := trace[..|trace| - 1], trace[|trace| - 1];
      DeliveriesExact(init);
      StepIsSeen(Run(init), e);
      TalliesAppend(Run(init).log, Seen(Run(init), e));
      SeenTallies(Run(init), e);
    }
  }

  // ---- backoff ----

  // Reconnect attempts since a connection last opened.
  function Attempts(log: seq<Action>): nat {
    if log == [] then 0
    else match log[|log| - 1]
      case Retried => Attempts(log[..|log| - 1]) + 1
      case StatusNotified(connected) => if connected then 0 else Attempts(log[..|log| - 1])
      case _ => Attempts(log[..|log| - 1])
  }

  function Pow2(k: nat): nat {
    if k == 0 then 1 else 2 * Pow2(k - 1)
  }

  function Backoff(k: nat): nat {
    Min(1000 * Pow2(k), 30000)
  }

  // The current delay, and every delay a reconnect was armed with, follow the attempts.
  predicate Backs(delay: nat, log: seq<Action>) {
    && delay == Backoff(Attempts(log))
    && forall i | 0 <= i < |log| ::
         log[i].TimerArmed? && log[i].timer.kind == Reconnect ==> log[i].timer.delay == Backoff(Attempts(log[..i]))
  }

  lemma BacksGrows(delay: nat, log: seq<Action>, a: Action)
    requires Backs(delay, log)
    requires a.TimerArmed? && a.timer.kind == Reconnect ==> a.timer.delay == delay
    ensures Backs(match a
                  case Retried => Min(delay * 2, MAX_DELAY)
                  case StatusNotified(connected) => if connected then BASE_DELAY else delay
                  case _ => delay, log + [a])
  {
    var log' := log + [a];
    assert log'[..|log|] == log;
    assert forall i | 0 <= i < |log| :: log'[..i] == log[..i];
  }

  lemma CloseKeepsBackoff(st: State, s: nat)
    requires Backs(st.reconnectDelay, st.log)
    ensures var next := AfterOnClose(st, s); Backs(next.reconnectDelay, next.log)
  {
    BacksGrows(st.reconnectDelay, st.log, StatusNotified(false));
    BacksGrows(st.reconnectDelay, st.log + [StatusNotified(false)], TimerArmed(Timer(Reconnect, st.reconnectDelay)));
  }

  lemma OpenKeepsBackoff(st: State, s: nat)
    requires Backs(st.reconnectDelay, st.log)
    ensures var next := AfterOnOpen(st, s); Backs(next.reconnectDelay, next.log)
  {
    BacksGrows(st.reconnectDelay, st.log, StatusNotified(true));
    BacksGrows(BASE_DELAY, st.log + [StatusNotified(true)], PingStarted);
  }

  lemma TimerKeepsBackoff(st: State, id: nat)
    requires Backs(st.reconnectDelay, st.log)
    ensures var next := AfterTimerFires(st, id); Backs(next.reconnectDelay, next.log)
  {
    BacksGrows(st.reconnectDelay, st.log, SocketCreated(|st.sockets|));
    BacksGrows(st.reconnectDelay, st.log, Retried);
    BacksGrows(Min(st.reconnectDelay * 2, MAX_DELAY), st.log + [Retried], SocketCreated(|st.sockets|));
  }

  lemma MessageKeepsBackoff(st: State, s: nat, m: Message)
    requires Backs(st.reconnectDelay, st.log)
    ensures var next := AfterOnMessage(st, s, m); Backs(next.reconnectDelay, next.log)
  {
    hide Backs;
    BacksGrows(st.reconnectDelay, st.log, PongSent);
    if m.Payload? {
      BacksGrows(st.reconnectDelay, st.log, Delivered(m.body));
    }
  }

  lemma StepKeepsBackoff(st: State, e: Event)
    requires Backs(st.reconnectDelay, st.log)
    ensures var next := Step(st, e); Backs(next.reconnectDelay, next.log)
  {
    hide Backs, AfterOnOpen, AfterOnClose, AfterOnMessage, AfterTimerFires;
    match e
    case Connect => BacksGrows(st.reconnectDelay, st.log, TimerArmed(Timer(DeferredConnect, 0)));
    case TimerFires(id) => TimerKeepsBackoff(st, id);
    case Opens(s) =>
      if InState(st, s, {Connecting}) {
        OpenKeepsBackoff(st.(sockets := st.sockets[s := st.sockets[s].(state := Open, wasOpen := true)]), s);
      }
    case Closes(s, failed) =>
      var st1 := st.(sockets := WithState(st.sockets, s, Closed));
      CloseKeepsBackoff(if failed then AfterOnError(st1, s) else st1, s);
    case Receives(s, m) => MessageKeepsBackoff(st, s, m);
    case IntervalFires(id) => BacksGrows(st.reconnectDelay, st.log, PongSent);
    case _ =>
  }

  /** In every run whatsoever, the delay before each reconnect is 1000 ms doubled once per
      attempt since a connection last opened, capped at 30000 ms. */
  lemma {:induction false} BackoffOverRuns(trace: seq<Event>)
    ensures Backs(Run(trace).reconnectDelay, Run(trace).log)
  {
    if trace == [] {
    } else {
      BackoffOverRuns(trace[..|trace| - 1]);
      StepKeepsBackoff(Run(trace[..|trace| - 1]), trace[|trace| - 1]);
    }
  }

  // ---- the objects ----

  /** The browser facilities the client calls. */
  class Browser {
    var sockets: seq<Socket>
    var timers: map<nat, Timer>
    var intervals: set<nat>
    var nextId: nat
    ghost var log: seq<Action>

    constructor ()
      ensures sockets == [] && timers == map[] && intervals == {} && nextId == 1 && log == []
    {
      sockets, timers, intervals, nextId, log := [], map[], {}, 1, [];
    }

    method SetTimeout(t: Timer) returns (id: nat)
      modifies this
      ensures id == old(nextId) && nextId == id + 1 && timers == old(timers)[id := t]
      ensures log == old(log) + [TimerArmed(t)]
      ensures sockets == old(sockets) && intervals == old(intervals)
    {
      id := nextId;
      timers, nextId, log := timers[id := t], nextId + 1, log + [TimerArmed(t)];
    }

    method ClearTimeout(id: nat)
      modifies this`timers
      ensures timers == old(timers) - {id}
    {
      timers := timers - {id};
    }

    method SetInterval() returns (id: nat)
      modifies this
      ensures id == old(nextId) && nextId == id + 1 && intervals == old(intervals) + {id}
      ensures log == old(log) + [PingStarted]
      ensures sockets == old(sockets) && timers == old(timers)
    {
      id := nextId;
      intervals, nextId, log := intervals + {id}, nextId + 1, log + [PingStarted];
    }

    method ClearInterval(id: nat)
      modifies this`intervals
      ensures intervals == old(intervals) - {id}
    {
      intervals := intervals - {id};
    }

    method NewSocket() returns (s: nat)
      modifies this`sockets, this`log
      ensures s == |old(sockets)| && sockets == old(sockets) + [Socket(Connecting, true, false)]
      ensures log == old(log) + [SocketCreated(s)]
    {
      s := |sockets|;
      sockets, log := sockets + [Socket(Connecting, true, false)], log + [SocketCreated(s)];
    }

    method Close(s: nat)
      modifies this`sockets
      ensures sockets == CloseSocket(old(sockets), s)
    {
      if s < |sockets| && (sockets[s].state == Connecting || sockets[s].state == Open) {
        sockets := sockets[s := sockets[s].(state := Closing)];
      }
    }

    method RemoveHandlers(s: nat)
      modifies this`sockets
      ensures sockets == Detach(old(sockets), s)
    {
      if s < |sockets| {
        sockets := sockets[s := sockets[s].(attached := false)];
      }
    }
  }

  class CadsaWebSocket {
    const browser: Browser
    var ws: Option<nat>
    var reconnectTimer: Option<nat>
    var pendingConnect: Option<nat>
    var reconnectDelay: nat
    var shouldReconnect: bool
    var pingInterval: Option<nat>

    ghost function Current(): State
      reads this, browser
    {
      State(ws, reconnectTimer, pendingConnect, reconnectDelay, shouldReconnect, pingInterval,
            browser.sockets, browser.timers, browser.intervals, browser.nextId, browser.log)
    }

    constructor ()
      ensures Current() == INITIAL && fresh(browser)
    {
      ws, reconnectTimer, pendingConnect, pingInterval := None, None, None, None;
      reconnectDelay, shouldReconnect := BASE_DELAY, true;
      browser := new Browser();
    }

    method Connect()
      modifies this, browser
      ensures Current() == AfterConnect(old(Current()))
    {
      shouldReconnect := true;
      var state := ReadyStateOf();
      if state == Some(Open) || state == Some(Connecting) {
        return;
      }
      if pendingConnect.Some? {
        return;
      }
      var id := browser.SetTimeout(Timer(DeferredConnect, 0));
      pendingConnect := Some(id);
    }

    method ReadyStateOf() returns (state: Option<ReadyState>)
      ensures forall s :: state == Some(s) <==> CurrentIn(Current(), {s})
    {
      if ws.Some? && ws.value < |browser.sockets| {
        state := Some(browser.sockets[ws.value].state);
      } else {
        state := None;
      }
    }

    method DeferredFires()
      modifies this, browser
      ensures Current() == AfterDeferredFires(old(Current()))
    {
      pendingConnect := None;
      if shouldReconnect {
        OpenSocket();
      }
    }

    method OpenSocket()
      modifies this, browser
      ensures Current() == AfterOpenSocket(old(Current()))
    {
      var s := browser.NewSocket();
      ws := Some(s);
    }

    method ReconnectFires()
      modifies this, browser
      ensures Current() == AfterReconnectFires(old(Current()))
    {
      reconnectDelay := if reconnectDelay * 2 <= MAX_DELAY then reconnectDelay * 2 else MAX_DELAY;
      browser.log := browser.log + [Retried];
      OpenSocket();
    }

    method OnOpen(s: nat)
      modifies this, browser
      ensures Current() == AfterOnOpen(old(Current()), s)
    {
      if ws != Some(s) {
        return;
      }
      reconnectDelay := BASE_DELAY;
      NotifyStatus(true);
      StartPing();
    }

    method OnMessage(s: nat, m: Message)
      modifies browser
      ensures Current() == AfterOnMessage(old(Current()), s, m)
    {
      if ws != Some(s) {
        return;
      }
      match m
      case Ping => SendPong();
      case Malformed =>
      case Payload(body) => browser.log := browser.log + [Delivered(body)];
    }

    method OnClose(s: nat)
      modifies this, browser
      ensures Current() == AfterOnClose(old(Current()), s)
    {
      if ws != Some(s) {
        return;
      }
      NotifyStatus(false);
      StopPing();
      if shouldReconnect {
        var id := browser.SetTimeout(Timer(Reconnect, reconnectDelay));
        reconnectTimer := Some(id);
      }
    }

    method OnError(s: nat)
      modifies browser
      ensures Current() == AfterOnError(old(Current()), s)
    {
      if ws != Some(s) {
        return;
      }
      browser.Close(s);
    }

    method SendPong()
      modifies browser
      ensures Current() == AfterSendPong(old(Current()))
    {
      var state := ReadyStateOf();
      if state == Some(Open) {
        browser.log := browser.log + [PongSent];
      }
    }

    method Disconnect()
      modifies this, browser
      ensures Current() == AfterDisconnect(old(Current()))
    {
      shouldReconnect := false;
      if pendingConnect.Some? {
        browser.ClearTimeout(pendingConnect.value);
        pendingConnect := None;
        return;
      }
      if reconnectTimer.Some? {
        browser.ClearTimeout(reconnectTimer.value);
        reconnectTimer := None;
      }
      StopPing();
      if ws.Some? {
        browser.RemoveHandlers(ws.value);
        browser.Close(ws.value);
        ws := None;
      }
    }

    method NotifyStatus(connected: bool)
      modifies browser
      ensures Current() == old(Current()).(log := old(browser.log) + [StatusNotified(connected)])
    {
      browser.log := browser.log + [StatusNotified(connected)];
    }

    method StartPing()
      modifies this, browser
      ensures Current() == AfterStartPing(old(Current()))
    {
      var id := browser.SetInterval();
      pingInterval := Some(id);
    }

    method StopPing()
      modifies this, browser
      ensures Current() == AfterStopPing(old(Current()))
    {
      if pingInterval.Some? {
        browser.ClearInterval(pingInterval.value);
        pingInterval := None;
      }
    }

    /** The event loop: one event changes the browser's objects and runs the handlers the
        client installed. */
    method Deliver(e: Event)
      modifies this, browser
      ensures Current() == Step(old(Current()), e)
    {
      match e
      case Connect => Connect();
      case Disconnect => Disconnect();
      case TimerFires(id) =>
        if id in browser.timers {
          var kind := browser.timers[id].kind;
          browser.ClearTimeout(id);
          if kind == DeferredConnect {
            DeferredFires();
          } else {
            ReconnectFires();
          }
        }
      case IntervalFires(id) =>
        if id in browser.intervals {
          SendPong();
        }
      case Opens(s) =>
        if s < |browser.sockets| && browser.sockets[s].state == Connecting {
          browser.sockets := browser.sockets[s := browser.sockets[s].(state := Open, wasOpen := true)];
          if browser.sockets[s].attached {
            OnOpen(s);
          }
        }
      case Receives(s, m) =>
        if s < |browser.sockets| && browser.sockets[s].state == Open && browser.sockets[s].attached {
          OnMessage(s, m);
        }
      case Fails(s) =>
        if s < |browser.sockets| && browser.sockets[s].state != Closed && browser.sockets[s].attached {
          OnError(s);
        }
      case StartsClosing(s) => browser.Close(s);
      case Closes(s, failed) =>
        if s < |browser.sockets| && browser.sockets[s].state != Closed {
          browser.sockets := browser.sockets[s := browser.sockets[s].(state := Closed)];
          if browser.sockets[s].attached {
            if failed {
              OnError(s);
            }
            OnClose(s);
          }
        }
    }
  }
}
