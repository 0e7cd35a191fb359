/** The shared token refresh of frontend/src/lib/api.ts: any number of API calls and session
    starts, each suspended at its awaits and resumed in any order.

    A task's program counter says at which await it stands; one event runs the code from
    one await to the next. An event that cannot happen in a state changes nothing. */
module TokenRefresh {
  import opened Wrappers

  // A refresh request: sent, answered with its body still being read, or settled.
  datatype Refresh = InFlight | Reading | Settled(ok: bool)

  datatype Outcome = Answered(status: int) | Expired | NetworkError | Started(ok: bool)

  datatype Task =
    | CallStart
    | AwaitFirst
    | AwaitRefresh(refresh: nat)
    | AwaitSecond
    | InitStart
    | InitAwait(refresh: nat, saved: Option<int>)
    | Done(outcome: Outcome)

  datatype Action =
    | ResourceSent(task: nat, bearer: string)
    | RefreshSent(refresh: nat, token: string)
    | Resumed(task: nat, refresh: nat, ok: bool)
    | Unauthorized(handler: int)

  datatype Event =
    // the tasks
    | Spawn(kind: Task)
    | Begin(task: nat)
    | FirstAnswer(task: nat, status: int)
    | SecondAnswer(task: nat, status: int)
    | NetworkFails(task: nat)
    | Resume(task: nat)
    // the refresh requests
    | RefreshAnswer(refresh: nat, ok: bool)
    | RefreshBody(refresh: nat, token: Option<string>)
    | RefreshFails(refresh: nat)
    // the rest of the page
    | SetTokens(access: string, refreshToken: string)
    | ClearTokens
    | Register(handler: int)

  datatype State = State(
    accessToken: string,
    refreshToken: string,
    refreshPromise: Option<nat>,
    onUnauthorized: Option<int>,
    refreshes: seq<Refresh>,
    tasks: seq<Task>,
    log: seq<Action>)

  // ---- the code between awaits ----

  function Move(st: State, i: nat, pc: Task): State {
    if i < |st.tasks| then st.(tasks := st.tasks[i := pc]) else st
  }

  function Log(st: State, a: Action): State {
    st.(log := st.log + [a])
  }

  function AfterClearTokens(st: State): State {
    st.(accessToken := "", refreshToken := "")
  }

  // _doRefresh up to its first await: which refresh to wait for, or None for a plain false.
  function AfterDoRefresh(st: State): (State, Option<nat>) {
    if st.refreshToken == "" then (st, None)
    else if st.refreshPromise.Some? then (st, st.refreshPromise)
    else
      var p := |st.refreshes|;
      (Log(st.(refreshes := st.refreshes + [InFlight], refreshPromise := Some(p)), RefreshSent(p, st.refreshToken)), Some(p))
  }

  // The session is gone: tell the page, if it asked to be told.
  function AfterExpired(st: State, i: nat): State {
    var st1 := Move(st, i, Done(Expired));
    if st.onUnauthorized.Some? then Log(st1, Unauthorized(st.onUnauthorized.value)) else st1
  }

  function AfterStarted(st: State, i: nat, ok: bool, saved: Option<int>): State {
    Move(st, i, Done(Started(ok))).(onUnauthorized := saved)
  }

  function AfterBegin(st: State, i: nat): State
    requires i < |st.tasks|
  {
    match st.tasks[i]
    case CallStart => Log(Move(st, i, AwaitFirst), ResourceSent(i, st.accessToken))
    case InitStart =>
      if st.refreshToken == "" then Move(st, i, Done(Started(false)))
      else
        var (st1, ticket) := AfterDoRefresh(st.(onUnauthorized := None));
        Move(st1, i, InitAwait(ticket.value, st.onUnauthorized))
    case _ => st
  }

  function AfterFirstAnswer(st: State, i: nat, status: int): State {
    if status == 401 && st.refreshToken != ""
    then
      var (st1, ticket) := AfterDoRefresh(st);
      Move(st1, i, AwaitRefresh(ticket.value))
    else Move(st, i, Done(Answered(status)))
  }

  function AfterResume(st: State, i: nat): State
    requires i < |st.tasks|
  {
    match st.tasks[i]
    case AwaitRefresh(p) =>
      if p >= |st.refreshes| || !st.refreshes[p].Settled? then st
      else if st.refreshes[p].ok
      then Log(Log(Move(st, i, AwaitSecond), Resumed(i, p, true)), ResourceSent(i, st.accessToken))
      else AfterExpired(Log(st, Resumed(i, p, false)), i)
    case InitAwait(p, saved) =>
      if p >= |st.refreshes| || !st.refreshes[p].Settled? then st
      else AfterStarted(Log(st, Resumed(i, p, st.refreshes[p].ok)), i, st.refreshes[p].ok, saved)
    case _ => st
  }

  // The end of the shared promise: its result, and the field cleared.
  function AfterSettle(st: State, p: nat, ok: bool): State {
    if p < |st.refreshes| then st.(refreshes := st.refreshes[p := Settled(ok)], refreshPromise := None) else st
  }

  function Step(st: State, e: Event): State {
    match e
    case Spawn(kind) => if kind.CallStart? || kind.InitStart? then st.(tasks := st.tasks + [kind]) else st
    case Begin(i) => if i < |st.tasks| then AfterBegin(st, i) else st
    case FirstAnswer(i, status) =>
      if i < |st.tasks| && st.tasks[i].AwaitFirst? then AfterFirstAnswer(st, i, status) else st
    case SecondAnswer(i, status) =>
      if i < |st.tasks| && st.tasks[i].AwaitSecond? then Move(st, i, Done(Answered(status))) else st
    case NetworkFails(i) =>
      if i < |st.tasks| && (st.tasks[i].AwaitFirst? || st.tasks[i].AwaitSecond?) then Move(st, i, Done(NetworkError)) else st
    case Resume(i) => if i < |st.tasks| then AfterResume(st, i) else st
    case RefreshAnswer(p, ok) =>
      if p >= |st.refreshes| || st.refreshes[p] != InFlight then st
      else if ok then st.(refreshes := st.refreshes[p := Reading])
      else AfterSettle(AfterClearTokens(st), p, false)
    case RefreshBody(p, token) =>
      if p >= |st.refreshes| || st.refreshes[p] != Reading then st
      else if token.Some? then AfterSettle(st.(accessToken := token.value), p, true)
      else AfterSettle(AfterClearTokens(st), p, false)
    case RefreshFails(p) =>
      if p >= |st.refreshes| || st.refreshes[p] != InFlight then st
      else AfterSettle(AfterClearTokens(st), p, false)
    case SetTokens(access, refreshToken) => st.(accessToken := access, refreshToken := refreshToken)
    case ClearTokens => AfterClearTokens(st)
    case Register(handler) => st.(onUnauthorized := Some(handler))
  }

  // The page starts with whatever refresh token the local storage held.
  function Initial(stored: string): State {
    State("", stored, None, None, [], [], [])
  }

  function Run(stored: string, trace: seq<Event>): State {
    if trace == [] then Initial(stored) else Step(Run(stored, trace[..|trace| - 1]), trace[|trace| - 1])
  }

  // ---- single flight ----

  /** At most one refresh is unsettled, and the shared field names it exactly while it is. */
  ghost predicate SingleFlight(st: State) {
    forall p: nat :: st.refreshPromise == Some(p) <==> p < |st.refreshes| && !st.refreshes[p].Settled?
  }

  // The refresh a task waits for exists.
  ghost predicate Known(st: State) {
    forall i | 0 <= i < |st.tasks| ::
      && (st.tasks[i].AwaitRefresh? ==> st.tasks[i].refresh < |st.refreshes|)
      && (st.tasks[i].InitAwait? ==> st.tasks[i].refresh < |st.refreshes|)
  }

  // What a task was told of a refresh is how it settled.
  ghost predicate Told(st: State) {
    forall k | 0 <= k < |st.log| && st.log[k].Resumed? ::
      st.log[k].refresh < |st.refreshes| && st.refreshes[st.log[k].refresh] == Settled(st.log[k].ok)
  }

  lemma StepKeepsSingleFlight(st: State, e: Event)
    requires SingleFlight(st)
    ensures SingleFlight(Step(st, e))
  {
  }

  lemma StepKeepsKnown(st: State, e: Event)
    requires SingleFlight(st) && Known(st)
    ensures Known(Step(st, e))
  {
  }

  lemma StepKeepsTold(st: State, e: Event)
    requires Told(st)
    ensures Told(Step(st, e))
  {
    hide AfterBegin, AfterFirstAnswer;
    if (e.Begin? && e.task < |st.tasks|) || e.FirstAnswer? {
      NothingTold(st, e);
    }
  }

  lemma NothingTold(st: State, e: Event)
    requires (e.Begin? && e.task < |st.tasks|) || e.FirstAnswer?
    ensures var next := Step(st, e);
            && |st.log| <= |next.log| && |st.refreshes| <= |next.refreshes|
            && (forall k | 0 <= k < |next.log| && next.log[k].Resumed? :: k < |st.log| && next.log[k] == st.log[k])
            && (forall p | 0 <= p < |st.refreshes| :: next.refreshes[p] == st.refreshes[p])
  {
  }

  lemma {:induction false} SingleFlightOverRuns(stored: string, trace: seq<Event>)
    ensures SingleFlight(Run(stored, trace)) && Known(Run(stored, trace)) && Told(Run(stored, trace))
  {
    if trace == [] {
    } else {
      var before := Run(stored, trace[..|trace| - 1]);
      SingleFlightOverRuns(stored, trace[..|trace| - 1]);
      StepKeepsSingleFlight(before, trace[|trace| - 1]);
      StepKeepsKnown(before, trace[|trace| - 1]);
      StepKeepsTold(before, trace[|trace| - 1]);
    }
  }

  /** However the calls interleave, two refreshes are never in flight together. */
  lemma AtMostOneInFlight(stored: string, trace: seq<Event>, p: nat, q: nat)
    requires var st := Run(stored, trace);
             p < |st.refreshes| && q < |st.refreshes| && !st.refreshes[p].Settled? && !st.refreshes[q].Settled?
    ensures p == q && Run(stored, trace).refreshPromise == Some(p)
  {
    SingleFlightOverRuns(stored, trace);
  }

  /** All tasks that waited for one refresh were told the same result. */
  lemma WaitersAgree(stored: string, trace: seq<Event>, j: nat, k: nat)
    requires var log := Run(stored, trace).log;
             j < |log| && k < |log| && log[j].Resumed? && log[k].Resumed? && log[j].refresh == log[k].refresh
    ensures var log := Run(stored, trace).log; log[j].ok == log[k].ok
  {
    SingleFlightOverRuns(stored, trace);
  }

  // ---- how many requests, and how many steps ----

  function Sum(s: seq<nat>): nat {
    if s == [] then 0 else Sum(s[..|s| - 1]) + s[|s| - 1]
  }

  lemma {:induction false} SumUpdate(s: seq<nat>, i: nat, v: nat)
    requires i < |s|
    ensures Sum(s[i := v]) == Sum(s) - s[i] + v
  {
    if i == |s| - 1 {
      assert s[i := v][..i] == s[..i];
    } else {
      SumUpdate(s[..|s| - 1], i, v);
      assert s[i := v][..|s| - 1] == s[..|s| - 1][i := v];
    }
  }

  lemma SumAppend(s: seq<nat>, v: nat)
    ensures Sum(s + [v]) == Sum(s) + v
  {
    assert (s + [v])[..|s|] == s;
  }

  // How many resource requests a task may still send.
  function Requests(t: Task): nat {
    match t
    case CallStart => 2
    case AwaitFirst => 1
    case AwaitRefresh(_) => 1
    case _ => 0
  }

  // How many refreshes a task may still start.
  function Starts(t: Task): nat {
    if t.CallStart? || t.AwaitFirst? || t.InitStart? then 1 else 0
  }

  // How many steps a task may still take or cause.
  function Rank(t: Task): nat {
    match t
    case CallStart => 6
    case AwaitFirst => 5
    case AwaitRefresh(_) => 2
    case AwaitSecond => 1
    case InitStart => 4
    case InitAwait(_, _) => 1
    case Done(_) => 0
  }

  function RefreshRank(r: Refresh): nat {
    match r
    case InFlight => 2
    case Reading => 1
    case Settled(_) => 0
  }

  function MapTasks(tasks: seq<Task>, f: Task -> nat): seq<nat> {
    seq(|tasks|, i requires 0 <= i < |tasks| => f(tasks[i]))
  }

  function MapRefreshes(refreshes: seq<Refresh>): seq<nat> {
    seq(|refreshes|, i requires 0 <= i < |refreshes| => RefreshRank(refreshes[i]))
  }

  function Measure(st: State): nat {
    Sum(MapTasks(st.tasks, Rank)) + Sum(MapRefreshes(st.refreshes))
  }

  function Sent(log: seq<Action>): nat {
    if log == [] then 0 else Sent(log[..|log| - 1]) + (if log[|log| - 1].ResourceSent? then 1 else 0)
  }

  lemma MoveSums(tasks: seq<Task>, i: nat, pc: Task, f: Task -> nat)
    requires i < |tasks|
    ensures Sum(MapTasks(tasks[i := pc], f)) == Sum(MapTasks(tasks, f)) - f(tasks[i]) + f(pc)
  {
    SumUpdate(MapTasks(tasks, f), i, f(pc));
    assert MapTasks(tasks[i := pc], f) == MapTasks(tasks, f)[i := f(pc)];
  }

  lemma SpawnSums(tasks: seq<Task>, pc: Task, f: Task -> nat)
    ensures Sum(MapTasks(tasks + [pc], f)) == Sum(MapTasks(tasks, f)) + f(pc)
  {
    SumAppend(MapTasks(tasks, f), f(pc));
    assert MapTasks(tasks + [pc], f) == MapTasks(tasks, f) + [f(pc)];
  }

  lemma RefreshSums(refreshes: seq<Refresh>, p: nat, r: Refresh)
    ensures p < |refreshes| ==>
              Sum(MapRefreshes(refreshes[p := r])) == Sum(MapRefreshes(refreshes)) - RefreshRank(refreshes[p]) + RefreshRank(r)
    ensures Sum(MapRefreshes(refreshes + [r])) == Sum(MapRefreshes(refreshes)) + RefreshRank(r)
  {
    if p < |refreshes| {
      SumUpdate(MapRefreshes(refreshes), p, RefreshRank(r));
      assert MapRefreshes(refreshes[p := r]) == MapRefreshes(refreshes)[p := RefreshRank(r)];
    }
    SumAppend(MapRefreshes(refreshes), RefreshRank(r));
    assert MapRefreshes(refreshes + [r]) == MapRefreshes(refreshes) + [RefreshRank(r)];
  }

  lemma LogSent(log: seq<Action>, a: Action)
    ensures Sent(log + [a]) == Sent(log) + (if a.ResourceSent? then 1 else 0)
  {
    assert (log + [a])[..|log|] == log;
  }

  // Sent and still sendable requests, started and still startable refreshes.
  ghost predicate WithinBudget(st: State) {
    && Sent(st.log) + Sum(MapTasks(st.tasks, Requests)) <= 2 * |st.tasks|
    && |st.refreshes| + Sum(MapTasks(st.tasks, Starts)) <= |st.tasks|
  }

  predicate IsProgress(e: Event) {
    !e.Spawn? && !e.SetTokens? && !e.ClearTokens? && !e.Register?
  }

  /** Neither budget is ever overdrawn, and everything a task or a refresh does, if it does
      anything, uses up some of the measure. */
  ghost predicate Spends(st: State, e: Event) {
    && (WithinBudget(st) ==> WithinBudget(Step(st, e)))
    && Measure(Step(st, e)) <= Measure(st) + (if e.Spawn? then 6 else 0)
    && (IsProgress(e) && Step(st, e) != st ==> Measure(Step(st, e)) < Measure(st))
  }

  lemma MoveAll(tasks: seq<Task>, i: nat, pc: Task)
    requires i < |tasks|
    ensures Sum(MapTasks(tasks[i := pc], Requests)) == Sum(MapTasks(tasks, Requests)) - Requests(tasks[i]) + Requests(pc)
    ensures Sum(MapTasks(tasks[i := pc], Starts)) == Sum(MapTasks(tasks, Starts)) - Starts(tasks[i]) + Starts(pc)
    ensures Sum(MapTasks(tasks[i := pc], Rank)) == Sum(MapTasks(tasks, Rank)) - Rank(tasks[i]) + Rank(pc)
  {
    MoveSums(tasks, i, pc, Requests);
    MoveSums(tasks, i, pc, Starts);
    MoveSums(tasks, i, pc, Rank);
  }

  lemma SpawnSpends(st: State, kind: Task)
    ensures Spends(st, Spawn(kind))
  {
    hide Sum, MapTasks, MapRefreshes, Sent;
    SpawnSums(st.tasks, kind, Requests);
    SpawnSums(st.tasks, kind, Starts);
    SpawnSums(st.tasks, kind, Rank);
  }

  lemma DoRefreshSpends(st: State)
    ensures var (st1, ticket) := AfterDoRefresh(st);
            && st1.tasks == st.tasks && Sent(st1.log) == Sent(st.log)
            && |st1.refreshes| <= |st.refreshes| + 1
            && Sum(MapRefreshes(st1.refreshes)) <= Sum(MapRefreshes(st.refreshes)) + 2
            && (ticket.None? <==> st.refreshToken == "")
            && (ticket.None? ==> st1 == st)
  {
    RefreshSums(st.refreshes, 0, InFlight);
    LogSent(st.log, RefreshSent(|st.refreshes|, st.refreshToken));
  }

  lemma BeginSpends(st: State, i: nat)
    ensures Spends(st, Begin(i))
  {
    hide Sum, MapTasks, MapRefreshes, Sent, AfterDoRefresh;
    if i < |st.tasks| && st.tasks[i].CallStart? {
      MoveAll(st.tasks, i, AwaitFirst);
      LogSent(st.log, ResourceSent(i, st.accessToken));
    } else if i < |st.tasks| && st.tasks[i].InitStart? {
      var (st1, ticket) := AfterDoRefresh(st.(onUnauthorized := None));
      DoRefreshSpends(st.(onUnauthorized := None));
      MoveAll(st.tasks, i, Done(Started(false)));
      if ticket.Some? {
        MoveAll(st.tasks, i, InitAwait(ticket.value, st.onUnauthorized));
      }
    }
  }

  lemma FirstAnswerSpends(st: State, i: nat, status: int)
    ensures Spends(st, FirstAnswer(i, status))
  {
    hide Sum, MapTasks, MapRefreshes, Sent, AfterDoRefresh;
    if i < |st.tasks| && st.tasks[i].AwaitFirst? {
      var (st1, ticket) := AfterDoRefresh(st);
      DoRefreshSpends(st);
      MoveAll(st.tasks, i, Done(Answered(status)));
      if ticket.Some? {
        MoveAll(st.tasks, i, AwaitRefresh(ticket.value));
      }
    }
  }

  lemma SettledSpends(st: State, i: nat)
    ensures Spends(st, NetworkFails(i))
    ensures forall status :: Spends(st, SecondAnswer(i, status))
  {
    hide Sum, MapTasks, MapRefreshes, Sent;
    if i < |st.tasks| {
      MoveAll(st.tasks, i, Done(NetworkError));
      forall status
        ensures Spends(st, SecondAnswer(i, status))
      {
        MoveAll(st.tasks, i, Done(Answered(status)));
      }
    }
  }

  lemma ExpiredSpends(st: State, i: nat)
    requires i < |st.tasks|
    ensures AfterExpired(st, i).tasks == st.tasks[i := Done(Expired)]
    ensures Sent(AfterExpired(st, i).log) == Sent(st.log)
    ensures AfterExpired(st, i).refreshes == st.refreshes
  {
    if st.onUnauthorized.Some? {
      LogSent(st.log, Unauthorized(st.onUnauthorized.value));
    }
  }

  lemma ResumeSpends(st: State, i: nat)
    ensures Spends(st, Resume(i))
  {
    hide Sum, MapTasks, MapRefreshes, Sent, AfterDoRefresh;
    if i < |st.tasks| && (st.tasks[i].AwaitRefresh? || st.tasks[i].InitAwait?) {
      var p := st.tasks[i].refresh;
      if p < |st.refreshes| && st.refreshes[p].Settled? {
        var told := Resumed(i, p, st.refreshes[p].ok);
        LogSent(st.log, told);
        LogSent(st.log + [told], ResourceSent(i, st.accessToken));
        MoveAll(st.tasks, i, AwaitSecond);
        MoveAll(st.tasks, i, Done(Expired));
        MoveAll(st.tasks, i, Done(Started(st.refreshes[p].ok)));
        ExpiredSpends(Log(st, told), i);
      }
    }
  }

  lemma RefreshSpends(st: State, e: Event)
    requires e.RefreshAnswer? || e.RefreshBody? || e.RefreshFails?
    ensures Spends(st, e)
  {
    hide Sum, MapTasks, MapRefreshes, Sent;
    RefreshSums(st.refreshes, e.refresh, Reading);
    RefreshSums(st.refreshes, e.refresh, Settled(false));
    RefreshSums(st.refreshes, e.refresh, Settled(true));
  }

  lemma StepSpends(st: State, e: Event)
    ensures Spends(st, e)
  {
    match e
    case Spawn(kind) => SpawnSpends(st, kind);
    case Begin(i) => BeginSpends(st, i);
    case FirstAnswer(i, status) => FirstAnswerSpends(st, i, status);
    case SecondAnswer(i, _) => SettledSpends(st, i);
    case NetworkFails(i) => SettledSpends(st, i);
    case Resume(i) => ResumeSpends(st, i);
    case SetTokens(_, _) =>
    case ClearTokens =>
    case Register(_) =>
    case _ => RefreshSpends(st, e);
  }

  // The events of a run that made a task or a refresh do something.
  function Effective(stored: string, trace: seq<Event>): nat {
    if trace == [] then 0
    else
      var before, e := Run(stored, trace[..|trace| - 1]), trace[|trace| - 1];
      Effective(stored, trace[..|trace| - 1]) + (if IsProgress(e) && Step(before, e) != before then 1 else 0)
  }

  function Spawned(trace: seq<Event>): nat {
    if trace == [] then 0 else Spawned(trace[..|trace| - 1]) + (if trace[|trace| - 1].Spawn? then 1 else 0)
  }

  /** In every run of N calls, at most 2N resource requests and N refreshes are sent, and the
      calls and refreshes take at most 6N steps between them. */
  lemma {:induction false} CallsAreBounded(stored: string, trace: seq<Event>)
    ensures var st := Run(stored, trace);
            && |st.tasks| <= Spawned(trace)
            && Sent(st.log) <= 2 * |st.tasks|
            && |st.refreshes| <= |st.tasks|
            && Effective(stored, trace) + Measure(st) <= 6 * Spawned(trace)
            && WithinBudget(st)
  {
    if trace == [] {
    } else {
      CallsAreBounded(stored, trace[..|trace| - 1]);
      StepSpends(Run(stored, trace[..|trace| - 1]), trace[|trace| - 1]);
      TasksGrow(Run(stored, trace[..|trace| - 1]), trace[|trace| - 1]);
    }
  }

  lemma TasksGrow(st: State, e: Event)
    ensures |Step(st, e).tasks| <= |st.tasks| + (if e.Spawn? then 1 else 0)
  {
  }

  // The refresh a task waits for.
  function Awaited(t: Task): Option<nat> {
    match t
    case AwaitRefresh(p) => Some(p)
    case InitAwait(p, _) => Some(p)
    case _ => None
  }

  /** Nothing deadlocks: while a call is unfinished, the network or the event loop can deliver an
      event that makes this call, or the refresh it waits for, move on. */
  lemma NeverStuck(stored: string, trace: seq<Event>, i: nat) returns (e: Event)
    requires var st := Run(stored, trace); i < |st.tasks| && !st.tasks[i].Done?
    ensures IsProgress(e)
    ensures var st, next := Run(stored, trace), Step(Run(stored, trace), e);
            && |st.tasks| <= |next.tasks| && |st.refreshes| <= |next.refreshes|
            && (|| next.tasks[i] != st.tasks[i]
                || (&& Awaited(st.tasks[i]).Some? && Awaited(st.tasks[i]).value < |st.refreshes|
                    && next.refreshes[Awaited(st.tasks[i]).value] != st.refreshes[Awaited(st.tasks[i]).value]))
  {
    SingleFlightOverRuns(stored, trace);
    var st := Run(stored, trace);
    if st.tasks[i].AwaitRefresh? || st.tasks[i].InitAwait? {
      var p := st.tasks[i].refresh;
      match st.refreshes[p]
      case InFlight => e := RefreshFails(p); assert Step(st, e).refreshes[p].Settled?;
      case Reading => e := RefreshBody(p, None); assert Step(st, e).refreshes[p].Settled?;
      case Settled(ok) => e := Resume(i); assert Step(st, e).tasks[i] != st.tasks[i];
    } else {
      e := match st.tasks[i]
           case AwaitFirst => NetworkFails(i)
           case AwaitSecond => NetworkFails(i)
           case _ => Begin(i);
      assert Step(st, e).tasks[i] != st.tasks[i];
    }
  }

  // ---- what is sent, and when ----

  // The refresh is waiting for its answer, or for the body of a good one.
  predicate IsAt(st: State, p: nat, r: Refresh) {
    p < |st.refreshes| && st.refreshes[p] == r
  }

  // The event ends the session: a refresh that was refused, failed, or had no usable body.
  predicate EndsSession(st: State, e: Event) {
    match e
    case RefreshAnswer(p, ok) => IsAt(st, p, InFlight) && !ok
    case RefreshBody(p, token) => IsAt(st, p, Reading) && token.None?
    case RefreshFails(p) => IsAt(st, p, InFlight)
    case ClearTokens => true
    case _ => false
  }

  // The access token a run leaves in force: the last one set or refreshed, unless the session ended.
  function AccessInForce(stored: string, trace: seq<Event>): string {
    if trace == [] then ""
    else
      var init, e := trace[..|trace| - 1], trace[|trace| - 1];
      if EndsSession(Run(stored, init), e) then ""
      else if e.SetTokens? then e.access
      else if e.RefreshBody? && IsAt(Run(stored, init), e.refresh, Reading) && e.token.Some? then e.token.value
      else AccessInForce(stored, init)
  }

  function RefreshInForce(stored: string, trace: seq<Event>): string {
    if trace == [] then stored
    else
      var init, e := trace[..|trace| - 1], trace[|trace| - 1];
      if EndsSession(Run(stored, init), e) then ""
      else if e.SetTokens? then e.refreshToken
      else RefreshInForce(stored, init)
  }

  lemma StepKeepsInForce(st: State, e: Event)
    ensures Step(st, e).accessToken ==
            if EndsSession(st, e) then ""
            else if e.SetTokens? then e.access
            else if e.RefreshBody? && IsAt(st, e.refresh, Reading) && e.token.Some? then e.token.value
            else st.accessToken
    ensures Step(st, e).refreshToken ==
            if EndsSession(st, e) then "" else if e.SetTokens? then e.refreshToken else st.refreshToken
  {
  }

  lemma {:induction false} TokensInForce(stored: string, trace: seq<Event>)
    ensures Run(stored, trace).accessToken == AccessInForce(stored, trace)
    ensures Run(stored, trace).refreshToken == RefreshInForce(stored, trace)
  {
    if trace == [] {
    } else {
      hide Step, EndsSession, IsAt;
      TokensInForce(stored, trace[..|trace| - 1]);
      StepKeepsInForce(Run(stored, trace[..|trace| - 1]), trace[|trace| - 1]);
    }
  }

  // The refresh a new waiter joins, and the request that takes if there is none to join.
  function Ticket(st: State): nat {
    if st.refreshPromise.Some? then st.refreshPromise.value else |st.refreshes|
  }

  function NewRefresh(st: State): seq<Action> {
    if st.refreshPromise.Some? then [] else [RefreshSent(|st.refreshes|, st.refreshToken)]
  }

  /** A call sends its request with the access token in force. */
  lemma CallSends(stored: string, trace: seq<Event>, i: nat)
    requires var st := Run(stored, trace); i < |st.tasks| && st.tasks[i] == CallStart
    ensures var st, next := Run(stored, trace), Run(stored, trace + [Begin(i)]);
            && next.tasks == st.tasks[i := AwaitFirst]
            && next.log == st.log + [ResourceSent(i, AccessInForce(stored, trace))]
  {
    RunStep(stored, trace, Begin(i));
    TokensInForce(stored, trace);
  }

  /** The first answer refreshes if and only if it is a 401 and a refresh token is held: then the call
      waits for the one unsettled refresh the shared promise names, started with the refresh token in
      force if there was none. Every other answer ends the call with its status. */
  lemma FirstAnswerExact(stored: string, trace: seq<Event>, i: nat, status: int)
    requires var st := Run(stored, trace); i < |st.tasks| && st.tasks[i] == AwaitFirst
    ensures var st, next := Run(stored, trace), Run(stored, trace + [FirstAnswer(i, status)]);
            if status == 401 && RefreshInForce(stored, trace) != ""
            then
              var p := Ticket(st);
              && next.tasks == st.tasks[i := AwaitRefresh(p)] && next.refreshPromise == Some(p)
              && p < |next.refreshes| && !next.refreshes[p].Settled?
              && next.log == st.log + NewRefresh(st)
              && (st.refreshPromise.None? ==> next.log[|st.log|] == RefreshSent(p, RefreshInForce(stored, trace)))
            else
              next.tasks == st.tasks[i := Done(Answered(status))] && next.refreshes == st.refreshes && next.log == st.log
  {
    RunStep(stored, trace, FirstAnswer(i, status));
    TokensInForce(stored, trace);
    SingleFlightOverRuns(stored, trace);
    SingleFlightOverRuns(stored, trace + [FirstAnswer(i, status)]);
    hide Run, RefreshInForce, Known, Told;
  }

  /** Once its refresh has settled, a call that resumes sends its second request with the access token
      in force at that moment if the refresh went well; otherwise it ends as expired and the handler in
      force, if any, is called. */
  lemma ResumeExact(stored: string, trace: seq<Event>, i: nat)
    requires var st := Run(stored, trace); i < |st.tasks| && st.tasks[i].AwaitRefresh?
    ensures var st, next := Run(stored, trace), Run(stored, trace + [Resume(i)]);
            var p := st.tasks[i].refresh;
            && p < |st.refreshes|
            && (if !st.refreshes[p].Settled? then next == st
                else if st.refreshes[p].ok
                then
                  && next.tasks == st.tasks[i := AwaitSecond]
                  && next.log == st.log + [Resumed(i, p, true), ResourceSent(i, AccessInForce(stored, trace))]
                else
                  && next.tasks == st.tasks[i := Done(Expired)]
                  && next.log == st.log + [Resumed(i, p, false)] +
                                 (if st.onUnauthorized.Some? then [Unauthorized(st.onUnauthorized.value)] else []))
  {
    RunStep(stored, trace, Resume(i));
    TokensInForce(stored, trace);
    SingleFlightOverRuns(stored, trace);
    hide Run, AccessInForce, SingleFlight, Told;
    assert Run(stored, trace).log + [] == Run(stored, trace).log;
  }

  /** The second answer ends the call whatever it is: there is no third request. A failing network
      ends it at either request. */
  lemma LastAnswerExact(stored: string, trace: seq<Event>, i: nat, status: int)
    requires var st := Run(stored, trace); i < |st.tasks|
    ensures var st := Run(stored, trace);
            && (st.tasks[i] == AwaitSecond ==>
                  Run(stored, trace + [SecondAnswer(i, status)]) == st.(tasks := st.tasks[i := Done(Answered(status))]))
            && (st.tasks[i] == AwaitFirst || st.tasks[i] == AwaitSecond ==>
                  Run(stored, trace + [NetworkFails(i)]) == st.(tasks := st.tasks[i := Done(NetworkError)]))
  {
    RunStep(stored, trace, SecondAnswer(i, status));
    RunStep(stored, trace, NetworkFails(i));
  }

  /** A session start without a refresh token answers false at once and sends nothing; with one it waits
      for a refresh as a call does, the handler set aside, and answers how that refresh settled. */
  lemma SessionStartExact(stored: string, trace: seq<Event>, i: nat)
    requires var st := Run(stored, trace); i < |st.tasks|
    ensures var st, next := Run(stored, trace), Run(stored, trace + [Begin(i)]);
            st.tasks[i] == InitStart ==>
              if RefreshInForce(stored, trace) == "" then next == st.(tasks := st.tasks[i := Done(Started(false))])
              else
                && next.tasks == st.tasks[i := InitAwait(Ticket(st), st.onUnauthorized)]
                && next.refreshPromise == Some(Ticket(st)) && next.log == st.log + NewRefresh(st)
    ensures var st, next := Run(stored, trace), Run(stored, trace + [Resume(i)]);
            st.tasks[i].InitAwait? && IsAt(st, st.tasks[i].refresh, Settled(true)) ==>
              next.log == st.log + [Resumed(i, st.tasks[i].refresh, true)] && next.tasks == st.tasks[i := Done(Started(true))]
    ensures var st, next := Run(stored, trace), Run(stored, trace + [Resume(i)]);
            st.tasks[i].InitAwait? && IsAt(st, st.tasks[i].refresh, Settled(false)) ==>
              next.log == st.log + [Resumed(i, st.tasks[i].refresh, false)] && next.tasks == st.tasks[i := Done(Started(false))]
  {
    RunStep(stored, trace, Begin(i));
    RunStep(stored, trace, Resume(i));
    TokensInForce(stored, trace);
    hide Run, RefreshInForce;
    assert Run(stored, trace).log + [] == Run(stored, trace).log;
  }

  /** How a refresh settles: well exactly when its answer was good and its body had a token. */
  lemma RefreshSettles(st: State, e: Event, p: nat)
    requires p < |st.refreshes|
    ensures var next := Step(st, e);
            && p < |next.refreshes|
            && (next.refreshes[p] == Settled(true) <==>
                  st.refreshes[p] == Settled(true) || (st.refreshes[p] == Reading && e.RefreshBody? && e.refresh == p && e.token.Some?))
            && (next.refreshes[p] == Settled(false) <==>
                  || st.refreshes[p] == Settled(false)
                  || (st.refreshes[p] == Reading && e.RefreshBody? && e.refresh == p && e.token.None?)
                  || (st.refreshes[p] == InFlight && e.RefreshAnswer? && e.refresh == p && !e.ok)
                  || (st.refreshes[p] == InFlight && e.RefreshFails? && e.refresh == p))
            && (next.refreshes[p] == Reading <==>
                  || (st.refreshes[p] == Reading && !(e.RefreshBody? && e.refresh == p))
                  || (st.refreshes[p] == InFlight && e.RefreshAnswer? && e.refresh == p && e.ok))
  {
  }

  // ---- the suppressed handler ----

  function Registered(trace: seq<Event>): Option<int> {
    if trace == [] then None
    else if trace[|trace| - 1].Register? then Some(trace[|trace| - 1].handler)
    else Registered(trace[..|trace| - 1])
  }

  predicate Starting(st: State) {
    exists i | 0 <= i < |st.tasks| :: st.tasks[i].InitAwait?
  }

  // A registration, or a session start that has a token to exchange.
  predicate TouchesHandler(st: State, e: Event) {
    e.Register? || (e.Begin? && e.task < |st.tasks| && st.tasks[e.task].InitStart? && st.refreshToken != "")
  }

  // What main.tsx does: neither while a session start is waiting.
  predicate OneStartAtATime(stored: string, trace: seq<Event>) {
    forall k | 0 <= k < |trace| :: TouchesHandler(Run(stored, trace[..k]), trace[k]) ==> !Starting(Run(stored, trace[..k]))
  }

  // `waiting` is the one session start that has muted the handler, if any.
  ghost predicate HandlerKept(st: State, registered: Option<int>, waiting: Option<nat>) {
    && (forall i: nat | i < |st.tasks| :: st.tasks[i].InitAwait? <==> waiting == Some(i))
    && (waiting.Some? ==>
          waiting.value < |st.tasks| && st.onUnauthorized == None && st.tasks[waiting.value].saved == registered)
    && (waiting.None? ==> st.onUnauthorized == registered)
  }

  lemma BeginKeepsHandler(st: State, i: nat, registered: Option<int>, waiting: Option<nat>) returns (waiting': Option<nat>)
    requires HandlerKept(st, registered, waiting)
    requires i < |st.tasks| && (st.tasks[i].InitStart? && st.refreshToken != "" ==> waiting.None?)
    ensures HandlerKept(AfterBegin(st, i), registered, waiting')
  {
    waiting' := if st.tasks[i].InitStart? && st.refreshToken != "" then Some(i) else waiting;
  }

  lemma ResumeKeepsHandler(st: State, i: nat, registered: Option<int>, waiting: Option<nat>) returns (waiting': Option<nat>)
    requires HandlerKept(st, registered, waiting) && i < |st.tasks|
    ensures HandlerKept(AfterResume(st, i), registered, waiting')
  {
    var p := if st.tasks[i].InitAwait? then st.tasks[i].refresh else 0;
    waiting' := if waiting == Some(i) && p < |st.refreshes| && st.refreshes[p].Settled? then None else waiting;
  }

  lemma StepKeepsHandler(st: State, e: Event, registered: Option<int>, waiting: Option<nat>) returns (waiting': Option<nat>)
    requires HandlerKept(st, registered, waiting)
    requires TouchesHandler(st, e) ==> waiting.None?
    ensures HandlerKept(Step(st, e), if e.Register? then Some(e.handler) else registered, waiting')
  {
    hide AfterBegin, AfterResume;
    waiting' := waiting;
    if e.Begin? && e.task < |st.tasks| {
      waiting' := BeginKeepsHandler(st, e.task, registered, waiting);
    } else if e.Resume? && e.task < |st.tasks| {
      waiting' := ResumeKeepsHandler(st, e.task, registered, waiting);
    }
  }

  ghost predicate KeepsHandler(st: State, registered: Option<int>) {
    exists waiting :: HandlerKept(st, registered, waiting)
  }

  lemma StartingIsWaiting(st: State, registered: Option<int>, waiting: Option<nat>)
    requires HandlerKept(st, registered, waiting)
    ensures Starting(st) <==> waiting.Some?
  {
    if waiting.Some? {
      assert st.tasks[waiting.value].InitAwait?;
    }
  }

  // A second start that begins leaves two waiting; a registration ends the muting.
  lemma TouchWhileStartingBreaks(st: State, e: Event, registered: Option<int>, waiting: Option<nat>, waiting': Option<nat>)
    requires HandlerKept(st, registered, waiting) && waiting.Some? && TouchesHandler(st, e)
    ensures !HandlerKept(Step(st, e), if e.Register? then Some(e.handler) else registered, waiting')
  {
    var i, next := waiting.value, Step(st, e);
    assert st.tasks[i].InitAwait?;
    if e.Begin? {
      assert next.tasks[i].InitAwait? && next.tasks[e.task].InitAwait? && i != e.task;
    } else {
      assert next.tasks[i].InitAwait?;
    }
  }

  /** One event keeps the handler safe, muted while one start waits and in force otherwise, if and
      only if it is neither a registration nor an effective session start while a start waits. */
  lemma StepKeepsHandlerIff(st: State, e: Event, registered: Option<int>, waiting: Option<nat>)
    requires HandlerKept(st, registered, waiting)
    ensures KeepsHandler(Step(st, e), if e.Register? then Some(e.handler) else registered) <==>
            waiting.None? || !TouchesHandler(st, e)
  {
    hide Step, HandlerKept;
    if waiting.None? || !TouchesHandler(st, e) {
      var waiting' := StepKeepsHandler(st, e, registered, waiting);
    } else {
      var next, now := Step(st, e), if e.Register? then Some(e.handler) else registered;
      forall waiting'
        ensures !HandlerKept(next, now, waiting')
      {
        TouchWhileStartingBreaks(st, e, registered, waiting, waiting');
      }
    }
  }

  // The handler is safe at every moment of the run.
  ghost predicate AlwaysKept(stored: string, trace: seq<Event>) {
    forall k | 0 <= k <= |trace| :: KeepsHandler(Run(stored, trace[..k]), Registered(trace[..k]))
  }

  lemma AlwaysKeptStep(stored: string, init: seq<Event>, e: Event)
    ensures AlwaysKept(stored, init + [e]) <==>
            AlwaysKept(stored, init) && KeepsHandler(Run(stored, init + [e]), Registered(init + [e]))
    ensures AlwaysKept(stored, init) ==> KeepsHandler(Run(stored, init), Registered(init))
  {
    hide KeepsHandler, Run, Registered;
    var trace := init + [e];
    assert trace[..|trace|] == trace && init[..|init|] == init;
    assert forall k | 0 <= k <= |init| :: trace[..k] == init[..k];
  }

  lemma OneStartStep(stored: string, init: seq<Event>, e: Event)
    ensures OneStartAtATime(stored, init + [e]) <==>
            OneStartAtATime(stored, init) && (TouchesHandler(Run(stored, init), e) ==> !Starting(Run(stored, init)))
  {
    hide Starting, TouchesHandler, Run;
    var trace := init + [e];
    assert trace[..|init|] == init && trace[|init|] == e;
    assert forall k | 0 <= k < |init| :: trace[..k] == init[..k] && trace[k] == init[k];
  }

  /** So over a whole run the handler is safe at every moment if and only if the page made one
      session start at a time and registered no handler during it. */
  lemma {:induction false} HandlerSafeIff(stored: string, trace: seq<Event>)
    ensures AlwaysKept(stored, trace) <==> OneStartAtATime(stored, trace)
  {
    if trace == [] {
      assert HandlerKept(Initial(stored), None, None);
    } else {
      hide *;
      var init, e := trace[..|trace| - 1], trace[|trace| - 1];
      assert trace == init + [e];
      HandlerSafeIff(stored, init);
      AlwaysKeptStep(stored, init, e);
      OneStartStep(stored, init, e);
      if AlwaysKept(stored, init) {
        LastStepIff(stored, init, e);
      }
    }
  }

  lemma LastStepIff(stored: string, init: seq<Event>, e: Event)
    requires KeepsHandler(Run(stored, init), Registered(init))
    ensures KeepsHandler(Run(stored, init + [e]), Registered(init + [e])) <==>
            (TouchesHandler(Run(stored, init), e) ==> !Starting(Run(stored, init)))
  {
    hide Starting, Step, TouchesHandler;
    var st, registered := Run(stored, init), Registered(init);
    var waiting :| HandlerKept(st, registered, waiting);
    hide HandlerKept, KeepsHandler;
    StartingIsWaiting(st, registered, waiting);
    StepKeepsHandlerIff(st, e, registered, waiting);
    RunStep(stored, init, e);
    assert (init + [e])[..|init|] == init;
  }

  /** A session start mutes the registered handler only while it waits: otherwise the handler
      in force is the last one registered. */
  lemma HandlerSurvivesStart(stored: string, trace: seq<Event>)
    requires OneStartAtATime(stored, trace)
    ensures Run(stored, trace).onUnauthorized == if Starting(Run(stored, trace)) then None else Registered(trace)
  {
    HandlerSafeIff(stored, trace);
    assert trace[..|trace|] == trace;
    assert KeepsHandler(Run(stored, trace[..|trace|]), Registered(trace[..|trace|]));
    hide Run, Registered;
    var st, registered := Run(stored, trace), Registered(trace);
    var waiting :| HandlerKept(st, registered, waiting);
    StartingIsWaiting(st, registered, waiting);
  }

  lemma RunStep(stored: string, trace: seq<Event>, e: Event)
    ensures Run(stored, trace + [e]) == Step(Run(stored, trace), e)
  {
    assert (trace + [e])[..|trace|] == trace;
  }

  // Two session starts that overlap: both begin, the refresh they share fails, both resume.
  const OVERLAP :=
    [Register(7), Spawn(InitStart), Spawn(InitStart), Begin(0), Begin(1), RefreshFails(0), Resume(0), Resume(1)]

  lemma OverlapStep(k: nat)
    requires k < 8
    ensures Run("r", OVERLAP[..k + 1]) == Step(Run("r", OVERLAP[..k]), OVERLAP[k])
    ensures Registered(OVERLAP[..k + 1]) ==
            if OVERLAP[k].Register? then Some(OVERLAP[k].handler) else Registered(OVERLAP[..k])
  {
    hide Step;
    assert OVERLAP[..k + 1] == OVERLAP[..k] + [OVERLAP[k]];
    RunStep("r", OVERLAP[..k], OVERLAP[k]);
  }

  lemma OverlapBegins()
    ensures var st := Run("r", OVERLAP[..4]);
            && st.tasks == [InitAwait(0, Some(7)), InitStart] && st.refreshPromise == Some(0) && st.refreshes == [InFlight]
            && st.onUnauthorized == None && st.refreshToken == "r" && Registered(OVERLAP[..4]) == Some(7)
  {
    assert OVERLAP[..0] == [];
    OverlapStep(0);
    OverlapStep(1);
    OverlapStep(2);
    hide Run, Registered;
    OverlapStep(3);
  }

  /** Two overlapping session starts lose the handler for good: the second saves the muted value. */
  lemma OverlappingStartsLoseHandler()
    ensures Registered(OVERLAP) == Some(7) && Run("r", OVERLAP).onUnauthorized == None
    ensures Run("r", OVERLAP).tasks == [Done(Started(false)), Done(Started(false))]
  {
    OverlapBegins();
    hide Run, Registered;
    OverlapStep(4);
    assert Run("r", OVERLAP[..5]).tasks == [InitAwait(0, Some(7)), InitAwait(0, None)];
    OverlapStep(5);
    OverlapStep(6);
    assert Run("r", OVERLAP[..7]).tasks == [Done(Started(false)), InitAwait(0, None)];
    OverlapStep(7);
    assert OVERLAP[..8] == OVERLAP;
  }

  // A registration while a single session start waits.
  const LATE := [Register(7), Spawn(InitStart), Begin(0), Register(9), RefreshFails(0), Resume(0)]

  lemma LateStep(k: nat)
    requires k < 6
    ensures Run("r", LATE[..k + 1]) == Step(Run("r", LATE[..k]), LATE[k])
    ensures Registered(LATE[..k + 1]) ==
            if LATE[k].Register? then Some(LATE[k].handler) else Registered(LATE[..k])
  {
    hide Step;
    assert LATE[..k + 1] == LATE[..k] + [LATE[k]];
    RunStep("r", LATE[..k], LATE[k]);
  }

  lemma LateBegins()
    ensures var st := Run("r", LATE[..3]);
            && st.tasks == [InitAwait(0, Some(7))] && st.refreshes == [InFlight] && st.onUnauthorized == None
  {
    assert LATE[..0] == [];
    LateStep(0);
    LateStep(1);
    hide Run, Registered;
    LateStep(2);
  }

  /** A handler registered while a session start waits is lost: the start restores the one before. */
  lemma LateRegistrationIsLost()
    ensures Registered(LATE) == Some(9) && Run("r", LATE).onUnauthorized == Some(7) && !Starting(Run("r", LATE))
  {
    LateBegins();
    hide Run, Registered;
    LateStep(3);
    LateStep(4);
    assert Run("r", LATE[..5]).refreshes == [Settled(false)];
    LateStep(5);
    assert LATE[..6] == LATE;
  }

  // ---- the module's variables and functions ----

  class ApiClient {
    var accessToken: string
    var refreshToken: string
    var refreshPromise: Option<nat>
    var onUnauthorized: Option<int>
    var refreshes: seq<Refresh>
    var tasks: seq<Task>
    ghost var log: seq<Action>

    ghost function Current(): State
      reads this
    {
      State(accessToken, refreshToken, refreshPromise, onUnauthorized, refreshes, tasks, log)
    }

    constructor (stored: string)
      ensures Current() == Initial(stored)
    {
      accessToken, refreshToken := "", stored;
      refreshPromise, onUnauthorized := None, None;
      refreshes, tasks, log := [], [], [];
    }

    method DropTokens()
      modifies this
      ensures Current() == AfterClearTokens(old(Current()))
    {
      accessToken, refreshToken := "", "";
    }

    method DoRefresh() returns (ticket: Option<nat>)
      modifies this
      ensures (Current(), ticket) == AfterDoRefresh(old(Current()))
    {
      if refreshToken == "" {
        return None;
      }
      if refreshPromise.Some? {
        return refreshPromise;
      }
      var p := |refreshes|;
      refreshes := refreshes + [InFlight];
      log := log + [RefreshSent(p, refreshToken)];
      refreshPromise := Some(p);
      return refreshPromise;
    }

    method Settle(p: nat, ok: bool)
      requires p < |refreshes|
      modifies this
      ensures Current() == AfterSettle(old(Current()), p, ok)
    {
      refreshes := refreshes[p := Settled(ok)];
      refreshPromise := None;
    }

    method Expire(i: nat)
      requires i < |tasks|
      modifies this
      ensures Current() == AfterExpired(old(Current()), i)
    {
      tasks := tasks[i := Done(Expired)];
      if onUnauthorized.Some? {
        log := log + [Unauthorized(onUnauthorized.value)];
      }
    }

    method BeginTask(i: nat)
      requires i < |tasks|
      modifies this
      ensures Current() == AfterBegin(old(Current()), i)
    {
      if tasks[i].CallStart? {
        log := log + [ResourceSent(i, accessToken)];
        tasks := tasks[i := AwaitFirst];
      } else if tasks[i].InitStart? {
        if refreshToken == "" {
          tasks := tasks[i := Done(Started(false))];
          return;
        }
        var saved := onUnauthorized;
        onUnauthorized := None;
        var ticket := DoRefresh();
        tasks := tasks[i := InitAwait(ticket.value, saved)];
      }
    }

    method OnFirstAnswer(i: nat, status: int)
      requires i < |tasks|
      modifies this
      ensures Current() == AfterFirstAnswer(old(Current()), i, status)
    {
      if status == 401 && refreshToken != "" {
        var ticket := DoRefresh();
        tasks := tasks[i := AwaitRefresh(ticket.value)];
      } else {
        tasks := tasks[i := Done(Answered(status))];
      }
    }

    method ResumeTask(i: nat)
      requires i < |tasks|
      modifies this
      ensures Current() == AfterResume(old(Current()), i)
    {
      if !tasks[i].AwaitRefresh? && !tasks[i].InitAwait? {
        return;
      }
      var p := tasks[i].refresh;
      if p >= |refreshes| || !refreshes[p].Settled? {
        return;
      }
      var ok := refreshes[p].ok;
      log := log + [Resumed(i, p, ok)];
      if tasks[i].InitAwait? {
        onUnauthorized := tasks[i].saved;
        tasks := tasks[i := Done(Started(ok))];
      } else if ok {
        log := log + [ResourceSent(i, accessToken)];
        tasks := tasks[i := AwaitSecond];
      } else {
        Expire(i);
      }
    }

    /** The event loop: one event runs one stretch of code between awaits. */
    method Deliver(e: Event)
      modifies this
      ensures Current() == Step(old(Current()), e)
    {
      match e
      case Spawn(kind) =>
        if kind.CallStart? || kind.InitStart? {
          tasks := tasks + [kind];
        }
      case Begin(i) =>
        if i < |tasks| {
          BeginTask(i);
        }
      case FirstAnswer(i, status) =>
        if i < |tasks| && tasks[i].AwaitFirst? {
          OnFirstAnswer(i, status);
        }
      case SecondAnswer(i, status) =>
        if i < |tasks| && tasks[i].AwaitSecond? {
          tasks := tasks[i := Done(Answered(status))];
        }
      case NetworkFails(i) =>
        if i < |tasks| && (tasks[i].AwaitFirst? || tasks[i].AwaitSecond?) {
          tasks := tasks[i := Done(NetworkError)];
        }
      case Resume(i) =>
        if i < |tasks| {
          ResumeTask(i);
        }
      case RefreshAnswer(p, ok) =>
        if p < |refreshes| && refreshes[p] == InFlight {
          if ok {
            refreshes := refreshes[p := Reading];
          } else {
            DropTokens();
            Settle(p, false);
          }
        }
      case RefreshBody(p, token) =>
        if p < |refreshes| && refreshes[p] == Reading {
          if token.Some? {
            accessToken := token.value;
            Settle(p, true);
          } else {
            DropTokens();
            Settle(p, false);
          }
        }
      case RefreshFails(p) =>
        if p < |refreshes| && refreshes[p] == InFlight {
          DropTokens();
          Settle(p, false);
        }
      case SetTokens(access, refresh) => accessToken, refreshToken := access, refresh;
      case ClearTokens => DropTokens();
      case Register(handler) => onUnauthorized := Some(handler);
    }
  }
}
