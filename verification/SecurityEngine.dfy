/** The threat rules of backend/core/security_engine.py over their per-address windows.

    Times are microseconds. One evaluation and one cleanup are each one atomic step. */
module SecurityEngine {
  import opened Numbers
  import opened SlidingWindow
  import opened Text
  import opened Wrappers

  const MINUTE: nat := 60 * 1000000
  const HOUR: nat := 3600 * 1000000
  const IP_MAX: nat := 1000
  const LOGIN_MAX: nat := 100
  const HOST_MAX: nat := 10000

  const LOGIN_PATHS := ["/login", "/auth", "/signin", "/wp-login"]

  // A parsed request, already defaulted and case-folded; the five flags are what the
  // pattern tables say of it.
  datatype Row = Row(ip: string, host: string, path: string, userAgent: string, verb: string,
                     status: int, durationMs: int,
                     sqli: bool, xss: bool, traversal: bool, scanner: bool, badBot: bool)

  datatype Config = Config(rateLimit: int, slowMs: int)

  datatype Severity = Info | Low | Medium | High | Critical

  datatype Kind =
    | RateLimitTrigger | SqlInjection | XssAttempt | PathTraversal | KnownScanner | BadBot
    | EmptyAgent | PortScan | RepeatedAuthFail | MethodAbuse | SlowRequest

  datatype Finding = Finding(ts: int, kind: Kind, severity: Severity, ip: string, host: string, measure: int)

  datatype Windows = Windows(ipReq: map<string, seq<int>>, ipPaths: map<string, set<string>>,
                             ipLogins: map<string, seq<int>>, hostReq: map<string, seq<int>>)

  const EMPTY := Windows(map[], map[], map[], map[])

  // A lookup that finds the default of a defaultdict for a missing key.
  function Queue(m: map<string, seq<int>>, k: string): seq<int> {
    if k in m then m[k] else []
  }

  function Paths(m: map<string, set<string>>, k: string): set<string> {
    if k in m then m[k] else {}
  }

  predicate IsLoginPost(row: Row) {
    row.verb == "POST" && exists i | 0 <= i < |LOGIN_PATHS| :: Contains(row.path, LOGIN_PATHS[i])
  }

  // ---- one evaluation ----

  function AfterEvaluate(st: Windows, now: int, row: Row): Windows {
    var ipReq := st.ipReq[row.ip := Expire(Push(Queue(st.ipReq, row.ip), now, IP_MAX), now - MINUTE)];
    var hostReq := st.hostReq[row.host := Expire(Push(Queue(st.hostReq, row.host), now, HOST_MAX), now - MINUTE)];
    var ipPaths := if row.status == 404
                   then st.ipPaths[row.ip := Paths(st.ipPaths, row.ip) + {row.path}]
                   else st.ipPaths;
    var ipLogins := if IsLoginPost(row)
                    then st.ipLogins[row.ip := Expire(Push(Queue(st.ipLogins, row.ip), now, LOGIN_MAX), now - HOUR)]
                    else st.ipLogins;
    Windows(ipReq, ipPaths, ipLogins, hostReq)
  }

  function When(cond: bool, f: Finding): seq<Finding> {
    if cond then [f] else []
  }

  function MakeEvent(now: int, row: Row, kind: Kind, severity: Severity, measure: int): Finding {
    Finding(now, kind, severity, row.ip, row.host, measure)
  }

  // Rules 2 to 6.
  function PatternRules(now: int, row: Row): seq<Finding> {
    When(row.sqli, MakeEvent(now, row, SqlInjection, High, 0)) +
    When(row.xss, MakeEvent(now, row, XssAttempt, Medium, 0)) +
    When(row.traversal, MakeEvent(now, row, PathTraversal, High, 0)) +
    When(row.scanner, MakeEvent(now, row, KnownScanner, Critical, 0)) +
    When(row.badBot && !row.scanner, MakeEvent(now, row, BadBot, Low, 0))
  }

  // Rules 1 to 7.
  function EarlyRules(now: int, row: Row, cfg: Config, requests: nat): seq<Finding> {
    When(requests >= cfg.rateLimit, MakeEvent(now, row, RateLimitTrigger, High, requests)) +
    PatternRules(now, row) +
    When(row.userAgent == "" && requests > 50, MakeEvent(now, row, EmptyAgent, Medium, requests))
  }

  // Rule 8.
  function PathRule(now: int, row: Row, paths: nat): seq<Finding> {
    When(row.status == 404 && paths > 50, MakeEvent(now, row, PortScan, High, paths))
  }

  // Rules 9 to 11.
  function LateRules(now: int, row: Row, cfg: Config, requests: nat, logins: nat): seq<Finding> {
    When(IsLoginPost(row) && logins > 10, MakeEvent(now, row, RepeatedAuthFail, High, logins)) +
    When(row.verb == "TRACE" || row.verb == "CONNECT" || (row.verb == "OPTIONS" && requests > 20), MakeEvent(now, row, MethodAbuse, Medium, 0)) +
    When(row.durationMs > cfg.slowMs, MakeEvent(now, row, SlowRequest, Info, row.durationMs))
  }

  /** The rules in source order, given how many requests, distinct 404 paths and login posts
      the address is taken to have made. */
  function Rules(now: int, row: Row, cfg: Config, requests: nat, paths: nat, logins: nat): seq<Finding> {
    EarlyRules(now, row, cfg, requests) + PathRule(now, row, paths) + LateRules(now, row, cfg, requests, logins)
  }

  // What the engine reports, from the lengths of its own windows after the evaluation.
  function Report(st: Windows, now: int, row: Row, cfg: Config): seq<Finding> {
    Rules(now, row, cfg, |Queue(st.ipReq, row.ip)|, |Paths(st.ipPaths, row.ip)|, |Queue(st.ipLogins, row.ip)|)
  }

  // ---- the cleaner ----

  predicate IsStale(w: seq<int>, now: int) {
    w == [] || w[|w| - 1] < now - HOUR
  }

  function Stale(st: Windows, now: int): set<string> {
    set ip | ip in st.ipReq && IsStale(st.ipReq[ip], now)
  }

  function AfterCleanup(st: Windows, now: int): Windows {
    var stale := Stale(st, now);
    st.(ipReq := st.ipReq - stale, ipPaths := st.ipPaths - stale, ipLogins := st.ipLogins - stale)
  }

  // ---- runs ----

  datatype Input = Evaluate(now: int, row: Row, cfg: Config) | Cleanup(now: int)

  function Step(st: Windows, e: Input): Windows {
    match e
    case Evaluate(now, row, _) => AfterEvaluate(st, now, row)
    case Cleanup(now) => AfterCleanup(st, now)
  }

  function Run(h: seq<Input>): Windows {
    if h == [] then EMPTY else Step(Run(h[..|h| - 1]), h[|h| - 1])
  }

  predicate Monotone(h: seq<Input>) {
    forall i, j | 0 <= i < j < |h| :: h[i].now <= h[j].now
  }

  // The findings of each evaluation of the run, in order.
  function Reports(h: seq<Input>): seq<seq<Finding>> {
    if h == [] then []
    else
      Reports(h[..|h| - 1]) +
      match h[|h| - 1]
      case Evaluate(now, row, cfg) => [Report(Run(h), now, row, cfg)]
      case Cleanup(_) => []
  }

  // ---- the full history, which never forgets ----

  function Erase(h: seq<Input>): seq<Input> {
    if h == [] then [] else Erase(h[..|h| - 1]) + (if h[|h| - 1].Evaluate? then [h[|h| - 1]] else [])
  }

  function Requests(h: seq<Input>, ip: string): seq<int> {
    if h == [] then []
    else
      var e := h[|h| - 1];
      Requests(h[..|h| - 1], ip) + (if e.Evaluate? && e.row.ip == ip then [e.now] else [])
  }

  function HostRequests(h: seq<Input>, host: string): seq<int> {
    if h == [] then []
    else
      var e := h[|h| - 1];
      HostRequests(h[..|h| - 1], host) + (if e.Evaluate? && e.row.host == host then [e.now] else [])
  }

  function Logins(h: seq<Input>, ip: string): seq<int> {
    if h == [] then []
    else
      var e := h[|h| - 1];
      Logins(h[..|h| - 1], ip) + (if e.Evaluate? && e.row.ip == ip && IsLoginPost(e.row) then [e.now] else [])
  }

  // The number of requests of the last 60 seconds, and of login posts of the last hour.
  function RecentRequests(h: seq<Input>, ip: string, now: int): nat {
    |Since(Requests(h, ip), now - MINUTE)|
  }

  function RecentLogins(h: seq<Input>, ip: string, now: int): nat {
    |Since(Logins(h, ip), now - HOUR)|
  }

  // ---- the refinement ----

  ghost predicate RefinesIp(st: Windows, h: seq<Input>, clock: int, ip: string) {
    && Window(Queue(st.ipReq, ip), Requests(h, ip), clock, MINUTE, IP_MAX)
    && Window(Queue(st.ipLogins, ip), Logins(h, ip), clock, HOUR, LOGIN_MAX)
    // no login post is newer than the newest request of its address
    && (ip in st.ipReq ==>
          st.ipReq[ip] != [] && Bounded(Queue(st.ipLogins, ip), st.ipReq[ip][|st.ipReq[ip]| - 1]))
    && (ip in st.ipLogins ==> ip in st.ipReq)
  }

  ghost predicate RefinesHost(st: Windows, h: seq<Input>, clock: int, host: string) {
    Window(Queue(st.hostReq, host), HostRequests(h, host), clock, 60000000, 10000)
  }

  ghost predicate Refines(st: Windows, h: seq<Input>, clock: int) {
    (forall ip :: RefinesIp(st, h, clock, ip)) && (forall host :: RefinesHost(st, h, clock, host))
  }

  lemma HistoryStep(h: seq<Input>, e: Input, ip: string, host: string)
    ensures Run(h + [e]) == Step(Run(h), e)
    ensures Requests(h + [e], ip) == if e.Evaluate? && e.row.ip == ip then Requests(h, ip) + [e.now] else Requests(h, ip)
    ensures Logins(h + [e], ip) ==
            if e.Evaluate? && e.row.ip == ip && IsLoginPost(e.row) then Logins(h, ip) + [e.now] else Logins(h, ip)
    ensures HostRequests(h + [e], host) ==
            if e.Evaluate? && e.row.host == host then HostRequests(h, host) + [e.now] else HostRequests(h, host)
  {
    assert (h + [e])[..|h|] == h;
  }

  lemma EvaluateRefinesIp(st: Windows, h: seq<Input>, clock: int, e: Input, ip: string)
    requires RefinesIp(st, h, clock, ip) && e.Evaluate? && clock <= e.now
    ensures RefinesIp(AfterEvaluate(st, e.now, e.row), h + [e], e.now, ip)
    ensures var st' := AfterEvaluate(st, e.now, e.row);
            ip == e.row.ip ==>
            && Queue(st'.ipReq, ip) == LastN(Since(Requests(h + [e], ip), e.now - MINUTE), IP_MAX)
            && (IsLoginPost(e.row) ==>
                  Queue(st'.ipLogins, ip) == LastN(Since(Logins(h + [e], ip), e.now - HOUR), LOGIN_MAX))
  {
    ReqRefinesIp(st, h, clock, e, ip);
    LoginRefinesIp(st, h, clock, e, ip);
    LoginsStayBehind(st, e.now, e.row, ip);
    WindowIsBounded(Queue(AfterEvaluate(st, e.now, e.row).ipLogins, ip), Logins(h + [e], ip), e.now, HOUR, LOGIN_MAX);
    hide AfterEvaluate, Window, Bounded, Since, LastN, IsLoginPost, Requests, Logins, Queue;
  }

  lemma WindowIsBounded(w: seq<int>, h: seq<int>, clock: int, span: nat, max: nat)
    requires Window(w, h, clock, span, max)
    ensures Bounded(w, clock)
  {
  }

  lemma LoginsStayBehind(st: Windows, now: int, row: Row, ip: string)
    requires ip in st.ipLogins ==> ip in st.ipReq
    ensures var st' := AfterEvaluate(st, now, row);
            && (ip in st'.ipLogins ==> ip in st'.ipReq)
            && (ip in st'.ipReq ==> Queue(st'.ipReq, ip) == st'.ipReq[ip])
            && (ip != row.ip ==>
                  && (ip in st'.ipReq <==> ip in st.ipReq) && (ip in st.ipReq ==> st'.ipReq[ip] == st.ipReq[ip])
                  && Queue(st'.ipLogins, ip) == Queue(st.ipLogins, ip))
  {
    hide Expire, Push, IsLoginPost;
  }

  lemma ReqRefinesIp(st: Windows, h: seq<Input>, clock: int, e: Input, ip: string)
    requires RefinesIp(st, h, clock, ip) && e.Evaluate? && clock <= e.now
    ensures var w := Queue(AfterEvaluate(st, e.now, e.row).ipReq, ip);
            && Window(w, Requests(h + [e], ip), e.now, MINUTE, IP_MAX)
            && (ip == e.row.ip ==>
                  w == LastN(Since(Requests(h + [e], ip), e.now - MINUTE), IP_MAX) && w != [] && w[|w| - 1] == e.now)
  {
    hide Window, Since, LastN, Expire, Push, IsLoginPost, Requests, Logins;
    HistoryStep(h, e, ip, "");
    if ip == e.row.ip {
      WindowArrival(Queue(st.ipReq, ip), Requests(h, ip), clock, MINUTE, IP_MAX, e.now);
    } else {
      WindowLater(Queue(st.ipReq, ip), Requests(h, ip), clock, e.now, MINUTE, IP_MAX);
    }
  }

  lemma LoginRefinesIp(st: Windows, h: seq<Input>, clock: int, e: Input, ip: string)
    requires RefinesIp(st, h, clock, ip) && e.Evaluate? && clock <= e.now
    ensures var w := Queue(AfterEvaluate(st, e.now, e.row).ipLogins, ip);
            && Window(w, Logins(h + [e], ip), e.now, HOUR, LOGIN_MAX)
            && (ip == e.row.ip && IsLoginPost(e.row) ==>
                  w == LastN(Since(Logins(h + [e], ip), e.now - HOUR), LOGIN_MAX))
  {
    hide Window, Since, LastN, Expire, Push, IsLoginPost, Requests, Logins;
    HistoryStep(h, e, ip, "");
    if ip == e.row.ip && IsLoginPost(e.row) {
      WindowArrival(Queue(st.ipLogins, ip), Logins(h, ip), clock, HOUR, LOGIN_MAX, e.now);
    } else {
      WindowLater(Queue(st.ipLogins, ip), Logins(h, ip), clock, e.now, HOUR, LOGIN_MAX);
    }
  }

  lemma CleanupRefinesIp(st: Windows, h: seq<Input>, clock: int, now: int, ip: string)
    requires RefinesIp(st, h, clock, ip) && clock <= now
    ensures RefinesIp(AfterCleanup(st, now), h + [Cleanup(now)], now, ip)
  {
    hide Since, LastN, Tracks, Requests, Logins, IsLoginPost;
    HistoryStep(h, Cleanup(now), ip, "");
    var w, logins := Queue(st.ipReq, ip), Queue(st.ipLogins, ip);
    if ip in Stale(st, now) {
      WindowAscends(w, Requests(h, ip), clock, MINUTE, IP_MAX);
      WindowDrop(w, Requests(h, ip), clock, now, MINUTE, IP_MAX);
      WindowDrop(logins, Logins(h, ip), clock, now, HOUR, LOGIN_MAX);
    } else {
      WindowLater(w, Requests(h, ip), clock, now, MINUTE, IP_MAX);
      WindowLater(logins, Logins(h, ip), clock, now, HOUR, LOGIN_MAX);
    }
  }

  lemma StepRefinesHost(st: Windows, h: seq<Input>, clock: int, e: Input, host: string)
    requires RefinesHost(st, h, clock, host) && clock <= e.now
    ensures RefinesHost(Step(st, e), h + [e], e.now, host)
  {
    hide Window, Since, LastN, Expire, Push, IsLoginPost, HostRequests, Requests, Logins, Run, IsStale;
    HistoryStep(h, e, "", host);
    if e.Evaluate? && e.row.host == host {
      WindowArrival(Queue(st.hostReq, host), HostRequests(h, host), clock, MINUTE, HOST_MAX, e.now);
    } else {
      WindowLater(Queue(st.hostReq, host), HostRequests(h, host), clock, e.now, MINUTE, HOST_MAX);
    }
  }

  lemma StepKeepsRefines(st: Windows, h: seq<Input>, clock: int, e: Input)
    requires Refines(st, h, clock) && clock <= e.now
    ensures Refines(Step(st, e), h + [e], e.now)
  {
    forall ip
      ensures RefinesIp(Step(st, e), h + [e], e.now, ip)
    {
      match e
      case Evaluate(_, _, _) => EvaluateRefinesIp(st, h, clock, e, ip);
      case Cleanup(now) => CleanupRefinesIp(st, h, clock, now, ip);
    }
    forall host
      ensures RefinesHost(Step(st, e), h + [e], e.now, host)
    {
      StepRefinesHost(st, h, clock, e, host);
    }
  }

  lemma {:induction false} RunRefines(h: seq<Input>, clock: int)
    requires Monotone(h) && forall i | 0 <= i < |h| :: h[i].now <= clock
    ensures Refines(Run(h), h, clock)
  {
    if h == [] {
    } else {
      var init, e := h[..|h| - 1], h[|h| - 1];
      RunRefines(init, e.now);
      assert h == init + [e];
      StepKeepsRefines(Run(init), init, e.now, e);
      assert Refines(Run(h), h, e.now);
      forall ip
        ensures RefinesIp(Run(h), h, clock, ip)
      {
        assert RefinesIp(Run(h), h, e.now, ip);
        WindowLater(Queue(Run(h).ipReq, ip), Requests(h, ip), e.now, clock, MINUTE, IP_MAX);
        WindowLater(Queue(Run(h).ipLogins, ip), Logins(h, ip), e.now, clock, HOUR, LOGIN_MAX);
      }
      forall host
        ensures RefinesHost(Run(h), h, clock, host)
      {
        assert RefinesHost(Run(h), h, e.now, host);
        WindowLater(Queue(Run(h).hostReq, host), HostRequests(h, host), e.now, clock, MINUTE, HOST_MAX);
      }
    }
  }

  /** After each evaluation the address's queue is the last min(1000, k) request times, k being
      its requests of the past 60 seconds over the full history; likewise its login posts of
      the past hour, capped at 100, whenever the evaluation was of a login post. */
  lemma WindowsAreRecentHistory(h: seq<Input>)
    requires Monotone(h) && h != [] && h[|h| - 1].Evaluate?
    ensures var e := h[|h| - 1];
            && Queue(Run(h).ipReq, e.row.ip) == LastN(Since(Requests(h, e.row.ip), e.now - MINUTE), IP_MAX)
            && (IsLoginPost(e.row) ==>
                  Queue(Run(h).ipLogins, e.row.ip) == LastN(Since(Logins(h, e.row.ip), e.now - HOUR), LOGIN_MAX))
  {
    hide *;
    var init, e := h[..|h| - 1], h[|h| - 1];
    BeforeLast(h, e.row.ip);
    LastEvaluation(init, e);
  }

  lemma BeforeLast(h: seq<Input>, ip: string)
    requires Monotone(h) && h != []
    ensures var init, e := h[..|h| - 1], h[|h| - 1];
            h == init + [e] && RefinesIp(Run(init), init, e.now, ip)
  {
    hide RefinesIp, RefinesHost, Run;
    RunRefines(h[..|h| - 1], h[|h| - 1].now);
  }

  lemma LastEvaluation(h: seq<Input>, e: Input)
    requires e.Evaluate? && RefinesIp(Run(h), h, e.now, e.row.ip)
    ensures && Queue(Run(h + [e]).ipReq, e.row.ip) == LastN(Since(Requests(h + [e], e.row.ip), e.now - MINUTE), IP_MAX)
            && (IsLoginPost(e.row) ==>
                  Queue(Run(h + [e]).ipLogins, e.row.ip) == LastN(Since(Logins(h + [e], e.row.ip), e.now - HOUR), LOGIN_MAX))
  {
    hide RefinesIp, AfterEvaluate, Since, Requests, Logins, LastN, IsLoginPost;
    HistoryStep(h, e, e.row.ip, "");
    EvaluateRefinesIp(Run(h), h, e.now, e, e.row.ip);
  }

  // ---- the reports, told from the history alone ----

  predicate Fires(report: seq<Finding>, kind: Kind) {
    exists f | f in report :: f.kind == kind
  }

  // Every finding but those of the 404-path rule.
  function Windowed(report: seq<Finding>): seq<Finding> {
    if report == [] then []
    else (if report[0].kind == PortScan then [] else [report[0]]) + Windowed(report[1..])
  }

  // The findings the window rules owe to a request, from counts over the full history.
  function Owed(h: seq<Input>): seq<Finding>
    requires h != [] && h[|h| - 1].Evaluate?
  {
    var e := h[|h| - 1];
    Rules(e.now, e.row, e.cfg,
          Min(IP_MAX, RecentRequests(h, e.row.ip, e.now)), 0, Min(LOGIN_MAX, RecentLogins(h, e.row.ip, e.now)))
  }

  lemma {:induction false} WindowedAppend(a: seq<Finding>, b: seq<Finding>)
    ensures Windowed(a + b) == Windowed(a) + Windowed(b)
  {
    if a == [] {
      assert a + b == b;
    } else {
      hide *;
      WindowedAppend(a[1..], b);
      HeadOfConcat(a, b);
      WindowedCons(a[0], a[1..]);
      WindowedCons(a[0], a[1..] + b);
      Associative(When(a[0].kind != PortScan, a[0]), Windowed(a[1..]), Windowed(b));
    }
  }

  lemma WindowedCons(f: Finding, rest: seq<Finding>)
    ensures Windowed([f] + rest) == When(f.kind != PortScan, f) + Windowed(rest)
  {
    assert ([f] + rest)[1..] == rest;
  }

  lemma RulesSplit(now: int, row: Row, cfg: Config, requests: nat, paths: nat, logins: nat)
    ensures Windowed(Rules(now, row, cfg, requests, paths, logins)) ==
            Windowed(EarlyRules(now, row, cfg, requests)) + Windowed(LateRules(now, row, cfg, requests, logins))
  {
    hide EarlyRules, LateRules;
    var head, middle, tail :=
      EarlyRules(now, row, cfg, requests), PathRule(now, row, paths), LateRules(now, row, cfg, requests, logins);
    WindowedAppend(head + middle, tail);
    WindowedAppend(head, middle);
    assert Windowed(middle) == [];
  }

  // Which paths an address asked for never matters to the windowed rules, and how often it
  // posted to a login path matters only on such a post.
  lemma RulesAgree(now: int, row: Row, cfg: Config, requests: nat, paths: nat, paths': nat, logins: nat, logins': nat)
    requires IsLoginPost(row) ==> logins == logins'
    ensures Windowed(Rules(now, row, cfg, requests, paths, logins)) ==
            Windowed(Rules(now, row, cfg, requests, paths', logins'))
  {
    RulesSplit(now, row, cfg, requests, paths, logins);
    RulesSplit(now, row, cfg, requests, paths', logins');
  }

  lemma ReportIsOwed(h: seq<Input>)
    requires Monotone(h) && h != [] && h[|h| - 1].Evaluate?
    ensures var e := h[|h| - 1];
            Windowed(Report(Run(h), e.now, e.row, e.cfg)) == Windowed(Owed(h))
  {
    hide Since, Requests, Logins, Run, Rules, IsLoginPost, Windowed, Monotone;
    var e := h[|h| - 1];
    WindowsAreRecentHistory(h);
    RulesAgree(e.now, e.row, e.cfg, Min(IP_MAX, RecentRequests(h, e.row.ip, e.now)),
               |Paths(Run(h).ipPaths, e.row.ip)|, 0,
               |Queue(Run(h).ipLogins, e.row.ip)|, Min(LOGIN_MAX, RecentLogins(h, e.row.ip, e.now)));
  }

  // ---- the cleaner is invisible ----

  lemma {:induction false} EraseKeepsHistory(h: seq<Input>, ip: string)
    ensures Requests(Erase(h), ip) == Requests(h, ip) && Logins(Erase(h), ip) == Logins(h, ip)
  {
    if h == [] {
    } else {
      var init, e := h[..|h| - 1], h[|h| - 1];
      EraseKeepsHistory(init, ip);
      assert h == init + [e];
      HistoryStep(init, e, ip, "");
      if e.Evaluate? {
        HistoryStep(Erase(init), e, ip, "");
      } else {
        assert Erase(h) == Erase(init);
      }
    }
  }

  lemma {:induction false} EraseMonotone(h: seq<Input>, clock: int)
    requires Monotone(h) && forall i | 0 <= i < |h| :: h[i].now <= clock
    ensures Monotone(Erase(h)) && forall i | 0 <= i < |Erase(h)| :: Erase(h)[i].now <= clock
  {
    if h == [] {
    } else {
      EraseMonotone(h[..|h| - 1], h[|h| - 1].now);
    }
  }

  // Drops the findings of the 404-path rule from every report.
  function AllWindowed(reports: seq<seq<Finding>>): seq<seq<Finding>> {
    seq(|reports|, i requires 0 <= i < |reports| => Windowed(reports[i]))
  }

  lemma LastReportErased(h: seq<Input>)
    requires Monotone(h) && h != [] && h[|h| - 1].Evaluate?
    ensures var e := h[|h| - 1];
            Windowed(Report(Run(h), e.now, e.row, e.cfg)) == Windowed(Report(Run(Erase(h)), e.now, e.row, e.cfg))
  {
    hide Windowed, Report, Run, Monotone, Owed;
    var e := h[|h| - 1];
    assert Erase(h)[|Erase(h)| - 1] == e;
    EraseMonotone(h, e.now) by {
      MonotoneLast(h);
    }
    ReportIsOwed(h);
    ReportIsOwed(Erase(h));
    OwedErased(h);
  }

  lemma OwedErased(h: seq<Input>)
    requires h != [] && h[|h| - 1].Evaluate?
    ensures Erase(h) != [] && Erase(h)[|Erase(h)| - 1] == h[|h| - 1] && Owed(Erase(h)) == Owed(h)
  {
    EraseKeepsHistory(h, h[|h| - 1].row.ip);
    hide Rules, Since, Requests, Logins;
  }

  lemma MonotoneLast(h: seq<Input>)
    requires Monotone(h) && h != []
    ensures forall i | 0 <= i < |h| :: h[i].now <= h[|h| - 1].now
  {
  }

  /** Removing every cleanup from a run changes no report but the 404-path rule's. */
  lemma {:induction false} CleanupInvisible(h: seq<Input>)
    requires Monotone(h)
    ensures AllWindowed(Reports(h)) == AllWindowed(Reports(Erase(h)))
  {
    hide Report, Run, Windowed, AllWindowed, Reports;
    if h == [] {
    } else {
      var init, e := h[..|h| - 1], h[|h| - 1];
      CleanupInvisible(init);
      assert h == init + [e];
      ReportsStep(init, e);
      if e.Evaluate? {
        LastReportErased(h);
        assert Erase(h) == Erase(init) + [e];
        ReportsStep(Erase(init), e);
      } else {
        assert Erase(h) == Erase(init);
      }
    }
  }

  lemma ReportsStep(h: seq<Input>, e: Input)
    ensures AllWindowed(Reports(h + [e])) == AllWindowed(Reports(h)) +
            match e
            case Evaluate(now, row, cfg) => [Windowed(Report(Run(h + [e]), now, row, cfg))]
            case Cleanup(_) => []
  {
    hide Report, Windowed, Run;
    assert (h + [e])[..|h|] == h;
    if e.Cleanup? {
      assert Reports(h + [e]) == Reports(h);
    }
  }

  /** Two runs of the same requests agree on every windowed finding, wherever and however
      often the cleaner ran in each. */
  lemma CleanupPlacementIrrelevant(h: seq<Input>, h': seq<Input>)
    requires Monotone(h) && Monotone(h') && Erase(h) == Erase(h')
    ensures AllWindowed(Reports(h)) == AllWindowed(Reports(h'))
  {
    CleanupInvisible(h);
    CleanupInvisible(h');
  }

  // ---- what the capped windows can tell ----

  /** The rate-limit event agrees with the true count of the past minute if and only if the
      threshold is at most 1000 or the true count is below it: above 1000 it can never fire. */
  lemma RateLimitExactIff(h: seq<Input>)
    requires Monotone(h) && h != [] && h[|h| - 1].Evaluate?
    ensures var e := h[|h| - 1];
            var k := RecentRequests(h, e.row.ip, e.now);
            var fires := Fires(Report(Run(h), e.now, e.row, e.cfg), RateLimitTrigger);
            (fires <==> k >= e.cfg.rateLimit) <==> (e.cfg.rateLimit <= 1000 || k < e.cfg.rateLimit)
  {
    hide Since, Requests, Logins, Run, Rules, IsLoginPost, Fires, Monotone;
    var e := h[|h| - 1];
    WindowsAreRecentHistory(h);
    CountingRulesFire(e.now, e.row, e.cfg, |Queue(Run(h).ipReq, e.row.ip)|, |Paths(Run(h).ipPaths, e.row.ip)|,
                      |Queue(Run(h).ipLogins, e.row.ip)|);
  }

  // Which part of the rules an event kind comes from.
  lemma FiresWhere(now: int, row: Row, cfg: Config, requests: nat, paths: nat, logins: nat, kind: Kind)
    ensures Fires(Rules(now, row, cfg, requests, paths, logins), kind) <==>
            || Fires(EarlyRules(now, row, cfg, requests), kind)
            || Fires(PathRule(now, row, paths), kind)
            || Fires(LateRules(now, row, cfg, requests, logins), kind)
  {
    hide EarlyRules, PathRule, LateRules;
  }

  lemma PatternKinds(now: int, row: Row)
    ensures forall f | f in PatternRules(now, row) :: f.kind !in {RateLimitTrigger, PortScan, RepeatedAuthFail, EmptyAgent, MethodAbuse}
  {
  }

  lemma EarlyFires(now: int, row: Row, cfg: Config, requests: nat)
    ensures Fires(EarlyRules(now, row, cfg, requests), RateLimitTrigger) <==> requests >= cfg.rateLimit
    ensures !Fires(EarlyRules(now, row, cfg, requests), PortScan)
    ensures !Fires(EarlyRules(now, row, cfg, requests), RepeatedAuthFail)
  {
    PatternKinds(now, row);
    hide PatternRules;
    if requests >= cfg.rateLimit {
      assert MakeEvent(now, row, RateLimitTrigger, High, requests) in EarlyRules(now, row, cfg, requests);
    }
  }

  lemma LateFires(now: int, row: Row, cfg: Config, requests: nat, logins: nat)
    ensures Fires(LateRules(now, row, cfg, requests, logins), RepeatedAuthFail) <==> IsLoginPost(row) && logins > 10
    ensures !Fires(LateRules(now, row, cfg, requests, logins), PortScan)
    ensures !Fires(LateRules(now, row, cfg, requests, logins), RateLimitTrigger)
  {
    hide IsLoginPost;
    if IsLoginPost(row) && logins > 10 {
      assert MakeEvent(now, row, RepeatedAuthFail, High, logins) in LateRules(now, row, cfg, requests, logins);
    }
  }

  lemma PathFires(now: int, row: Row, paths: nat)
    ensures forall kind :: Fires(PathRule(now, row, paths), kind) <==> kind == PortScan && row.status == 404 && paths > 50
  {
    if row.status == 404 && paths > 50 {
      assert MakeEvent(now, row, PortScan, High, paths) in PathRule(now, row, paths);
    }
  }

  /** Which of the counting rules fire, given the counts. */
  lemma CountingRulesFire(now: int, row: Row, cfg: Config, requests: nat, paths: nat, logins: nat)
    ensures var rules := Rules(now, row, cfg, requests, paths, logins);
            && (Fires(rules, RateLimitTrigger) <==> requests >= cfg.rateLimit)
            && (Fires(rules, PortScan) <==> row.status == 404 && paths > 50)
            && (Fires(rules, RepeatedAuthFail) <==> IsLoginPost(row) && logins > 10)
  {
    hide Fires, Rules, IsLoginPost, EarlyRules, PathRule, LateRules;
    FiresWhere(now, row, cfg, requests, paths, logins, RateLimitTrigger);
    FiresWhere(now, row, cfg, requests, paths, logins, PortScan);
    FiresWhere(now, row, cfg, requests, paths, logins, RepeatedAuthFail);
    EarlyFires(now, row, cfg, requests);
    PathFires(now, row, paths);
    LateFires(now, row, cfg, requests, logins);
  }

  lemma AgentFires(now: int, row: Row, cfg: Config, requests: nat)
    ensures Fires(EarlyRules(now, row, cfg, requests), EmptyAgent) <==> row.userAgent == "" && requests > 50
    ensures !Fires(EarlyRules(now, row, cfg, requests), MethodAbuse)
  {
    PatternKinds(now, row);
    hide PatternRules;
    if row.userAgent == "" && requests > 50 {
      assert MakeEvent(now, row, EmptyAgent, Medium, requests) in EarlyRules(now, row, cfg, requests);
    }
  }

  predicate AbusesMethod(row: Row, requests: nat) {
    row.verb == "TRACE" || row.verb == "CONNECT" || (row.verb == "OPTIONS" && requests > 20)
  }

  lemma MethodFires(now: int, row: Row, cfg: Config, requests: nat, logins: nat)
    ensures Fires(LateRules(now, row, cfg, requests, logins), MethodAbuse) <==> AbusesMethod(row, requests)
    ensures !Fires(LateRules(now, row, cfg, requests, logins), EmptyAgent)
  {
    hide IsLoginPost;
    if AbusesMethod(row, requests) {
      assert MakeEvent(now, row, MethodAbuse, Medium, 0) in LateRules(now, row, cfg, requests, logins);
    }
  }

  lemma VolumeRulesFire(now: int, row: Row, cfg: Config, requests: nat, paths: nat, logins: nat)
    ensures var rules := Rules(now, row, cfg, requests, paths, logins);
            && (Fires(rules, EmptyAgent) <==> row.userAgent == "" && requests > 50)
            && (Fires(rules, MethodAbuse) <==> AbusesMethod(row, requests))
  {
    hide Fires, Rules, IsLoginPost, EarlyRules, PathRule, LateRules;
    FiresWhere(now, row, cfg, requests, paths, logins, EmptyAgent);
    FiresWhere(now, row, cfg, requests, paths, logins, MethodAbuse);
    AgentFires(now, row, cfg, requests);
    PathFires(now, row, paths);
    MethodFires(now, row, cfg, requests, logins);
  }

  /** The two rules that look at the request volume without a configured threshold see the true
      count of the past minute: for them the cap of 1000 never shows. */
  lemma VolumeRulesExact(h: seq<Input>)
    requires Monotone(h) && h != [] && h[|h| - 1].Evaluate?
    ensures var e := h[|h| - 1];
            var k := RecentRequests(h, e.row.ip, e.now);
            var report := Report(Run(h), e.now, e.row, e.cfg);
            && (Fires(report, EmptyAgent) <==> e.row.userAgent == "" && k > 50)
            && (Fires(report, MethodAbuse) <==> AbusesMethod(e.row, k))
  {
    hide Since, Requests, Logins, Run, Rules, IsLoginPost, Fires, Monotone;
    var e := h[|h| - 1];
    WindowsAreRecentHistory(h);
    VolumeRulesFire(e.now, e.row, e.cfg, |Queue(Run(h).ipReq, e.row.ip)|, |Paths(Run(h).ipPaths, e.row.ip)|,
                    |Queue(Run(h).ipLogins, e.row.ip)|);
  }

  /** The login event fires on a login post if and only if the address made more than ten
      in the past hour; the cap of 100 never shows. */
  lemma LoginRuleExact(h: seq<Input>)
    requires Monotone(h) && h != [] && h[|h| - 1].Evaluate?
    ensures var e := h[|h| - 1];
            Fires(Report(Run(h), e.now, e.row, e.cfg), RepeatedAuthFail) <==>
            IsLoginPost(e.row) && RecentLogins(h, e.row.ip, e.now) > 10
  {
    hide Since, Requests, Logins, Run, Rules, IsLoginPost, Fires, Monotone;
    var e := h[|h| - 1];
    WindowsAreRecentHistory(h);
    CountingRulesFire(e.now, e.row, e.cfg, |Queue(Run(h).ipReq, e.row.ip)|, |Paths(Run(h).ipPaths, e.row.ip)|,
                      |Queue(Run(h).ipLogins, e.row.ip)|);
  }

  // ---- the whole report ----

  function LastReport(h: seq<Input>): seq<Finding>
    requires h != [] && h[|h| - 1].Evaluate?
  {
    Report(Run(h), h[|h| - 1].now, h[|h| - 1].row, h[|h| - 1].cfg)
  }

  // What each kind of event needs, of the request and of three counts.
  predicate Due(kind: Kind, row: Row, cfg: Config, requests: nat, paths: nat, logins: nat) {
    match kind
    case RateLimitTrigger => requests >= cfg.rateLimit
    case SqlInjection => row.sqli
    case XssAttempt => row.xss
    case PathTraversal => row.traversal
    case KnownScanner => row.scanner
    case BadBot => row.badBot && !row.scanner
    case EmptyAgent => row.userAgent == "" && requests > 50
    case PortScan => row.status == 404 && paths > 50
    case RepeatedAuthFail =>
      row.verb == "POST" && logins > 10 &&
      (Contains(row.path, "/login") || Contains(row.path, "/auth") || Contains(row.path, "/signin") || Contains(row.path, "/wp-login"))
    case MethodAbuse => row.verb == "TRACE" || row.verb == "CONNECT" || (row.verb == "OPTIONS" && requests > 20)
    case SlowRequest => row.durationMs > cfg.slowMs
  }

  function SeverityOf(kind: Kind): Severity {
    match kind
    case KnownScanner => Critical
    case RateLimitTrigger => High
    case SqlInjection => High
    case PathTraversal => High
    case PortScan => High
    case RepeatedAuthFail => High
    case XssAttempt => Medium
    case EmptyAgent => Medium
    case MethodAbuse => Medium
    case BadBot => Low
    case SlowRequest => Info
  }

  // The count or duration the event carries.
  function MeasureOf(kind: Kind, row: Row, requests: nat, paths: nat, logins: nat): int {
    match kind
    case RateLimitTrigger => requests
    case EmptyAgent => requests
    case PortScan => paths
    case RepeatedAuthFail => logins
    case SlowRequest => row.durationMs
    case _ => 0
  }

  // The number of the rule in the source.
  function RuleOf(kind: Kind): nat {
    match kind
    case RateLimitTrigger => 1
    case SqlInjection => 2
    case XssAttempt => 3
    case PathTraversal => 4
    case KnownScanner => 5
    case BadBot => 6
    case EmptyAgent => 7
    case PortScan => 8
    case RepeatedAuthFail => 9
    case MethodAbuse => 10
    case SlowRequest => 11
  }

  // The findings are exactly those due, each once and in the order of the rules.
  ghost predicate Tells(report: seq<Finding>, now: int, row: Row, cfg: Config, requests: nat, paths: nat, logins: nat) {
    && (forall f | f in report ::
          && Due(f.kind, row, cfg, requests, paths, logins)
          && f == Finding(now, f.kind, SeverityOf(f.kind), row.ip, row.host, MeasureOf(f.kind, row, requests, paths, logins)))
    && (forall kind | Due(kind, row, cfg, requests, paths, logins) :: exists f :: f in report && f.kind == kind)
    && (forall i, j | 0 <= i < j < |report| :: RuleOf(report[i].kind) < RuleOf(report[j].kind))
  }

  // The same of the rules from `low` on and below `high`.
  ghost predicate TellsBetween(report: seq<Finding>, low: nat, high: nat, now: int, row: Row, cfg: Config,
                               requests: nat, paths: nat, logins: nat) {
    && (forall f | f in report ::
          && low <= RuleOf(f.kind) < high && Due(f.kind, row, cfg, requests, paths, logins)
          && f == Finding(now, f.kind, SeverityOf(f.kind), row.ip, row.host, MeasureOf(f.kind, row, requests, paths, logins)))
    && (forall kind | Due(kind, row, cfg, requests, paths, logins) && low <= RuleOf(kind) < high ::
          exists f :: f in report && f.kind == kind)
    && (forall i, j | 0 <= i < j < |report| :: RuleOf(report[i].kind) < RuleOf(report[j].kind))
  }

  lemma TellsAppend(a: seq<Finding>, b: seq<Finding>, low: nat, mid: nat, high: nat, now: int, row: Row, cfg: Config,
                    requests: nat, paths: nat, logins: nat)
    requires low <= mid <= high
    requires TellsBetween(a, low, mid, now, row, cfg, requests, paths, logins)
    requires TellsBetween(b, mid, high, now, row, cfg, requests, paths, logins)
    ensures TellsBetween(a + b, low, high, now, row, cfg, requests, paths, logins)
  {
    hide Due, SeverityOf, MeasureOf, RuleOf;
    forall kind | Due(kind, row, cfg, requests, paths, logins) && low <= RuleOf(kind) < high
      ensures exists f :: f in a + b && f.kind == kind
    {
      if RuleOf(kind) < mid {
        var f :| f in a && f.kind == kind;
        assert f in a + b;
      } else {
        var f :| f in b && f.kind == kind;
        assert f in a + b;
      }
    }
    forall i, j | 0 <= i < j < |a + b|
      ensures RuleOf((a + b)[i].kind) < RuleOf((a + b)[j].kind)
    {
      if i < |a| <= j {
        assert a[i] in a && b[j - |a|] in b;
      }
    }
  }

  // One rule by itself.
  lemma OneTells(kind: Kind, cond: bool, f: Finding, now: int, row: Row, cfg: Config, requests: nat, paths: nat, logins: nat)
    requires cond <==> Due(kind, row, cfg, requests, paths, logins)
    requires f == Finding(now, kind, SeverityOf(kind), row.ip, row.host, MeasureOf(kind, row, requests, paths, logins))
    ensures TellsBetween(When(cond, f), RuleOf(kind), RuleOf(kind) + 1, now, row, cfg, requests, paths, logins)
  {
    RulesAreNumbered(kind);
    hide Due, SeverityOf, MeasureOf, RuleOf;
    if cond {
      assert f in [f];
    }
  }

  lemma RulesAreNumbered(kind: Kind)
    ensures forall other :: RuleOf(other) == RuleOf(kind) ==> other == kind
  {
  }

  lemma LoginPostIs(row: Row)
    ensures IsLoginPost(row) <==>
            row.verb == "POST" &&
            (Contains(row.path, "/login") || Contains(row.path, "/auth") || Contains(row.path, "/signin") || Contains(row.path, "/wp-login"))
  {
    hide Contains;
    assert LOGIN_PATHS[0] == "/login" && LOGIN_PATHS[1] == "/auth" && LOGIN_PATHS[2] == "/signin" && LOGIN_PATHS[3] == "/wp-login";
  }

  lemma EachPatternTells(now: int, row: Row, cfg: Config, requests: nat, paths: nat, logins: nat)
    ensures TellsBetween(When(row.sqli, MakeEvent(now, row, SqlInjection, High, 0)), 2, 3, now, row, cfg, requests, paths, logins)
    ensures TellsBetween(When(row.xss, MakeEvent(now, row, XssAttempt, Medium, 0)), 3, 4, now, row, cfg, requests, paths, logins)
    ensures TellsBetween(When(row.traversal, MakeEvent(now, row, PathTraversal, High, 0)), 4, 5, now, row, cfg, requests, paths, logins)
    ensures TellsBetween(When(row.scanner, MakeEvent(now, row, KnownScanner, Critical, 0)), 5, 6, now, row, cfg, requests, paths, logins)
    ensures TellsBetween(When(row.badBot && !row.scanner, MakeEvent(now, row, BadBot, Low, 0)), 6, 7,
                         now, row, cfg, requests, paths, logins)
  {
    hide TellsBetween, When;
    OneTells(SqlInjection, row.sqli, MakeEvent(now, row, SqlInjection, High, 0), now, row, cfg, requests, paths, logins);
    OneTells(XssAttempt, row.xss, MakeEvent(now, row, XssAttempt, Medium, 0), now, row, cfg, requests, paths, logins);
    OneTells(PathTraversal, row.traversal, MakeEvent(now, row, PathTraversal, High, 0), now, row, cfg, requests, paths, logins);
    OneTells(KnownScanner, row.scanner, MakeEvent(now, row, KnownScanner, Critical, 0), now, row, cfg, requests, paths, logins);
    OneTells(BadBot, row.badBot && !row.scanner, MakeEvent(now, row, BadBot, Low, 0), now, row, cfg, requests, paths, logins);
  }

  lemma PatternsTell(now: int, row: Row, cfg: Config, requests: nat, paths: nat, logins: nat)
    ensures TellsBetween(PatternRules(now, row), 2, 7, now, row, cfg, requests, paths, logins)
  {
    hide TellsBetween, When, MakeEvent;
    EachPatternTells(now, row, cfg, requests, paths, logins);
    var r2, r3 := When(row.sqli, MakeEvent(now, row, SqlInjection, High, 0)), When(row.xss, MakeEvent(now, row, XssAttempt, Medium, 0));
    var r4 := When(row.traversal, MakeEvent(now, row, PathTraversal, High, 0));
    var r5 := When(row.scanner, MakeEvent(now, row, KnownScanner, Critical, 0));
    var r6 := When(row.badBot && !row.scanner, MakeEvent(now, row, BadBot, Low, 0));
    TellsAppend(r2, r3, 2, 3, 4, now, row, cfg, requests, paths, logins);
    TellsAppend(r2 + r3, r4, 2, 4, 5, now, row, cfg, requests, paths, logins);
    TellsAppend(r2 + r3 + r4, r5, 2, 5, 6, now, row, cfg, requests, paths, logins);
    TellsAppend(r2 + r3 + r4 + r5, r6, 2, 6, 7, now, row, cfg, requests, paths, logins);
  }

  lemma EarlyTells(now: int, row: Row, cfg: Config, requests: nat, paths: nat, logins: nat)
    ensures TellsBetween(EarlyRules(now, row, cfg, requests), 1, 8, now, row, cfg, requests, paths, logins)
  {
    var rate, agent := MakeEvent(now, row, RateLimitTrigger, High, requests), MakeEvent(now, row, EmptyAgent, Medium, requests);
    OneTells(RateLimitTrigger, requests >= cfg.rateLimit, rate, now, row, cfg, requests, paths, logins);
    PatternsTell(now, row, cfg, requests, paths, logins);
    OneTells(EmptyAgent, row.userAgent == "" && requests > 50, agent, now, row, cfg, requests, paths, logins);
    hide TellsBetween, When, Due, MakeEvent, SeverityOf, MeasureOf, PatternRules;
    var r1 := When(requests >= cfg.rateLimit, rate);
    TellsAppend(r1, PatternRules(now, row), 1, 2, 7, now, row, cfg, requests, paths, logins);
    TellsAppend(r1 + PatternRules(now, row), When(row.userAgent == "" && requests > 50, agent), 1, 7, 8, now, row, cfg, requests, paths, logins);
  }

  predicate Abuses(row: Row, requests: nat) {
    row.verb == "TRACE" || row.verb == "CONNECT" || (row.verb == "OPTIONS" && requests > 20)
  }

  lemma EachLateTells(now: int, row: Row, cfg: Config, requests: nat, paths: nat, logins: nat)
    ensures TellsBetween(When(IsLoginPost(row) && logins > 10, MakeEvent(now, row, RepeatedAuthFail, High, logins)), 9, 10,
                         now, row, cfg, requests, paths, logins)
    ensures TellsBetween(When(Abuses(row, requests), MakeEvent(now, row, MethodAbuse, Medium, 0)), 10, 11,
                         now, row, cfg, requests, paths, logins)
    ensures TellsBetween(When(row.durationMs > cfg.slowMs, MakeEvent(now, row, SlowRequest, Info, row.durationMs)), 11, 12,
                         now, row, cfg, requests, paths, logins)
  {
    LoginPostIs(row);
    hide IsLoginPost, TellsBetween, When;
    OneTells(RepeatedAuthFail, IsLoginPost(row) && logins > 10, MakeEvent(now, row, RepeatedAuthFail, High, logins),
             now, row, cfg, requests, paths, logins);
    OneTells(MethodAbuse, Abuses(row, requests), MakeEvent(now, row, MethodAbuse, Medium, 0),
             now, row, cfg, requests, paths, logins);
    OneTells(SlowRequest, row.durationMs > cfg.slowMs, MakeEvent(now, row, SlowRequest, Info, row.durationMs),
             now, row, cfg, requests, paths, logins);
  }

  lemma LateTells(now: int, row: Row, cfg: Config, requests: nat, paths: nat, logins: nat)
    ensures TellsBetween(LateRules(now, row, cfg, requests, logins), 9, 12, now, row, cfg, requests, paths, logins)
  {
    hide TellsBetween, When, MakeEvent, IsLoginPost;
    EachLateTells(now, row, cfg, requests, paths, logins);
    var r9 := When(IsLoginPost(row) && logins > 10, MakeEvent(now, row, RepeatedAuthFail, High, logins));
    var r10 := When(Abuses(row, requests), MakeEvent(now, row, MethodAbuse, Medium, 0));
    var r11 := When(row.durationMs > cfg.slowMs, MakeEvent(now, row, SlowRequest, Info, row.durationMs));
    TellsAppend(r9, r10, 9, 10, 11, now, row, cfg, requests, paths, logins);
    TellsAppend(r9 + r10, r11, 9, 11, 12, now, row, cfg, requests, paths, logins);
  }

  lemma RulesTell(now: int, row: Row, cfg: Config, requests: nat, paths: nat, logins: nat)
    ensures Tells(Rules(now, row, cfg, requests, paths, logins), now, row, cfg, requests, paths, logins)
  {
    EarlyTells(now, row, cfg, requests, paths, logins);
    LateTells(now, row, cfg, requests, paths, logins);
    OneTells(PortScan, row.status == 404 && paths > 50, MakeEvent(now, row, PortScan, High, paths), now, row, cfg, requests, paths, logins);
    hide EarlyRules, LateRules, Due, MakeEvent, SeverityOf, MeasureOf, When;
    var early, path, late := EarlyRules(now, row, cfg, requests), PathRule(now, row, paths), LateRules(now, row, cfg, requests, logins);
    assert TellsBetween(early, 1, 8, now, row, cfg, requests, paths, logins);
    assert TellsBetween(path, 8, 9, now, row, cfg, requests, paths, logins);
    assert TellsBetween(late, 9, 12, now, row, cfg, requests, paths, logins);
    hide PathRule;
    BetweenIsAll(early, path, late, now, row, cfg, requests, paths, logins);
  }

  lemma BetweenIsAll(early: seq<Finding>, path: seq<Finding>, late: seq<Finding>, now: int, row: Row, cfg: Config,
                     requests: nat, paths: nat, logins: nat)
    requires TellsBetween(early, 1, 8, now, row, cfg, requests, paths, logins)
    requires TellsBetween(path, 8, 9, now, row, cfg, requests, paths, logins)
    requires TellsBetween(late, 9, 12, now, row, cfg, requests, paths, logins)
    ensures Tells(early + path + late, now, row, cfg, requests, paths, logins)
  {
    hide TellsBetween;
    TellsAppend(early, path, 1, 8, 9, now, row, cfg, requests, paths, logins);
    TellsAppend(early + path, late, 1, 9, 12, now, row, cfg, requests, paths, logins);
    AllBetween(early + path + late, now, row, cfg, requests, paths, logins);
  }

  lemma AllBetween(report: seq<Finding>, now: int, row: Row, cfg: Config, requests: nat, paths: nat, logins: nat)
    requires TellsBetween(report, 1, 12, now, row, cfg, requests, paths, logins)
    ensures Tells(report, now, row, cfg, requests, paths, logins)
  {
    hide Due, SeverityOf, MeasureOf;
    assert forall kind :: 1 <= RuleOf(kind) < 12;
  }

  // The counts of the history, with the spans spelled out.
  function RequestsOfMinute(h: seq<Input>, ip: string, now: int): nat {
    |Since(Requests(h, ip), now - 60000000)|
  }

  function LoginsOfHour(h: seq<Input>, ip: string, now: int): nat {
    |Since(Logins(h, ip), now - 3600000000)|
  }

  /** Every report in every run: exactly the findings due, each once and in the order of the rules, with
      the severity of their kind and the request's time, address, host and measure, where the counts are
      the requests of the past minute up to 1000, the 404 paths not forgotten, and the login posts of the
      past hour up to 100. */
  lemma ReportExact(h: seq<Input>)
    requires Monotone(h) && h != [] && h[|h| - 1].Evaluate?
    ensures var e := h[|h| - 1];
            Tells(LastReport(h), e.now, e.row, e.cfg, Min(1000, RequestsOfMinute(h, e.row.ip, e.now)), |Remembered(h, e.row.ip)|,
                  Min(100, LoginsOfHour(h, e.row.ip, e.now)))
  {
    hide *;
    var e := h[|h| - 1];
    CountsOfHistory(h);
    var requests, paths := |Queue(Run(h).ipReq, e.row.ip)|, |Paths(Run(h).ipPaths, e.row.ip)|;
    var logins := |Queue(Run(h).ipLogins, e.row.ip)|;
    RulesTell(e.now, e.row, e.cfg, requests, paths, logins);
    LoginsOnlyOnPosts(Rules(e.now, e.row, e.cfg, requests, paths, logins), e.now, e.row, e.cfg, requests, paths, logins,
                      Min(100, LoginsOfHour(h, e.row.ip, e.now)));
    LastReportIs(h);
  }

  lemma LastReportIs(h: seq<Input>)
    requires h != [] && h[|h| - 1].Evaluate?
    ensures var e := h[|h| - 1];
            LastReport(h) == Rules(e.now, e.row, e.cfg, |Queue(Run(h).ipReq, e.row.ip)|, |Paths(Run(h).ipPaths, e.row.ip)|,
                                   |Queue(Run(h).ipLogins, e.row.ip)|)
  {
    hide Rules, Run, Queue, Paths;
  }

  lemma CountsOfHistory(h: seq<Input>)
    requires Monotone(h) && h != [] && h[|h| - 1].Evaluate?
    ensures var e := h[|h| - 1];
            && |Queue(Run(h).ipReq, e.row.ip)| == Min(1000, RequestsOfMinute(h, e.row.ip, e.now))
            && |Paths(Run(h).ipPaths, e.row.ip)| == |Remembered(h, e.row.ip)|
            && (IsLoginPost(e.row) ==> |Queue(Run(h).ipLogins, e.row.ip)| == Min(100, LoginsOfHour(h, e.row.ip, e.now)))
  {
    hide Since, Requests, Logins, Run, IsLoginPost, Remembered, Monotone, Queue, Paths;
    WindowsAreRecentHistory(h);
    PathsOverRuns(h, h[|h| - 1].row.ip);
  }

  lemma LoginsOnlyOnPosts(report: seq<Finding>, now: int, row: Row, cfg: Config, requests: nat, paths: nat, logins: nat, logins': nat)
    requires Tells(report, now, row, cfg, requests, paths, logins) && (IsLoginPost(row) ==> logins == logins')
    ensures Tells(report, now, row, cfg, requests, paths, logins')
  {
    LoginPostIs(row);
    assert forall kind :: Due(kind, row, cfg, requests, paths, logins) <==> Due(kind, row, cfg, requests, paths, logins') by {
      hide IsLoginPost, Contains;
    }
    assert forall kind | Due(kind, row, cfg, requests, paths, logins) ::
        MeasureOf(kind, row, requests, paths, logins) == MeasureOf(kind, row, requests, paths, logins') by {
      hide IsLoginPost, Contains;
    }
    hide IsLoginPost, Contains, SeverityOf, RuleOf, Due, MeasureOf;
  }

  // ---- the 404-path rule, which the cleaner does reach ----

  // The newest request of the address, or None.
  function Newest(h: seq<Input>, ip: string): Option<int> {
    var r := Requests(h, ip);
    if r == [] then None else Some(r[|r| - 1])
  }

  // The 404 paths of the address since the last cleanup that found it idle for over an hour.
  function Remembered(h: seq<Input>, ip: string): set<string> {
    if h == [] then {}
    else
      var init, e := h[..|h| - 1], h[|h| - 1];
      match e
      case Evaluate(_, row, _) =>
        Remembered(init, ip) + (if row.ip == ip && row.status == 404 then {row.path} else {})
      case Cleanup(now) =>
        if Newest(init, ip).Some? && Newest(init, ip).value < now - HOUR then {} else Remembered(init, ip)
  }

  ghost predicate PathsMatch(st: Windows, h: seq<Input>, ip: string) {
    && Paths(st.ipPaths, ip) == Remembered(h, ip)
    && (if ip in st.ipReq
        then st.ipReq[ip] != [] && Newest(h, ip) == Some(st.ipReq[ip][|st.ipReq[ip]| - 1])
        else ip !in st.ipPaths)
  }

  lemma {:induction false} ExpireKeepsLast(w: seq<int>, c: int)
    requires w != [] && w[|w| - 1] >= c
    ensures Expire(w, c) != [] && Expire(w, c)[|Expire(w, c)| - 1] == w[|w| - 1]
  {
    if w[0] >= c {
    } else {
      ExpireKeepsLast(w[1..], c);
    }
  }

  lemma RememberedStep(h: seq<Input>, e: Input, ip: string)
    ensures Remembered(h + [e], ip) ==
            match e
            case Evaluate(_, row, _) =>
              Remembered(h, ip) + (if row.ip == ip && row.status == 404 then {row.path} else {})
            case Cleanup(now) =>
              if Newest(h, ip).Some? && Newest(h, ip).value < now - HOUR then {} else Remembered(h, ip)
    ensures Newest(h + [e], ip) == if e.Evaluate? && e.row.ip == ip then Some(e.now) else Newest(h, ip)
  {
    assert (h + [e])[..|h|] == h;
  }

  lemma PathsStep(st: Windows, h: seq<Input>, e: Input, ip: string)
    requires PathsMatch(st, h, ip)
    ensures PathsMatch(Step(st, e), h + [e], ip)
  {
    hide Push, Expire, IsLoginPost, Remembered, Newest;
    RememberedStep(h, e, ip);
    if e.Evaluate? && e.row.ip == ip {
      var p := Push(Queue(st.ipReq, ip), e.now, IP_MAX);
      PushEndsWith(Queue(st.ipReq, ip), e.now, IP_MAX);
      ExpireKeepsLast(p, e.now - MINUTE);
    }
  }

  lemma PushEndsWith(w: seq<int>, t: int, max: nat)
    requires max > 0
    ensures Push(w, t, max) != [] && Push(w, t, max)[|Push(w, t, max)| - 1] == t
  {
  }

  lemma {:induction false} PathsOverRuns(h: seq<Input>, ip: string)
    ensures PathsMatch(Run(h), h, ip)
  {
    if h == [] {
    } else {
      hide PathsMatch, Step;
      var init, e := h[..|h| - 1], h[|h| - 1];
      PathsOverRuns(init, ip);
      assert h == init + [e];
      PathsStep(Run(init), init, e, ip);
    }
  }

  /** The 404-path event fires exactly when more than 50 distinct paths are remembered, with
      no hourly window: only a cleanup that finds the address idle forgets any. */
  lemma PathRuleExact(h: seq<Input>)
    requires h != [] && h[|h| - 1].Evaluate?
    ensures var e := h[|h| - 1];
            Fires(Report(Run(h), e.now, e.row, e.cfg), PortScan) <==>
            e.row.status == 404 && |Remembered(h, e.row.ip)| > 50
  {
    hide IsLoginPost, Run, Remembered, Rules, Fires;
    var e := h[|h| - 1];
    PathsOverRuns(h, e.row.ip);
    CountingRulesFire(e.now, e.row, e.cfg, |Queue(Run(h).ipReq, e.row.ip)|, |Paths(Run(h).ipPaths, e.row.ip)|,
                      |Queue(Run(h).ipLogins, e.row.ip)|);
  }

  /** So the cleaner is not invisible to that rule: it changes what the rule remembers of an
      address if and only if something is remembered and the address has been idle for over an hour. */
  lemma CleanupForgetsPathsIff(h: seq<Input>, now: int, ip: string)
    ensures Paths(Run(h + [Cleanup(now)]).ipPaths, ip) != Paths(Run(h).ipPaths, ip) <==>
            Remembered(h, ip) != {} && Newest(h, ip).Some? && Newest(h, ip).value < now - HOUR
  {
    hide Run;
    PathsOverRuns(h, ip);
    PathsOverRuns(h + [Cleanup(now)], ip);
    assert (h + [Cleanup(now)])[..|h|] == h;
  }

  // ---- the hourly count the rule's comment promises ----

  predicate IsMiss(e: Input, ip: string, cutoff: int) {
    e.Evaluate? && e.row.ip == ip && e.row.status == 404 && e.now >= cutoff
  }

  // The distinct 404 paths the address asked for at or after the cutoff.
  function PathsSince(h: seq<Input>, ip: string, cutoff: int): set<string> {
    set i | 0 <= i < |h| && IsMiss(h[i], ip, cutoff) :: h[i].row.path
  }

  lemma PathsSinceStep(h: seq<Input>, e: Input, ip: string, cutoff: int)
    ensures PathsSince(h + [e], ip, cutoff) ==
            PathsSince(h, ip, cutoff) + (if IsMiss(e, ip, cutoff) then {e.row.path} else {})
  {
    var all := h + [e];
    assert all[|h|] == e && forall i | 0 <= i < |h| :: all[i] == h[i];
    forall i | 0 <= i < |h| && IsMiss(h[i], ip, cutoff)
      ensures h[i].row.path in PathsSince(all, ip, cutoff)
    {
      assert IsMiss(all[i], ip, cutoff);
    }
  }

  lemma {:induction false} NewestBounds(h: seq<Input>, ip: string)
    requires Monotone(h)
    ensures forall i | 0 <= i < |h| && h[i].Evaluate? && h[i].row.ip == ip ::
              Newest(h, ip).Some? && h[i].now <= Newest(h, ip).value
  {
    if h == [] {
    } else {
      hide Newest;
      var init, e := h[..|h| - 1], h[|h| - 1];
      NewestBounds(init, ip);
      assert h == init + [e];
      RememberedStep(init, e, ip);
      forall i | 0 <= i < |h| && h[i].Evaluate? && h[i].row.ip == ip
        ensures Newest(h, ip).Some? && h[i].now <= Newest(h, ip).value
      {
        if i < |init| {
          assert init[i] == h[i];
        }
      }
    }
  }

  lemma IdleMissesNothing(h: seq<Input>, ip: string, cutoff: int)
    requires Monotone(h) && Newest(h, ip).Some? && Newest(h, ip).value < cutoff
    ensures PathsSince(h, ip, cutoff) == {}
  {
    NewestBounds(h, ip);
  }

  /** Wherever the cleaner ran, no path of the past hour is forgotten. */
  lemma {:induction false} HourIsRemembered(h: seq<Input>, ip: string, clock: int, cutoff: int)
    requires Monotone(h) && (forall i | 0 <= i < |h| :: h[i].now <= clock) && cutoff >= clock - HOUR
    ensures PathsSince(h, ip, cutoff) <= Remembered(h, ip)
  {
    hide Newest, PathsSince, Remembered;
    if h == [] {
      NothingSince(ip, cutoff);
    } else {
      var init, e := h[..|h| - 1], h[|h| - 1];
      assert h == init + [e];
      HourIsRemembered(init, ip, clock, cutoff);
      PathsSinceStep(init, e, ip, cutoff);
      RememberedStep(init, e, ip);
      if e.Cleanup? && Newest(init, ip).Some? && Newest(init, ip).value < e.now - HOUR {
        IdleMissesNothing(init, ip, cutoff);
      }
    }
  }

  lemma NothingSince(ip: string, cutoff: int)
    ensures PathsSince([], ip, cutoff) == {}
  {
  }

  // What the rule's comment asks for.
  predicate HourlyScan(h: seq<Input>)
    requires h != [] && h[|h| - 1].Evaluate?
  {
    var e := h[|h| - 1];
    e.row.status == 404 && |PathsSince(h, e.row.ip, e.now - HOUR)| > 50
  }

  lemma HourlyScanIs(h: seq<Input>)
    requires h != [] && h[|h| - 1].Evaluate?
    ensures var e := h[|h| - 1];
            HourlyScan(h) <==> e.row.status == 404 && |PathsSince(h, e.row.ip, e.now - HOUR)| > 50
  {
  }

  lemma LastPathRule(h: seq<Input>)
    requires h != [] && h[|h| - 1].Evaluate?
    ensures Fires(LastReport(h), PortScan) <==> h[|h| - 1].row.status == 404 && |Remembered(h, h[|h| - 1].row.ip)| > 50
  {
    hide Remembered, Fires, Report, Run;
    PathRuleExact(h);
  }

  /** The 404-path event never misses an hourly scan, and says exactly what the hourly rule would
      unless on a 404 the paths of the past hour number at most 50 while those not forgotten yet
      number more. */
  lemma PathRuleHourlyIff(h: seq<Input>)
    requires Monotone(h) && h != [] && h[|h| - 1].Evaluate?
    ensures var e := h[|h| - 1];
            && PathsSince(h, e.row.ip, e.now - HOUR) <= Remembered(h, e.row.ip)
            && (HourlyScan(h) ==> Fires(LastReport(h), PortScan))
            && ((Fires(LastReport(h), PortScan) <==> HourlyScan(h)) <==>
                !(e.row.status == 404 && |PathsSince(h, e.row.ip, e.now - HOUR)| <= 50 < |Remembered(h, e.row.ip)|))
  {
    hide *;
    var e := h[|h| - 1];
    LastHourIsRemembered(h);
    LastPathRule(h);
    HourlyScanIs(h);
    Compared(e.row.status == 404, |PathsSince(h, e.row.ip, e.now - HOUR)|, |Remembered(h, e.row.ip)|, HourlyScan(h),
             Fires(LastReport(h), PortScan));
  }

  lemma LastHourIsRemembered(h: seq<Input>)
    requires Monotone(h) && h != []
    ensures var e := h[|h| - 1];
            e.Evaluate? ==>
            && PathsSince(h, e.row.ip, e.now - HOUR) <= Remembered(h, e.row.ip)
            && |PathsSince(h, e.row.ip, e.now - HOUR)| <= |Remembered(h, e.row.ip)|
  {
    hide PathsSince, Remembered;
    var e := h[|h| - 1];
    MonotoneLast(h);
    if e.Evaluate? {
      HourIsRemembered(h, e.row.ip, e.now, e.now - HOUR);
      Subset(PathsSince(h, e.row.ip, e.now - HOUR), Remembered(h, e.row.ip));
    }
  }

  lemma Compared(miss: bool, few: nat, many: nat, scan: bool, fires: bool)
    requires few <= many && (scan <==> miss && few > 50) && (fires <==> miss && many > 50)
    ensures (scan ==> fires) && ((fires <==> scan) <==> !(miss && few <= 50 < many))
  {
  }

  // ---- where it differs: one new path every hour and a bit ----

  function PathOf(n: nat): (path: string)
    ensures |path| == n
  {
    if n == 0 then "" else PathOf(n - 1) + "a"
  }

  function Miss(n: nat): Input {
    Evaluate(3600000001 * n, Row("203.0.113.9", "h", PathOf(n), "ua", "GET", 404, 0, false, false, false, false, false), Config(300, 5000))
  }

  function SlowScan(n: nat): seq<Input> {
    if n == 0 then [] else SlowScan(n - 1) + [Miss(n)]
  }

  lemma {:induction false} SlowScanIs(n: nat)
    ensures |SlowScan(n)| == n && Monotone(SlowScan(n))
    ensures forall i | 0 <= i < n :: SlowScan(n)[i] == Miss(i + 1)
  {
    if n > 0 {
      SlowScanIs(n - 1);
    }
  }

  lemma {:induction false} SlowScanRemembered(n: nat)
    ensures |Remembered(SlowScan(n), "203.0.113.9")| == n
    ensures forall path | path in Remembered(SlowScan(n), "203.0.113.9") :: |path| <= n
    ensures n > 0 ==> Newest(SlowScan(n), "203.0.113.9") == Some(3600000001 * n)
  {
    if n == 0 {
    } else {
      hide Newest, Remembered;
      SlowScanRemembered(n - 1);
      RememberedStep(SlowScan(n - 1), Miss(n), "203.0.113.9");
    }
  }

  lemma SlowScanLastHour(n: nat)
    requires n > 0
    ensures PathsSince(SlowScan(n), "203.0.113.9", 3600000001 * n - HOUR) == {PathOf(n)}
  {
    SlowScanIs(n);
    var h := SlowScan(n);
    hide SlowScan;
    assert IsMiss(h[n - 1], "203.0.113.9", 3600000001 * n - HOUR);
  }

  lemma MissIs(n: nat)
    ensures var e := Miss(n);
            e.Evaluate? && e.now == 3600000001 * n && e.row.ip == "203.0.113.9" && e.row.status == 404 && e.row.path == PathOf(n)
  {
  }

  lemma FewPathsNoScan(h: seq<Input>, path: string)
    requires h != [] && h[|h| - 1].Evaluate? && PathsSince(h, h[|h| - 1].row.ip, h[|h| - 1].now - HOUR) == {path}
    ensures !HourlyScan(h)
  {
    hide PathsSince;
  }

  /** A scan of one path an hour fires the event from its 51st path on, though no hour saw two. */
  lemma SlowScanFires(n: nat)
    requires n > 50
    ensures var h := SlowScan(n);
            Monotone(h) && |h| == n && h[n - 1] == Miss(n) && Fires(LastReport(h), PortScan) && !HourlyScan(h)
  {
    hide *;
    SlowScanIs(n);
    MissIs(n);
    SlowScanRemembered(n);
    SlowScanLastHour(n);
    LastPathRule(SlowScan(n));
    FewPathsNoScan(SlowScan(n), PathOf(n));
  }

  /** One cleanup before the last path of such a scan, and the event is gone: to this rule the
      cleaner is visible in the findings. */
  lemma CleanupSilencesScan(n: nat)
    requires n >= 50
    ensures var h := SlowScan(n) + [Cleanup(3600000001 * (n + 1))] + [Miss(n + 1)];
            && Monotone(h) && Erase(h) == SlowScan(n + 1)
            && !Fires(LastReport(h), PortScan) && Fires(LastReport(SlowScan(n + 1)), PortScan)
  {
    var clean := Cleanup(3600000001 * (n + 1));
    var h := SlowScan(n) + [clean] + [Miss(n + 1)];
    hide *;
    SlowScanCleaned(n);
    MissIs(n + 1);
    LastPathRule(h);
    SlowScanFires(n + 1);
    EraseOne(n, clean);
    assert |{PathOf(n + 1)}| == 1;
  }

  lemma SlowScanCleaned(n: nat)
    requires n > 0
    ensures var h := SlowScan(n) + [Cleanup(3600000001 * (n + 1))] + [Miss(n + 1)];
            Monotone(h) && Remembered(h, "203.0.113.9") == {PathOf(n + 1)}
  {
    hide SlowScan, Remembered, Newest, PathOf;
    var clean := Cleanup(3600000001 * (n + 1));
    SlowScanIs(n);
    SlowScanRemembered(n);
    RememberedStep(SlowScan(n), clean, "203.0.113.9");
    RememberedStep(SlowScan(n) + [clean], Miss(n + 1), "203.0.113.9");
  }

  lemma EraseOne(n: nat, clean: Input)
    requires clean.Cleanup?
    ensures Erase(SlowScan(n) + [clean] + [Miss(n + 1)]) == SlowScan(n + 1)
  {
    var h := SlowScan(n) + [clean];
    assert h[..|h| - 1] == SlowScan(n);
    assert (h + [Miss(n + 1)])[..|h|] == h;
    EraseNothing(n);
  }

  lemma {:induction false} EraseNothing(n: nat)
    ensures Erase(SlowScan(n)) == SlowScan(n)
  {
    if n > 0 {
      EraseNothing(n - 1);
      assert SlowScan(n)[..|SlowScan(n)| - 1] == SlowScan(n - 1);
    }
  }

  // ---- where the rate limit differs: a burst under a threshold beyond the queue ----

  function Burst(n: nat, limit: int): seq<Input> {
    if n == 0 then []
    else Burst(n - 1, limit) +
         [Evaluate(0, Row("203.0.113.9", "h", "/", "ua", "GET", 200, 0, false, false, false, false, false), Config(limit, 5000))]
  }

  lemma {:induction false} BurstIs(n: nat, limit: int)
    ensures |Burst(n, limit)| == n && Monotone(Burst(n, limit)) && RecentRequests(Burst(n, limit), "203.0.113.9", 0) == n
    ensures n > 0 ==> var e := Burst(n, limit)[n - 1]; e.Evaluate? && e.now == 0 && e.row.ip == "203.0.113.9" && e.cfg.rateLimit == limit
    ensures forall i | 0 <= i < n :: Burst(n, limit)[i].now == 0
  {
    hide Since, Requests, RecentRequests;
    if n > 0 {
      BurstIs(n - 1, limit);
      OneMoreRecent(Burst(n - 1, limit), Burst(n, limit)[|Burst(n, limit)| - 1]);
    } else {
      NoneRecent();
    }
  }

  lemma NoneRecent()
    ensures RecentRequests([], "203.0.113.9", 0) == 0
  {
  }

  lemma OneMoreRecent(h: seq<Input>, e: Input)
    requires e.Evaluate? && e.now == 0 && e.row.ip == "203.0.113.9"
    ensures RecentRequests(h + [e], "203.0.113.9", 0) == RecentRequests(h, "203.0.113.9", 0) + 1
  {
    hide Since, Requests;
    HistoryStep(h, e, "203.0.113.9", "");
    SinceAppend(Requests(h, "203.0.113.9"), 0, 0 - MINUTE);
  }

  /** As many requests at one instant as a threshold above 1000 asks for, and no event. */
  lemma BurstEscapes(limit: nat)
    requires limit > 1000
    ensures var h := Burst(limit, limit);
            && Monotone(h) && |h| == limit && h[limit - 1].Evaluate? && h[limit - 1].cfg.rateLimit == limit
            && RecentRequests(h, h[limit - 1].row.ip, h[limit - 1].now) == limit && !Fires(LastReport(h), RateLimitTrigger)
  {
    hide RecentRequests, Fires, Report, Run, Burst, Monotone;
    BurstIs(limit, limit);
    RateLimitExactIff(Burst(limit, limit));
  }

  // ---- the engine ----

  // One evaluation's findings, from the windows it has at hand.
  lemma ReportOfParts(st: Windows, now: int, row: Row, cfg: Config, window: seq<int>, paths: seq<Finding>, logins: seq<int>)
    requires window == Queue(st.ipReq, row.ip) && logins == Queue(st.ipLogins, row.ip)
    requires paths == PathRule(now, row, |Paths(st.ipPaths, row.ip)|)
    ensures EarlyRules(now, row, cfg, |window|) + paths + LateRules(now, row, cfg, |window|, |logins|) == Report(st, now, row, cfg)
  {
    hide EarlyRules, LateRules, PathRule, Queue, Paths;
  }

  class Engine {
    var ipReq: map<string, seq<int>>
    var ipPaths: map<string, set<string>>
    var ipLogins: map<string, seq<int>>
    var hostReq: map<string, seq<int>>

    ghost function Current(): Windows
      reads this
    {
      Windows(ipReq, ipPaths, ipLogins, hostReq)
    }

    constructor ()
      ensures Current() == EMPTY
    {
      ipReq, ipPaths, ipLogins, hostReq := map[], map[], map[], map[];
    }

    /** The address's and the host's request windows. */
    method TrackRequest(now: int, row: Row) returns (window: seq<int>)
      modifies `ipReq, `hostReq
      ensures ipReq == old(ipReq)[row.ip := Expire(Push(Queue(old(ipReq), row.ip), now, IP_MAX), now - MINUTE)]
      ensures hostReq == old(hostReq)[row.host := Expire(Push(Queue(old(hostReq), row.host), now, HOST_MAX), now - MINUTE)]
      ensures window == Queue(ipReq, row.ip)
    {
      hide Expire, Push;
      window := ExpireWindow(Push(Queue(ipReq, row.ip), now, IP_MAX), now, MINUTE);
      ipReq := ipReq[row.ip := window];
      var hostWindow := ExpireWindow(Push(Queue(hostReq, row.host), now, HOST_MAX), now, MINUTE);
      hostReq := hostReq[row.host := hostWindow];
    }

    /** Rule 8. */
    method TrackMiss(now: int, row: Row) returns (found: seq<Finding>)
      modifies `ipPaths
      ensures ipPaths == if row.status == 404 then old(ipPaths)[row.ip := Paths(old(ipPaths), row.ip) + {row.path}] else old(ipPaths)
      ensures found == PathRule(now, row, |Paths(ipPaths, row.ip)|)
    {
      found := [];
      if row.status == 404 {
        ipPaths := ipPaths[row.ip := Paths(ipPaths, row.ip) + {row.path}];
        if |ipPaths[row.ip]| > 50 {
          found := [MakeEvent(now, row, PortScan, High, |ipPaths[row.ip]|)];
        }
      }
    }

    /** The login window of rule 9. */
    method TrackLogin(now: int, row: Row) returns (logins: seq<int>)
      modifies `ipLogins
      ensures ipLogins == if IsLoginPost(row)
                          then old(ipLogins)[row.ip := Expire(Push(Queue(old(ipLogins), row.ip), now, LOGIN_MAX), now - HOUR)]
                          else old(ipLogins)
      ensures logins == Queue(ipLogins, row.ip)
    {
      hide Expire, Push, IsLoginPost;
      logins := Queue(ipLogins, row.ip);
      if IsLoginPost(row) {
        logins := ExpireWindow(Push(logins, now, LOGIN_MAX), now, HOUR);
        ipLogins := ipLogins[row.ip := logins];
      }
    }

    method Evaluate(now: int, row: Row, cfg: Config) returns (findings: seq<Finding>)
      modifies this
      ensures Current() == AfterEvaluate(old(Current()), now, row)
      ensures findings == Report(Current(), now, row, cfg)
    {
      hide EarlyRules, LateRules, PathRule, Expire, Push, Queue, Paths, IsLoginPost, Report;
      var window := TrackRequest(now, row);
      var paths := TrackMiss(now, row);
      var logins := TrackLogin(now, row);
      ReportOfParts(Current(), now, row, cfg, window, paths, logins);
      findings := EarlyRules(now, row, cfg, |window|) + paths + LateRules(now, row, cfg, |window|, |logins|);
    }

    method Cleanup(now: int)
      modifies this
      ensures Current() == AfterCleanup(old(Current()), now)
    {
      var stale := set ip | ip in ipReq && IsStale(ipReq[ip], now);
      var left := stale;
      while left != {}
        invariant left <= stale
        invariant ipReq == old(ipReq) - (stale - left)
        invariant ipPaths == old(ipPaths) - (stale - left)
        invariant ipLogins == old(ipLogins) - (stale - left)
        invariant hostReq == old(hostReq)
      {
        var ip :| ip in left;
        ipReq, ipPaths, ipLogins := ipReq - {ip}, ipPaths - {ip}, ipLogins - {ip};
        left := left - {ip};
      }
    }
  }

  /** Pops from the left while the oldest entry is older than the span: on a queue in order,
      what is left is exactly the entries of the span. */
  method ExpireWindow(window: seq<int>, now: int, span: nat) returns (left: seq<int>)
    ensures left == Expire(window, now - span)
    ensures Ascending(window) ==> left == Since(window, now - span)
  {
    left := window;
    while left != [] && left[0] < now - span
      invariant Expire(left, now - span) == Expire(window, now - span)
    {
      left := left[1..];
    }
    if Ascending(window) {
      ExpireIsSince(window, now - span);
    }
  }
}
