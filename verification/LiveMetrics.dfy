/** Rolling live metrics, computed twice: by backend/core/ingestion.py over every request, and
    by computeLocalMetrics of frontend/src/pages/RealTime.tsx over the rows the page received.

    Rates are exact; the rounding to two or four decimals at the end is not modelled. */
module LiveMetrics {
  import opened Median
  import opened Text
  import opened Wrappers

  const WINDOW := 30.0
  const WINDOW_MS := 30000

  datatype Metrics = Metrics(
    requests: nat, rate: real, rate2: real, rate3: real, rate4: real, rate5: real, errorRate: real,
    uniqueIps: nat, p50: int, bytesOut: int, bytesIn: int, c2: nat, c3: nat, c4: nat, c5: nat)

  // A stored request, as far as the metrics and the filters read it.
  datatype Request = Request(statusClass: Option<string>, durationMs: Option<int>, responseBytes: Option<int>,
                             requestBytes: Option<int>, ip: Option<string>, host: Option<string>,
                             verb: Option<string>, path: Option<string>, country: Option<string>)

  // ---- the server ----

  datatype Event = Event(t: real, sc: string, d: Option<int>, bo: int, bi: int, ip: string)

  function OnServer(r: Request, now: real): Event {
    Event(now, OrEmpty(r.statusClass), r.durationMs, OrZero(r.responseBytes), OrZero(r.requestBytes), OrEmpty(r.ip))
  }

  function Count(w: seq<Event>, sc: string): nat {
    if w == [] then 0 else Count(w[..|w| - 1], sc) + (if w[|w| - 1].sc == sc then 1 else 0)
  }

  function Durations(w: seq<Event>): seq<int> {
    if w == [] then [] else Durations(w[..|w| - 1]) + (if w[|w| - 1].d.Some? then [w[|w| - 1].d.value] else [])
  }

  function Ips(w: seq<Event>): set<string> {
    set i | 0 <= i < |w| && w[i].ip != "" :: w[i].ip
  }

  function BytesOut(w: seq<Event>): int {
    if w == [] then 0 else BytesOut(w[..|w| - 1]) + w[|w| - 1].bo
  }

  function BytesIn(w: seq<Event>): int {
    if w == [] then 0 else BytesIn(w[..|w| - 1]) + w[|w| - 1].bi
  }

  function MaxReal(a: real, b: real): real {
    if a >= b then a else b
  }

  function Elapsed(w: seq<Event>): (r: real)
    ensures r > 0.0
  {
    if |w| >= 2 then MaxReal(w[|w| - 1].t - w[0].t, 0.5) else WINDOW
  }

  function Summary(w: seq<Event>): Metrics {
    var n, elapsed := |w|, Elapsed(w);
    var c2, c3, c4, c5 := Count(w, "2xx"), Count(w, "3xx"), Count(w, "4xx"), Count(w, "5xx");
    Metrics(n, n as real / elapsed, c2 as real / elapsed, c3 as real / elapsed, c4 as real / elapsed, c5 as real / elapsed,
            (c4 + c5) as real / (if n >= 1 then n else 1) as real,
            |Ips(w)|, Upper(Durations(w)), BytesOut(w), BytesIn(w), c2, c3, c4, c5)
  }

  function Evict(w: seq<Event>, cutoff: real): seq<Event> {
    if w != [] && w[0].t < cutoff then Evict(w[1..], cutoff) else w
  }

  datatype Input = Update(event: Event) | Poll(now: real)

  function TimeOf(e: Input): real {
    match e
    case Update(event) => event.t
    case Poll(now) => now
  }

  // The window after a run of updates and polls; a poll reports the summary of it.
  function Run(h: seq<Input>): seq<Event> {
    if h == [] then []
    else
      var before := Run(h[..|h| - 1]);
      match h[|h| - 1]
      case Update(event) => before + [event]
      case Poll(now) => Evict(before, now - WINDOW)
  }

  predicate Monotone(h: seq<Input>) {
    forall i, j | 0 <= i < j < |h| :: TimeOf(h[i]) <= TimeOf(h[j])
  }

  // ---- the full history ----

  function History(h: seq<Input>): seq<Event> {
    if h == [] then []
    else History(h[..|h| - 1]) + (if h[|h| - 1].Update? then [h[|h| - 1].event] else [])
  }

  // The elements that are recent enough, in order.
  function Since<T>(s: seq<T>, recent: T -> bool): seq<T> {
    if s == [] then [] else Since(s[..|s| - 1], recent) + (if recent(s[|s| - 1]) then [s[|s| - 1]] else [])
  }

  function After(cutoff: real): Event -> bool {
    (e: Event) => e.t >= cutoff
  }

  lemma {:induction false} SinceAppend<T>(a: seq<T>, b: seq<T>, recent: T -> bool)
    ensures Since(a + b, recent) == Since(a, recent) + Since(b, recent)
  {
    if b == [] {
      assert a + b == a;
    } else {
      SinceAppend(a, b[..|b| - 1], recent);
      assert (a + b)[..|a + b| - 1] == a + b[..|b| - 1];
    }
  }

  lemma {:induction false} SinceNone<T>(s: seq<T>, recent: T -> bool)
    requires forall i | 0 <= i < |s| :: !recent(s[i])
    ensures Since(s, recent) == []
  {
    if s == [] {
    } else {
      SinceNone(s[..|s| - 1], recent);
    }
  }

  lemma {:induction false} SinceAll<T>(s: seq<T>, recent: T -> bool)
    requires forall i | 0 <= i < |s| :: recent(s[i])
    ensures Since(s, recent) == s
  {
    if s == [] {
    } else {
      SinceAll(s[..|s| - 1], recent);
      assert s == s[..|s| - 1] + [s[|s| - 1]];
    }
  }

  lemma {:induction false} SinceTwice<T(!new)>(s: seq<T>, recent: T -> bool, newer: T -> bool)
    requires forall e | newer(e) :: recent(e)
    ensures Since(Since(s, recent), newer) == Since(s, newer)
  {
    if s == [] {
    } else {
      var init, last := s[..|s| - 1], [s[|s| - 1]];
      SinceTwice(init, recent, newer);
      SinceAppend(Since(init, recent), last, newer);
      assert Since(last, newer) == if newer(last[0]) then last else [] by {
        assert last[..0] == [];
      }
      assert !recent(last[0]) ==> Since(s, recent) == Since(init, recent);
    }
  }

  predicate Ordered(s: seq<Event>) {
    forall i, j | 0 <= i < j < |s| :: s[i].t <= s[j].t
  }

  lemma {:induction false} EvictSplits(w: seq<Event>, c: real) returns (gone: seq<Event>)
    requires Ordered(w)
    ensures w == gone + Evict(w, c) && (forall i | 0 <= i < |gone| :: gone[i].t < c)
    ensures Evict(w, c) == Since(w, After(c))
  {
    hide Since;
    if w != [] && w[0].t < c {
      var rest := w[1..];
      var more := EvictSplits(rest, c);
      assert w == [w[0]] + rest;
      SinceOfHead(w[0], rest, c);
      gone := [w[0]] + more;
    } else {
      gone := [];
      SinceAll(w, After(c));
    }
  }

  lemma SinceOfHead(e: Event, rest: seq<Event>, c: real)
    requires e.t < c
    ensures Since([e] + rest, After(c)) == Since(rest, After(c))
  {
    SinceAppend([e], rest, After(c));
    SinceNone([e], After(c));
  }

  // The window is the history less a prefix that had already left the 30 seconds.
  ghost predicate Lazy(w: seq<Event>, full: seq<Event>, gone: seq<Event>, clock: real) {
    && full == gone + w && Ordered(w)
    && (forall i | 0 <= i < |gone| :: gone[i].t < clock - WINDOW)
    && (forall i | 0 <= i < |w| :: w[i].t <= clock)
  }

  lemma EvictKeepsLazy(w: seq<Event>, full: seq<Event>, gone: seq<Event>, clock: real, now: real) returns (gone': seq<Event>)
    requires Lazy(w, full, gone, clock) && clock <= now
    ensures Lazy(Evict(w, now - WINDOW), full, gone', now)
    ensures Evict(w, now - WINDOW) == Since(full, After(now - WINDOW))
  {
    hide Evict, Since;
    var more := EvictSplits(w, now - WINDOW);
    var left := Evict(w, now - WINDOW);
    SinceAppend(gone, w, After(now - WINDOW));
    SinceNone(gone, After(now - WINDOW));
    gone' := gone + more;
    assert full == gone' + left;
    SuffixOf(w, more, left);
  }

  lemma SuffixOf(w: seq<Event>, more: seq<Event>, left: seq<Event>)
    requires w == more + left && Ordered(w)
    ensures Ordered(left) && forall i | 0 <= i < |left| :: left[i] in w
  {
    assert forall i | 0 <= i < |left| :: left[i] == w[|more| + i];
  }

  lemma UpdateKeepsLazy(w: seq<Event>, full: seq<Event>, gone: seq<Event>, event: Event)
    requires Lazy(w, full, gone, event.t)
    ensures Lazy(w + [event], full + [event], gone, event.t)
  {
    assert (gone + w) + [event] == gone + (w + [event]);
  }

  lemma InputKeepsLazy(h: seq<Input>, e: Input, gone: seq<Event>) returns (gone': seq<Event>)
    requires Lazy(Run(h), History(h), gone, TimeOf(e))
    ensures Lazy(Run(h + [e]), History(h + [e]), gone', TimeOf(e))
  {
    hide Evict, Since, Lazy;
    assert (h + [e])[..|h|] == h;
    gone' := gone;
    match e
    case Update(event) => UpdateKeepsLazy(Run(h), History(h), gone, event);
    case Poll(now) =>
      gone' := EvictKeepsLazy(Run(h), History(h), gone, now, now);
      assert History(h + [e]) == History(h);
  }

  lemma MonotoneInit(h: seq<Input>, e: Input)
    requires Monotone(h + [e])
    ensures Monotone(h) && forall i | 0 <= i < |h| :: TimeOf(h[i]) <= TimeOf(e)
  {
    var all := h + [e];
    assert all[|h|] == e && forall i | 0 <= i < |h| :: h[i] == all[i];
  }

  lemma {:induction false} RunIsLazy(h: seq<Input>, clock: real) returns (gone: seq<Event>)
    requires Monotone(h) && forall i | 0 <= i < |h| :: TimeOf(h[i]) <= clock
    ensures Lazy(Run(h), History(h), gone, clock)
  {
    if h == [] {
      gone := [];
    } else {
      hide Run, History, Lazy, Monotone, TimeOf;
      var init, e := h[..|h| - 1], h[|h| - 1];
      assert h == init + [e];
      MonotoneInit(init, e);
      gone := RunIsLazy(init, TimeOf(e));
      gone := InputKeepsLazy(init, e, gone);
      LazyLater(Run(h), History(h), gone, TimeOf(e), clock);
    }
  }

  lemma LazyLater(w: seq<Event>, full: seq<Event>, gone: seq<Event>, clock: real, later: real)
    requires Lazy(w, full, gone, clock) && clock <= later
    ensures Lazy(w, full, gone, later)
  {
  }

  /** Lazy eviction is exact: every poll, in any interleaving with updates, summarises the full
      history of the past 30 seconds. How often polls came before cannot matter. */
  lemma PollIsExact(h: seq<Input>, now: real)
    requires Monotone(h + [Poll(now)])
    ensures Run(h + [Poll(now)]) == Since(History(h), After(now - 30.0))
  {
    hide Summary, Since, Evict, Monotone;
    assert (h + [Poll(now)])[..|h|] == h;
    MonotoneInit(h, Poll(now));
    var gone := RunIsLazy(h, now);
    var gone' := EvictKeepsLazy(Run(h), History(h), gone, now, now);
  }

  /** Two runs with the same updates report the same, wherever their earlier polls fell. */
  lemma PollingIsUnobservable(h: seq<Input>, h': seq<Input>, now: real)
    requires Monotone(h + [Poll(now)]) && Monotone(h' + [Poll(now)]) && History(h) == History(h')
    ensures Run(h + [Poll(now)]) == Run(h' + [Poll(now)])
  {
    PollIsExact(h, now);
    PollIsExact(h', now);
  }

  lemma {:induction false} ClassesAtMostAll(w: seq<Event>)
    ensures Count(w, "2xx") + Count(w, "3xx") + Count(w, "4xx") + Count(w, "5xx") <= |w|
  {
    if w == [] {
    } else {
      ClassesAtMostAll(w[..|w| - 1]);
    }
  }

  lemma {:induction false} SinceWithin(s: seq<Event>, c: real, clock: real)
    requires forall i | 0 <= i < |s| :: s[i].t <= clock
    ensures forall i | 0 <= i < |Since(s, After(c))| :: c <= Since(s, After(c))[i].t <= clock
  {
    if s == [] {
    } else {
      SinceWithin(s[..|s| - 1], c, clock);
    }
  }

  lemma ElapsedBounds(w: seq<Event>, now: real)
    requires forall i | 0 <= i < |w| :: now - WINDOW <= w[i].t <= now
    ensures 0.5 <= Elapsed(w) <= 30.0
  {
  }

  /** What every report satisfies: the divisor is between half a second and the window, the
      classes add up to at most the total, and the median splits the durations in half. */
  lemma ReportBounds(full: seq<Event>, now: real)
    requires forall i | 0 <= i < |full| :: full[i].t <= now
    ensures var w := Since(full, After(now - 30.0));
            var m := Summary(w);
            && 0.5 <= Elapsed(w) <= 30.0 && m.rate * Elapsed(w) == m.requests as real
            && m.c2 + m.c3 + m.c4 + m.c5 <= m.requests && 0.0 <= m.errorRate <= 1.0
            && (Durations(w) != [] ==>
                  && 2 * AtMost(Durations(w), m.p50) > |Durations(w)|
                  && 2 * AtLeast(Durations(w), m.p50) >= |Durations(w)|)
  {
    hide Since, Count, Durations, Upper, AtMost, AtLeast, Elapsed, BytesOut, BytesIn, Ips;
    var w := Since(full, After(now - WINDOW));
    SinceWithin(full, now - WINDOW, now);
    ElapsedBounds(w, now);
    ClassesAtMostAll(w);
    if Durations(w) != [] {
      UpperSplitsInHalf(Durations(w));
    }
    FractionAtMostOne(Count(w, "4xx") + Count(w, "5xx"), if |w| >= 1 then |w| else 1);
  }

  lemma FractionAtMostOne(a: nat, b: nat)
    requires a <= b && 0 < b
    ensures 0.0 <= a as real / b as real <= 1.0
  {
  }

  // ---- a report request by request ----

  // One more request, seen from the counters.
  predicate AddsCounters(a: Metrics, b: Metrics, r: Request, known: bool) {
    && b.requests == a.requests + 1
    && b.uniqueIps == a.uniqueIps + (if known || r.ip in {None, Some("")} then 0 else 1)
    && b.bytesOut == a.bytesOut + (if r.responseBytes.Some? then r.responseBytes.value else 0)
    && b.bytesIn == a.bytesIn + (if r.requestBytes.Some? then r.requestBytes.value else 0)
    && b.c2 == a.c2 + (if r.statusClass == Some("2xx") then 1 else 0)
    && b.c3 == a.c3 + (if r.statusClass == Some("3xx") then 1 else 0)
    && b.c4 == a.c4 + (if r.statusClass == Some("4xx") then 1 else 0)
    && b.c5 == a.c5 + (if r.statusClass == Some("5xx") then 1 else 0)
  }

  // Every rate is a counter over the span of the window.
  predicate Rated(m: Metrics, span: real) {
    && m.rate * span == m.requests as real
    && m.rate2 * span == m.c2 as real && m.rate3 * span == m.c3 as real
    && m.rate4 * span == m.c4 as real && m.rate5 * span == m.c5 as real
    && m.errorRate * m.requests as real == (m.c4 + m.c5) as real
  }

  lemma IpsAppend(w: seq<Event>, e: Event)
    ensures Ips(w + [e]) == Ips(w) + (if e.ip == "" then {} else {e.ip})
  {
    var all := w + [e];
    assert all[|w|] == e && forall i | 0 <= i < |w| :: all[i] == w[i];
    forall ip
      ensures ip in Ips(all) <==> ip in Ips(w) || (ip == e.ip && ip != "")
    {
      if ip in Ips(w) {
        var i :| 0 <= i < |w| && w[i].ip != "" && w[i].ip == ip;
        assert all[i].ip == ip;
      }
    }
  }

  lemma CountAppend(w: seq<Event>, e: Event, sc: string)
    ensures Count(w + [e], sc) == Count(w, sc) + (if e.sc == sc then 1 else 0)
  {
    assert (w + [e])[..|w|] == w;
  }

  lemma SumsAppend(w: seq<Event>, e: Event)
    ensures Durations(w + [e]) == Durations(w) + (if e.d.Some? then [e.d.value] else [])
    ensures BytesOut(w + [e]) == BytesOut(w) + e.bo && BytesIn(w + [e]) == BytesIn(w) + e.bi
  {
    assert (w + [e])[..|w|] == w;
  }

  lemma EmptySummary()
    ensures Durations([]) == [] && Summary([]) == Metrics(0, 0.0, 0.0, 0.0, 0.0, 0.0, 0.0, 0, 0, 0, 0, 0, 0, 0, 0)
  {
    assert Ips([]) == {};
  }

  lemma Quotient(a: int, b: real)
    requires b > 0.0
    ensures a as real / b * b == a as real
  {
  }

  lemma SummaryRates(w: seq<Event>)
    requires w != []
    ensures Rated(Summary(w), Elapsed(w))
  {
    hide Count, Durations, Ips, BytesOut, BytesIn, Elapsed, Upper;
    Quotient(|w|, Elapsed(w));
    Quotient(Count(w, "2xx"), Elapsed(w));
    Quotient(Count(w, "3xx"), Elapsed(w));
    Quotient(Count(w, "4xx"), Elapsed(w));
    Quotient(Count(w, "5xx"), Elapsed(w));
    Quotient(Count(w, "4xx") + Count(w, "5xx"), |w| as real);
  }

  /** The server's report request by request: an empty window reports zeros, and one more request
      moves each counter by what the request says; the rates are the counters over the time from
      the first event to this one, at least half a second, or over 30 seconds if it is alone. */
  lemma SummaryExact(w: seq<Event>, r: Request, now: real)
    ensures Summary([]) == Metrics(0, 0.0, 0.0, 0.0, 0.0, 0.0, 0.0, 0, 0, 0, 0, 0, 0, 0, 0) && Durations([]) == []
    ensures var all := w + [OnServer(r, now)];
            && AddsCounters(Summary(w), Summary(all), r, exists e | e in w :: Some(e.ip) == r.ip)
            && Rated(Summary(all), if w == [] then 30.0 else if now - w[0].t > 0.5 then now - w[0].t else 0.5)
            && Durations(all) == Durations(w) + (if r.durationMs.Some? then [r.durationMs.value] else [])
            && Summary(all).p50 == Upper(Durations(all))
  {
    hide AddsCounters, Rated, Summary, Durations, Upper;
    var e := OnServer(r, now);
    EmptySummary();
    SummaryRates(w + [e]);
    ElapsedAppend(w, e);
    CountersAppend(w, r, now);
    SumsAppend(w, e);
    MedianReported(w + [e]);
  }

  lemma MedianReported(w: seq<Event>)
    ensures Summary(w).p50 == Upper(Durations(w))
  {
  }

  lemma ElapsedAppend(w: seq<Event>, e: Event)
    ensures Elapsed(w + [e]) == if w == [] then 30.0 else if e.t - w[0].t > 0.5 then e.t - w[0].t else 0.5
  {
    var all := w + [e];
    assert all[|all| - 1] == e && (w != [] ==> all[0] == w[0]);
  }

  lemma CountersAppend(w: seq<Event>, r: Request, now: real)
    ensures AddsCounters(Summary(w), Summary(w + [OnServer(r, now)]), r, exists e | e in w :: Some(e.ip) == r.ip)
  {
    hide Count, Durations, Ips, BytesOut, BytesIn, Elapsed, Upper, OrEmpty;
    var e := OnServer(r, now);
    KnownIps(w, r, now);
    ClassAppend(w, r, now, "2xx");
    ClassAppend(w, r, now, "3xx");
    ClassAppend(w, r, now, "4xx");
    ClassAppend(w, r, now, "5xx");
    SumsAppend(w, e);
  }

  lemma ClassAppend(w: seq<Event>, r: Request, now: real, sc: string)
    requires sc != ""
    ensures Count(w + [OnServer(r, now)], sc) == Count(w, sc) + (if r.statusClass == Some(sc) then 1 else 0)
  {
    CountAppend(w, OnServer(r, now), sc);
  }

  lemma KnownIps(w: seq<Event>, r: Request, now: real)
    ensures var known := exists e | e in w :: Some(e.ip) == r.ip;
            |Ips(w + [OnServer(r, now)])| == |Ips(w)| + (if known || r.ip in {None, Some("")} then 0 else 1)
  {
    var ip := OrEmpty(r.ip);
    IpsAppend(w, OnServer(r, now));
    if ip != "" {
      assert ip in Ips(w) <==> exists e | e in w :: Some(e.ip) == r.ip by {
        if e :| e in w && Some(e.ip) == r.ip {
          var i :| 0 <= i < |w| && w[i] == e;
        }
      }
      assert Ips(w) + {ip} == if ip in Ips(w) then Ips(w) else Ips(w) + {ip};
    } else {
      assert r.ip == None || r.ip == Some("");
      assert Ips(w) + {} == Ips(w);
    }
  }

  // ---- the page ----

  datatype LocalEvent = LocalEvent(t: int, sc: string, d: Option<int>, bo: int, bi: int, ip: string, host: string,
                                   verb: string, path: string, country: string)

  function OnPage(r: Request, now: int): LocalEvent {
    LocalEvent(now, OrEmpty(r.statusClass), r.durationMs, OrZero(r.responseBytes), OrZero(r.requestBytes), OrEmpty(r.ip),
               OrEmpty(r.host), OrEmpty(r.verb), OrEmpty(r.path), OrEmpty(r.country))
  }

  // An empty string is an absent filter.
  datatype Filters = Filters(host: string, ip: string, verb: string, statusClass: string, path: string, country: string)

  const NO_FILTERS := Filters("", "", "", "", "", "")

  // The table's own test of a row, host included.
  predicate RowMatches(r: Request, f: Filters) {
    if f.host != "" && r.host != Some(f.host) then false
    else if f.ip != "" && r.ip != Some(f.ip) then false
    else if f.verb != "" && r.verb != Some(f.verb) then false
    else if f.statusClass != "" && r.statusClass != Some(f.statusClass) then false
    else if f.path != "" && (r.path.None? || !Contains(r.path.value, f.path)) then false
    else f.country == "" || r.country == Some(f.country)
  }

  predicate Matches(e: LocalEvent, f: Filters) {
    && (f.ip != "" ==> e.ip == f.ip)
    && (f.verb != "" ==> e.verb == f.verb)
    && (f.statusClass != "" ==> e.sc == f.statusClass)
    && (f.path != "" ==> Contains(e.path, f.path))
    && (f.country != "" ==> e.country == f.country)
  }

  function Filter(events: seq<LocalEvent>, f: Filters): seq<LocalEvent> {
    if events == [] then []
    else Filter(events[..|events| - 1], f) + (if Matches(events[|events| - 1], f) then [events[|events| - 1]] else [])
  }

  lemma RowAgrees(r: Request, now: int, f: Filters)
    ensures RowMatches(r, f) <==> (f.host == "" || r.host == Some(f.host)) && Matches(OnPage(r, now), f)
  {
    if f.path != "" && r.path.None? {
      assert !Contains("", f.path);
    }
    hide Contains;
  }

  // Rows with the time of their arrival, as the page records them.
  function Recorded(rows: seq<(Request, int)>): seq<LocalEvent> {
    if rows == [] then [] else Recorded(rows[..|rows| - 1]) + [OnPage(rows[|rows| - 1].0, rows[|rows| - 1].1)]
  }

  function Kept(rows: seq<(Request, int)>, f: Filters): seq<(Request, int)> {
    if rows == [] then []
    else Kept(rows[..|rows| - 1], f) + (if RowMatches(rows[|rows| - 1].0, f) then [rows[|rows| - 1]] else [])
  }

  /** The tiles count exactly the rows the table shows, once the socket only delivers the wanted host. */
  lemma {:induction false} TilesCountShownRows(rows: seq<(Request, int)>, f: Filters)
    requires f.host != "" ==> forall i | 0 <= i < |rows| :: rows[i].0.host == Some(f.host)
    ensures Filter(Recorded(rows), f) == Recorded(Kept(rows, f))
  {
    hide Matches, RowMatches;
    if rows != [] {
      var init, last := rows[..|rows| - 1], rows[|rows| - 1];
      TilesCountShownRows(init, f);
      RowAgrees(last.0, last.1, f);
      assert rows[|rows| - 1] == last;
      assert (Kept(init, f) + [last])[..|Kept(init, f)|] == Kept(init, f);
      assert Kept(rows, f) == if RowMatches(last.0, f) then Kept(init, f) + [last] else Kept(init, f);
      assert Recorded(rows)[..|Recorded(rows)| - 1] == Recorded(init);
    }
  }

  function Shift(events: seq<LocalEvent>, cutoff: int): seq<LocalEvent> {
    if events != [] && events[0].t < cutoff then Shift(events[1..], cutoff) else events
  }

  function OfClass(events: seq<LocalEvent>, sc: string): seq<LocalEvent> {
    if events == [] then []
    else OfClass(events[..|events| - 1], sc) + (if events[|events| - 1].sc == sc then [events[|events| - 1]] else [])
  }

  function LocalDurations(events: seq<LocalEvent>): seq<int> {
    if events == [] then []
    else
      LocalDurations(events[..|events| - 1]) +
      (if events[|events| - 1].d.Some? then [events[|events| - 1].d.value] else [])
  }

  function LocalIps(events: seq<LocalEvent>): set<string> {
    set i | 0 <= i < |events| :: events[i].ip
  }

  function LocalBytesOut(events: seq<LocalEvent>): int {
    if events == [] then 0 else LocalBytesOut(events[..|events| - 1]) + events[|events| - 1].bo
  }

  function LocalBytesIn(events: seq<LocalEvent>): int {
    if events == [] then 0 else LocalBytesIn(events[..|events| - 1]) + events[|events| - 1].bi
  }

  function LocalElapsed(events: seq<LocalEvent>): (r: real)
    ensures r > 0.0
  {
    if |events| >= 2
    then MaxReal((events[|events| - 1].t - events[0].t) as real / 1000.0, 0.5)
    else WINDOW_MS as real / 1000.0
  }

  function LocalSummary(matched: seq<LocalEvent>): Option<Metrics> {
    var n := |matched|;
    if n == 0 then None
    else
      var elapsed := LocalElapsed(matched);
      var c2, c3, c4, c5 := |OfClass(matched, "2xx")|, |OfClass(matched, "3xx")|, |OfClass(matched, "4xx")|, |OfClass(matched, "5xx")|;
      Some(Metrics(n, n as real / elapsed, c2 as real / elapsed, c3 as real / elapsed, c4 as real / elapsed, c5 as real / elapsed,
                   (c4 + c5) as real / n as real,
                   |LocalIps(matched)|, Upper(LocalDurations(matched)), LocalBytesOut(matched), LocalBytesIn(matched),
                   c2, c3, c4, c5))
  }

  function LocalMetrics(events: seq<LocalEvent>, f: Filters, now: int): Option<Metrics> {
    LocalSummary(Filter(Shift(events, now - WINDOW_MS), f))
  }

  // ---- filtering commutes with the window ----

  predicate LocalOrdered(events: seq<LocalEvent>) {
    forall i, j | 0 <= i < j < |events| :: events[i].t <= events[j].t
  }

  lemma {:induction false} FilterAppend(a: seq<LocalEvent>, b: seq<LocalEvent>, f: Filters)
    ensures Filter(a + b, f) == Filter(a, f) + Filter(b, f)
  {
    if b == [] {
      assert a + b == a;
    } else {
      FilterAppend(a, b[..|b| - 1], f);
      assert (a + b)[..|a + b| - 1] == a + b[..|b| - 1];
    }
  }

  lemma FilterOne(e: LocalEvent, f: Filters)
    ensures Filter([e], f) == if Matches(e, f) then [e] else []
  {
    hide Matches;
    assert [e][..0] == [];
  }

  lemma {:induction false} FilterTwice(events: seq<LocalEvent>, f: Filters)
    ensures Filter(Filter(events, f), NO_FILTERS) == Filter(events, f)
  {
    hide Contains;
    if events == [] {
    } else {
      var init, e := events[..|events| - 1], events[|events| - 1];
      FilterTwice(init, f);
      FilterOne(e, NO_FILTERS);
      FilterAppend(Filter(init, f), [e], NO_FILTERS);
      assert !Matches(e, f) ==> Filter(events, f) == Filter(init, f);
    }
  }

  lemma {:induction false} ShiftKeepsLate(events: seq<LocalEvent>, cutoff: int)
    requires forall i | 0 <= i < |events| :: events[i].t >= cutoff
    ensures Shift(events, cutoff) == events
  {
  }

  lemma {:induction false} FilterIsFrom(events: seq<LocalEvent>, f: Filters)
    ensures forall i | 0 <= i < |Filter(events, f)| :: Filter(events, f)[i] in events
  {
    hide Matches;
    if events == [] {
    } else {
      FilterIsFrom(events[..|events| - 1], f);
    }
  }

  lemma {:induction false} FilterShift(events: seq<LocalEvent>, f: Filters, cutoff: int)
    requires LocalOrdered(events)
    ensures Shift(Filter(events, f), cutoff) == Filter(Shift(events, cutoff), f)
  {
    hide Matches, Filter;
    if events != [] && events[0].t < cutoff {
      FilterShift(events[1..], f, cutoff);
      assert events == [events[0]] + events[1..];
      FilterAppend([events[0]], events[1..], f);
      FilterOne(events[0], f);
      ShiftPast(events[0], Filter(events[1..], f), cutoff);
    } else {
      FilterIsFrom(events, f);
      ShiftKeepsLate(Filter(events, f), cutoff);
    }
  }

  lemma ShiftPast(e: LocalEvent, rest: seq<LocalEvent>, cutoff: int)
    requires e.t < cutoff
    ensures Shift([e] + rest, cutoff) == Shift(rest, cutoff) && [] + rest == rest
  {
    assert ([e] + rest)[1..] == rest;
  }

  /** Metrics under a filter are the unfiltered metrics of the filtered events. */
  lemma FilterCommutes(events: seq<LocalEvent>, f: Filters, now: int)
    requires LocalOrdered(events)
    ensures LocalMetrics(events, f, now) == LocalMetrics(Filter(events, f), NO_FILTERS, now)
  {
    FilterShift(events, f, now - WINDOW_MS);
    FilterTwice(Shift(events, now - WINDOW_MS), f);
  }

  // ---- the page's buffer over whole runs ----

  datatype PageInput = Push(event: LocalEvent) | Tick(now: int)

  function PageTime(e: PageInput): int {
    match e
    case Push(event) => event.t
    case Tick(now) => now
  }

  function LocalRun(h: seq<PageInput>): seq<LocalEvent> {
    if h == [] then []
    else
      var before := LocalRun(h[..|h| - 1]);
      match h[|h| - 1]
      case Push(event) => before + [event]
      case Tick(now) => Shift(before, now - WINDOW_MS)
  }

  function LocalHistory(h: seq<PageInput>): seq<LocalEvent> {
    if h == [] then []
    else LocalHistory(h[..|h| - 1]) + (if h[|h| - 1].Push? then [h[|h| - 1].event] else [])
  }

  function PageAfter(cutoff: int): LocalEvent -> bool {
    (e: LocalEvent) => e.t >= cutoff
  }

  predicate PageMonotone(h: seq<PageInput>) {
    forall i, j | 0 <= i < j < |h| :: PageTime(h[i]) <= PageTime(h[j])
  }

  // Shifting a buffer in order is filtering it.
  lemma {:induction false} ShiftIsSince(s: seq<LocalEvent>, c: int)
    requires LocalOrdered(s)
    ensures Shift(s, c) == Since(s, PageAfter(c)) && LocalOrdered(Shift(s, c))
    ensures forall e | e in Shift(s, c) :: e in s
  {
    if s != [] && s[0].t < c {
      ShiftIsSince(s[1..], c);
      SinceAppend([s[0]], s[1..], PageAfter(c));
      assert s == [s[0]] + s[1..];
      assert Since([s[0]], PageAfter(c)) == [] && [] + Since(s[1..], PageAfter(c)) == Since(s[1..], PageAfter(c));
    } else {
      SinceAll(s, PageAfter(c));
    }
  }

  // The buffer is in order, no newer than the clock, and as good as the history for any window
  // that ends at or after the clock.
  ghost predicate Stands(w: seq<LocalEvent>, full: seq<LocalEvent>, clock: int) {
    && LocalOrdered(w) && (forall e | e in w :: e.t <= clock)
    && (forall c | c >= clock - WINDOW_MS :: Since(w, PageAfter(c)) == Since(full, PageAfter(c)))
  }

  lemma PushStands(w: seq<LocalEvent>, full: seq<LocalEvent>, event: LocalEvent)
    requires Stands(w, full, event.t)
    ensures Stands(w + [event], full + [event], event.t)
  {
    forall c | c >= event.t - WINDOW_MS
      ensures Since(w + [event], PageAfter(c)) == Since(full + [event], PageAfter(c))
    {
      SinceAppend(w, [event], PageAfter(c));
      SinceAppend(full, [event], PageAfter(c));
    }
  }

  lemma TickStands(w: seq<LocalEvent>, full: seq<LocalEvent>, now: int)
    requires Stands(w, full, now)
    ensures Stands(Shift(w, now - WINDOW_MS), full, now)
    ensures Shift(w, now - WINDOW_MS) == Since(full, PageAfter(now - WINDOW_MS))
  {
    hide LocalOrdered, Since, Shift;
    ShiftIsSince(w, now - WINDOW_MS);
    forall c | c >= now - WINDOW_MS
      ensures Since(Shift(w, now - WINDOW_MS), PageAfter(c)) == Since(full, PageAfter(c))
    {
      SinceTwice(w, PageAfter(now - WINDOW_MS), PageAfter(c));
    }
  }

  lemma {:induction false} BufferStands(h: seq<PageInput>, clock: int)
    requires PageMonotone(h) && forall i | 0 <= i < |h| :: PageTime(h[i]) <= clock
    ensures Stands(LocalRun(h), LocalHistory(h), clock)
  {
    hide Stands, Shift;
    if h == [] {
      NothingStands(clock);
    } else {
      var init, e := h[..|h| - 1], h[|h| - 1];
      BufferStands(init, PageTime(e));
      match e {
        case Push(event) => PushStands(LocalRun(init), LocalHistory(init), event);
        case Tick(now) =>
          TickStands(LocalRun(init), LocalHistory(init), now);
          assert LocalHistory(h) == LocalHistory(init);
      }
      StandsLater(LocalRun(h), LocalHistory(h), PageTime(e), clock);
    }
  }

  lemma NothingStands(clock: int)
    ensures Stands([], [], clock)
  {
  }

  lemma StandsLater(w: seq<LocalEvent>, full: seq<LocalEvent>, clock: int, later: int)
    requires Stands(w, full, clock) && clock <= later
    ensures Stands(w, full, later)
  {
    hide Since, LocalOrdered;
  }

  /** On the page too eviction is exact: at every tick, however pushes and earlier ticks fell, the
      metrics are those of the matching events of the past 30000 ms over the full history. */
  lemma TickIsExact(h: seq<PageInput>, f: Filters, now: int)
    requires PageMonotone(h + [Tick(now)])
    ensures LocalMetrics(LocalRun(h), f, now) == LocalSummary(Filter(Since(LocalHistory(h), PageAfter(now - 30000)), f))
  {
    hide Since, LocalSummary, Filter, Shift;
    var all := h + [Tick(now)];
    assert all[|h|] == Tick(now) && forall i | 0 <= i < |h| :: all[i] == h[i];
    BufferStands(h, now);
    TickStands(LocalRun(h), LocalHistory(h), now);
  }

  // ---- the two implementations against each other ----

  // The same event as each side records it: seconds there, milliseconds here.
  predicate SameEvent(s: Event, c: LocalEvent) {
    s.t == c.t as real / 1000.0 && s.sc == c.sc && s.d == c.d && s.bo == c.bo && s.bi == c.bi && s.ip == c.ip
  }

  predicate SameEvents(w: seq<Event>, m: seq<LocalEvent>) {
    |w| == |m| && forall i | 0 <= i < |w| :: SameEvent(w[i], m[i])
  }

  lemma {:induction false} SameTotals(w: seq<Event>, m: seq<LocalEvent>)
    requires SameEvents(w, m)
    ensures forall sc :: Count(w, sc) == |OfClass(m, sc)|
    ensures Durations(w) == LocalDurations(m)
    ensures BytesOut(w) == LocalBytesOut(m) && BytesIn(w) == LocalBytesIn(m)
  {
    if w == [] {
    } else {
      SameTotals(w[..|w| - 1], m[..|m| - 1]);
      assert SameEvent(w[|w| - 1], m[|m| - 1]);
    }
  }

  lemma SameIps(w: seq<Event>, m: seq<LocalEvent>)
    requires SameEvents(w, m)
    ensures |Ips(w)| == |LocalIps(m)| <==> "" !in LocalIps(m)
  {
    assert Ips(w) == LocalIps(m) - {""} by {
      forall ip
        ensures ip in Ips(w) <==> ip in LocalIps(m) && ip != ""
      {
        if ip in Ips(w) {
          var i :| 0 <= i < |w| && w[i].ip != "" && w[i].ip == ip;
          assert SameEvent(w[i], m[i]);
        }
        if ip in LocalIps(m) && ip != "" {
          var i :| 0 <= i < |m| && m[i].ip == ip;
          assert SameEvent(w[i], m[i]);
        }
      }
    }
  }

  lemma SameElapsed(w: seq<Event>, m: seq<LocalEvent>)
    requires SameEvents(w, m)
    ensures Elapsed(w) == LocalElapsed(m)
  {
    if |w| >= 2 {
      assert SameEvent(w[0], m[0]) && SameEvent(w[|w| - 1], m[|m| - 1]);
      assert (m[|m| - 1].t - m[0].t) as real == m[|m| - 1].t as real - m[0].t as real;
    }
  }

  /** Both sides record the same request as the same event; the page keeps its host too. */
  lemma RecordedAlike(r: Request, now: int)
    ensures SameEvent(OnServer(r, now as real / 1000.0), OnPage(r, now))
    ensures OnPage(r, now).host == match r.host case None => "" case Some(host) => host
  {
  }

  /** On the same window the page and the server report the same metrics if and only if the
      window is not empty and every event in it has an address. */
  lemma ImplementationsAgreeIff(w: seq<Event>, m: seq<LocalEvent>)
    requires SameEvents(w, m)
    ensures LocalSummary(m) == Some(Summary(w)) <==> m != [] && "" !in LocalIps(m)
  {
    hide Count, OfClass, Durations, LocalDurations, BytesOut, LocalBytesOut, BytesIn, LocalBytesIn, Ips, LocalIps;
    hide Elapsed, LocalElapsed, Upper, SameEvents;
    SameTotals(w, m);
    SameIps(w, m);
    SameElapsed(w, m);
    assert |w| == |m| by {
      SameLength(w, m);
    }
  }

  /** One request without an address: the page counts one unique address, the server none. */
  lemma MissingAddressDiffers()
    ensures var w, m := [Event(0.0, "2xx", None, 0, 0, "")], [LocalEvent(0, "2xx", None, 0, 0, "", "", "GET", "/", "")];
            && SameEvents(w, m) && LocalSummary(m).Some?
            && LocalSummary(m).value.uniqueIps == 1 && Summary(w).uniqueIps == 0
  {
    var w, m := [Event(0.0, "2xx", None, 0, 0, "")], [LocalEvent(0, "2xx", None, 0, 0, "", "", "GET", "/", "")];
    assert m[0].ip == "";
    assert LocalIps(m) == {""} && Ips(w) == {};
    hide Count, OfClass, Durations, LocalDurations, BytesOut, LocalBytesOut, BytesIn, LocalBytesIn, Ips, LocalIps;
    hide Elapsed, LocalElapsed, Upper;
  }

  lemma SameLength(w: seq<Event>, m: seq<LocalEvent>)
    requires SameEvents(w, m)
    ensures |w| == |m|
  {
  }

  // ---- the module's state, and the page's buffer ----

  class LiveWindow {
    var events: seq<Event>

    constructor ()
      ensures events == []
    {
      events := [];
    }

    method UpdateLiveCounters(r: Request, now: real)
      modifies this
      ensures events == old(events) + [OnServer(r, now)]
    {
      events := events + [OnServer(r, now)];
    }

    method GetLiveMetrics(now: real) returns (m: Metrics)
      modifies this
      ensures events == Evict(old(events), now - WINDOW)
      ensures m == Summary(events)
    {
      var cutoff := now - WINDOW;
      while events != [] && events[0].t < cutoff
        invariant Evict(events, cutoff) == Evict(old(events), cutoff)
        decreases |events|
      {
        events := events[1..];
      }
      m := Summary(events);
    }
  }

  class LocalBuffer {
    var events: seq<LocalEvent>

    constructor ()
      ensures events == []
    {
      events := [];
    }

    method Receive(r: Request, now: int)
      modifies this
      ensures events == old(events) + [OnPage(r, now)]
    {
      events := events + [OnPage(r, now)];
    }

    method ComputeLocalMetrics(f: Filters, now: int) returns (m: Option<Metrics>)
      modifies this
      ensures events == Shift(old(events), now - WINDOW_MS)
      ensures m == LocalMetrics(old(events), f, now)
    {
      var cutoff := now - WINDOW_MS;
      while |events| > 0 && events[0].t < cutoff
        invariant Shift(events, cutoff) == Shift(old(events), cutoff)
        decreases |events|
      {
        events := events[1..];
      }
      var matched := [];
      for k := 0 to |events|
        invariant matched == Filter(events[..k], f)
        invariant events == Shift(old(events), cutoff)
      {
        assert events[..k + 1][..k] == events[..k];
        if Matches(events[k], f) {
          matched := matched + [events[k]];
        }
      }
      assert events[..|events|] == events;
      m := LocalSummary(matched);
    }
  }
}
