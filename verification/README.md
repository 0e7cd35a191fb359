# cadsa: verified models of its stateful kernels

cadsa collects the access logs of a Caddy server, watches them for abuse, keeps them in an
analytics database and shows them on a dashboard. Most of it is plumbing. This project models the
parts that keep state over time or that two programs must agree on, and proves what they promise:
the dashboard's reconnecting WebSocket client, the sliding windows of the security engine, the
shared token refresh of the API client, the log tailer, the live metrics (computed twice, in Python
and in TypeScript), the analytics queries and roll-up jobs, the login state machine, the date
parameter that travels from the browser to the server, and the normalisation of addresses and hosts.

## How the models are built

Each component has one module. Its operations are functions on a state value, so that a run is a
fold over a sequence of events and a theorem speaks of every run. Where the source updates fields or
module variables, a class holds the same fields and each of its methods is proved equal to the
function (`Current() == After…(old(Current()))`); the theorems about runs then hold of the class.
An event that cannot be delivered in a state, such as a timer that is not armed, changes nothing.
`dafny verify dfyconfig.toml` checks the whole project.

Beside what each run keeps, every operation's outcome is pinned from the outside: by what the handlers
hear (`DeliveriesExact`), by what a call sends and when it ends (`FirstAnswerExact`, `ResumeExact`), by
each report's findings (`ReportExact`), by a metric's or a query's change for one more request
(`SummaryExact`, `OverviewExact`, `TimeseriesExact`), and by the answers of the login endpoints, read off
the earlier calls and answers alone (`AnswersExact`).

| file | component |
|---|---|
| Websocket.dfy | `CadsaWebSocket` and the browser objects it drives (readiness states as in section 3 of the WHATWG WebSockets Standard) |
| SlidingWindow.dfy, SecurityEngine.dfy | bounded queues with lazy expiry; rules, cleaner and evaluation |
| TokenRefresh.dfy | `_fetch`, `_doRefresh`, `initSession`; one step is the code between two awaits |
| LogWatcher.dfy, LogSessions.dfy | `LogFileHandler`, backfill, restart; any number of restarts |
| Median.dfy, LiveMetrics.dfy | rolling metrics of the server and of the page |
| Analytics.dfy | filters, overview, time series, minutely and hourly roll-up |
| FormEncoding.dfy, DateParam.dfy | query strings; the date parameter end to end |
| LogParser.dfy | `clean_ip`, `clean_host` |
| Text.dfy, Numbers.dfy, Wrappers.dfy | string operations, order on numbers, the optional value |

## What holds only under a condition

Several promises turn out to hold exactly when a condition does. Each is an if-and-only-if below,
with a run or an input at which it fails.

- The client has one way forward at every moment of a run if and only if every second `connect` is
  made while a socket is connecting or open, or a deferred connect is armed (`AlwaysOwnedIff`, state
  by state `ConnectKeepsOwnershipIff`). The page's alternating calls always are.
- A `disconnect` silences the client until the next `connect` if and only if it was safe to make
  (`SilentAfterDisconnectIff`): with the deferred connect armed, no reconnect timer is and the
  current socket is closed; otherwise no reconnect timer is armed but the one the client knows. A
  disciplined client always is safe. Of two ways to fail, `UndisciplinedConnectLeaks` connects again
  during the reconnect delay, and a timer opens a socket after `disconnect`; `ClosingSocketSpeaks`
  connects while the socket is closing, and its close event calls a status handler afterwards.
- The rate-limit event is exact if and only if the threshold is at most 1000, the size of the queue,
  or the count is below it (`RateLimitExactIff`); `BurstEscapes` is a burst of 1001 requests, or any
  larger number, that meets its threshold unseen. The source comment says more than 300 requests;
  the code fires at the configured threshold itself.
- The 404-path rule says "per hour", but its set of paths has no window. It never misses an hourly
  scan, wherever the cleaner ran, and it is exact unless the paths of the past hour number at most 50
  while those not forgotten number more (`PathRuleHourlyIff`); `SlowScanFires` is a scan of one path
  an hour. It is the one rule to which the cleaner is visible: `CleanupForgetsPathsIff` says when it
  forgets, `CleanupSilencesScan` shows an event a cleanup takes away. The engine's header speaks of
  15 rules; there are 11.
- The unauthorized handler is safe through session starts if and only if they come one at a time and
  nothing is registered during one (`HandlerSafeIff`, event by event `StepKeepsHandlerIff`). Of two
  overlapping starts the second restores nothing (`OverlappingStartsLoseHandler`); a handler
  registered while one start waits is overwritten (`LateRegistrationIsLost`).
- The tailer ingests the lines of the bytes delivered, each once, if and only if every rotation is
  observed in time and no read ends inside a line (`ExactlyOnceIff`). It recognises a rotation only
  by a shorter file: it loses nothing to rotations exactly when each first read after one sees a
  shorter file or only blanks before the old offset (`TailMatchesPipeIff`); `LongRotationLoses` is a
  rotation to a file that has outgrown the offset, such as `LongRotationExample`. It keeps no partial line: a cut is harmless
  exactly when one side of it is blank (`LinesAppendIff`); `HalfLinesComeApart` reads between two
  halves of a line.
- A restart is exact exactly when every missing in-window line is newer than everything stored
  (`RestartExactIff`); strictly increasing timestamps suffice, over any number of restarts
  (`SessionsExactlyOnce`). `SameInstantIsLost` splits two lines of one timestamp by a restart,
  such as `SameInstantExample`.
- The page and the server agree on unique addresses exactly when no event lacks one, and the page
  reports nothing for an empty window (`ImplementationsAgreeIff`, `MissingAddressDiffers`). A comment
  in the server says the elapsed time is at least one second; the code says half a second, and so
  does the model.
- The server's path filter is a LIKE pattern, the page's a substring test; they agree exactly for
  filter texts without percent sign and underscore (`PathFilterIsContainsIff`, which constructs a
  differing path for every other text).
- Minute rows add up to the hour row exactly when each minute was aggregated after its last insert
  (`RollUpAgreesIff`); `LateRequestIsMissed` stores a request after its minute's job. Unique
  addresses do not add up, but are bounded both ways (`RollUpIpsBounds`).
- The second factor is required from a user's confirmation until the next set-up
  (`SecondFactorRequired`); a set-up suspends it until confirmed (`SetupSuspendsFactor`).
- A picked day comes back as that day exactly when its year has four digits and it ends by the year
  9999, or the last 24 hours happen to be it (`DayRoundTripIff`): the browser does not pad the year,
  and its Date constructor reads years below 100 as 19xx. `Year999IsLost` is 13 June 999.
- `clean_ip` is idempotent on every rendering of an address. On an arbitrary text it is if and only
  if the part it keeps is empty, or opens with neither a second bracket nor a blank and does not end
  in a blank (`CleanTwiceIff`); `TwoBracketsCleanTwice` is "[[a".
- `clean_host` strips a final dot, except one that a port follows (`HostCleansIff`,
  `QualifiedHostWithPort`).

## Assumptions

- Clocks never run backwards, where a statement requires `Monotone` or `PageMonotone`. The lockout needs no such assumption.
- Each endpoint call, each evaluation, each cleanup, each job and each stretch of code between two
  awaits is one atomic step.
- Password hashes, one-time codes, backup-code verification and new random tokens are given by the
  call; only `EachPairSpendsItsOwnPartial` needs that no partial token is drawn twice (`Fresh`). All
  users exist from the start of a run, without failures where a statement requires `AreNew`.
- Newline is the only line separator; blanks are the six ASCII ones.
- Over restarts (`WellKept`), reads see whole lines, rotations while the program is up are observed in
  time, the retention window only moves forward, every ingested line is stored, and a line's
  timestamp does not depend on its indentation.
- Threat patterns, user-agent patterns and the timestamp pattern are uninterpreted; a row reaches the
  engine with its path and user agent in lower case and its method in upper case.
- Rates are exact rationals, times integers of microseconds (milliseconds on the page).
- Texts in query strings are bytes, after UTF-8 encoding; case mapping is ASCII.

## Model

| member | source | states |
|---|---|---|
| Websocket.OwnershipOverRuns | frontend/src/lib/websocket.ts:20-116 | in every disciplined run an active client has exactly one armed timer or current socket still to close, an inactive one none; every other socket is closing or closed; one ping interval at most, exactly while the current socket has opened and not closed |
| Websocket.AlternationIsDisciplined | frontend/src/pages/RealTime.tsx:297-344 | one connect per mount and one disconnect per unmount suffice for the ownership property |
| Websocket.AlwaysOwnedIff | frontend/src/lib/websocket.ts:20-116 | over any run whatsoever the ownership property holds at every moment if and only if each connect was made while inactive, or found the socket connecting or open or the deferred connect armed |
| Websocket.ConnectKeepsOwnershipIff | frontend/src/lib/websocket.ts:20-33 | the same for one connect from any state the invariant allows |
| Websocket.UndisciplinedConnectLeaks | frontend/src/lib/websocket.ts:71-74 | a concrete run: a second connect during the reconnect delay gives two ways forward, and after disconnect the old timer still creates a socket |
| Websocket.WayForwardReconnects | frontend/src/lib/websocket.ts:66-82 | an active client is never stuck: its one way forward, when it comes about, starts a socket connecting or arms the reconnect that will |
| Websocket.SilentAfterDisconnectIff | frontend/src/lib/websocket.ts:90-116 | for any run, disciplined or not: whatever follows a disconnect until the next connect, nothing more is observed, no socket, timer, ping or handler call, if and only if with the deferred connect armed no reconnect is and the current socket is closed, and otherwise no reconnect is armed but the known one |
| Websocket.SilentAfterDisconnect | frontend/src/lib/websocket.ts:90-116 | a disciplined client is inert after disconnect until the next connect: besides the silence it holds no timer, no interval and no socket |
| Websocket.ClosingSocketSpeaks | frontend/src/lib/websocket.ts:94-98 | a concrete run: a connect while the socket is closing, undone at once, leaves that socket attached, and its close event calls a status handler |
| Websocket.BackoffOverRuns | frontend/src/lib/websocket.ts:45-75 | in every run each reconnect delay is 1000 ms doubled once per attempt since a connection last opened, at most 30000 ms |
| Websocket.DeliveriesExact | frontend/src/lib/websocket.ts:45-76 | in every run the handlers are called for exactly the payloads received on the open socket that is current, in order, each once; one pong goes out per ping received there and per interval that fires while it is open, none for a malformed frame; status handlers hear of exactly its openings and closings |
| Websocket.ErrorOnlyCloses | frontend/src/lib/websocket.ts:78-81 | in every run an error event starts closing the current socket, unless it is closing or closed, and changes nothing else; on any other socket it changes nothing |
| Websocket.CadsaWebSocket.Connect | frontend/src/lib/websocket.ts:20-33 | the fields and the browser change as the transition function of connect says |
| Websocket.CadsaWebSocket.OnClose | frontend/src/lib/websocket.ts:66-76 | notifies, stops the ping and arms the reconnect if wanted, for the current socket only |
| Websocket.CadsaWebSocket.Disconnect | frontend/src/lib/websocket.ts:90-116 | all four cases of teardown, with the early return that leaves the reconnect timer alone |
| Websocket.CadsaWebSocket.Deliver | frontend/src/lib/websocket.ts:45-81 | every browser event changes the objects exactly as the transition system steps, so all results above hold of the class |
| SlidingWindow.ArrivalKeepsTracks | backend/core/security_engine.py:98-101 | a bounded queue that tracks a history from some time on tracks the longer history after one append and expiry |
| SlidingWindow.ExpireIsSince | backend/core/security_engine.py:187-190 | popping old entries from the left of an ordered queue leaves exactly the entries not older than the cutoff |
| SlidingWindow.WindowDrop | backend/core/security_engine.py:193-201 | a window whose newest entry is past the cutoff can be forgotten without any later evaluation noticing |
| SecurityEngine.RunRefines | backend/core/security_engine.py:86-201 | after any run every per-address and per-host queue tracks that address's or host's full history |
| SecurityEngine.WindowsAreRecentHistory | backend/core/security_engine.py:98-101 | after each evaluation the queue is the last min(1000, k) of the k request times of the past minute, and after a login post the last min(100, k) posts of the past hour |
| SecurityEngine.ReportExact | backend/core/security_engine.py:86-184 | in every run every report holds exactly the findings due, for each of the eleven rules if and only if its condition on the request and the counts holds, in rule order, with severity, time, address, host and measure; the counts are those of the history, up to the size of the queues |
| SecurityEngine.CleanupInvisible | backend/core/security_engine.py:193-201 | deleting every cleanup from a run changes no finding of any rule but the 404-path rule |
| SecurityEngine.CleanupPlacementIrrelevant | backend/core/security_engine.py:193-201 | two runs of the same requests agree on those findings, wherever and however often the cleaner ran in each |
| SecurityEngine.RateLimitExactIff | backend/core/security_engine.py:119-126 | the event agrees with the true count of the past minute if and only if the threshold is at most 1000 or the count is below it |
| SecurityEngine.BurstEscapes | backend/core/security_engine.py:15-15 | for every threshold above 1000 a burst of that many requests at one instant fires no event |
| SecurityEngine.VolumeRulesExact | backend/core/security_engine.py:148-174 | the empty-agent and method-abuse events fire if and only if the true count of the past minute says so; the cap never shows |
| SecurityEngine.LoginRuleExact | backend/core/security_engine.py:161-170 | the login event fires if and only if this is a login post and more than ten fell in the past hour |
| SecurityEngine.HourIsRemembered | backend/core/security_engine.py:152-159 | in every monotone run, wherever the cleaner ran, no 404 path of the past hour is forgotten |
| SecurityEngine.PathRuleHourlyIff | backend/core/security_engine.py:152-159 | the 404 event never misses an hourly scan, and agrees with the hourly rule if and only if not (a 404, at most 50 paths in the past hour, more than 50 not forgotten) |
| SecurityEngine.SlowScanFires | backend/core/security_engine.py:153-155 | a concrete run: a scan of one path an hour fires the event from the 51st path on, though the past hour holds a single path |
| SecurityEngine.CleanupSilencesScan | backend/core/security_engine.py:196-200 | a concrete run: one cleanup before the last path of such a scan, and the event that would fire without it does not |
| SecurityEngine.CleanupForgetsPathsIff | backend/core/security_engine.py:196-200 | a cleanup changes the remembered paths of an address if and only if there are some and it has been idle for over an hour |
| SecurityEngine.Engine.Evaluate | backend/core/security_engine.py:86-184 | the queues end as the window functions say and the findings are those of the eleven rules, in order, on the windows' lengths |
| SecurityEngine.Engine.Cleanup | backend/core/security_engine.py:193-201 | the deletion loop removes exactly the stale addresses from the three maps and leaves the host map |
| SecurityEngine.ExpireWindow | backend/core/security_engine.py:187-190 | the loop leaves the queue without its expired prefix, which for a queue in order is the entries of the span |
| TokenRefresh.SingleFlightOverRuns | frontend/src/lib/api.ts:57-59 | in every interleaving the shared promise names the one unsettled refresh and is empty when there is none; every waiter's refresh exists; every waiter was told how its refresh settled |
| TokenRefresh.AtMostOneInFlight | frontend/src/lib/api.ts:109-138 | two refreshes are never in flight together |
| TokenRefresh.WaitersAgree | frontend/src/lib/api.ts:110-137 | all tasks that waited for one refresh got the same result |
| TokenRefresh.CallsAreBounded | frontend/src/lib/api.ts:140-169 | N calls send at most 2N resource requests and N refreshes and take at most 6N effective steps, under any interleaving |
| TokenRefresh.NeverStuck | frontend/src/lib/api.ts:96-169 | while a call is unfinished some event of the network or the event loop moves that call, or settles or advances the refresh it waits for |
| TokenRefresh.CallSends | frontend/src/lib/api.ts:140-148 | in every run a call sends its first request with the access token in force, the last one stored and not cleared since |
| TokenRefresh.FirstAnswerExact | frontend/src/lib/api.ts:150-169 | a first answer makes the call wait for the one unsettled refresh the shared promise names, started with the refresh token in force if there was none, if and only if it is a 401 and a refresh token is held; every other answer ends the call with its status and sends nothing |
| TokenRefresh.ResumeExact | frontend/src/lib/api.ts:150-163 | after a good refresh the second request carries the access token in force at that moment; after a bad one the call ends as expired and the handler in force is called |
| TokenRefresh.LastAnswerExact | frontend/src/lib/api.ts:148-169 | the second answer, or a network failure at either request, ends the call: there is no third request |
| TokenRefresh.SessionStartExact | frontend/src/lib/api.ts:96-105 | a session start answers false at once without a refresh token, otherwise how the refresh it waited for settled |
| TokenRefresh.RefreshSettles | frontend/src/lib/api.ts:115-137 | a refresh settles well if and only if its answer was good and its body held a token, badly if and only if the answer was bad, the body had none or the network failed |
| TokenRefresh.StepKeepsHandlerIff | frontend/src/lib/api.ts:96-105 | one event keeps the handler muted during the one waiting start and otherwise in force if and only if no start waits or the event is neither a registration nor a session start with a token |
| TokenRefresh.HandlerSafeIff | frontend/src/lib/api.ts:96-105 | over a whole run the handler is safe at every moment if and only if starts came one at a time and none was registered during one |
| TokenRefresh.HandlerSurvivesStart | frontend/src/lib/api.ts:98-103 | then the handler in force is the last one registered, or none while a start waits |
| TokenRefresh.OverlappingStartsLoseHandler | frontend/src/lib/api.ts:100-103 | a concrete run: of two overlapping starts the second saves the muted handler and restores nothing |
| TokenRefresh.LateRegistrationIsLost | frontend/src/lib/api.ts:66-68 | a concrete run: a handler registered while a start waits is overwritten by the one before |
| TokenRefresh.ApiClient.DoRefresh | frontend/src/lib/api.ts:109-138 | up to its first await: no token gives false, a refresh in flight is joined, otherwise one is started and shared |
| TokenRefresh.ApiClient.ResumeTask | frontend/src/lib/api.ts:152-161 | after the refresh: a second request with the new token, or the unauthorized handler; a session start restores its handler |
| TokenRefresh.ApiClient.Deliver | frontend/src/lib/api.ts:96-169 | every event changes the variables exactly as the transition system steps |
| LogWatcher.LinesAppendIff | backend/core/log_watcher.py:69-77 | cutting a text anywhere leaves its lines if and only if what precedes the cut on its line or what follows it is blank; otherwise it makes exactly one line too many |
| LogWatcher.SkippingLosesNothingIff | backend/core/log_watcher.py:64-72 | reading from an offset yields the same lines as reading from the start if and only if all before the offset is blank |
| LogWatcher.TailMatchesPipeIff | backend/core/log_watcher.py:61-81 | for any writes, rotations and notifications, the tailer ingests what a reader that knows of every rotation would if and only if each first read after a rotation was safe; otherwise strictly less |
| LogWatcher.LongRotationLoses | backend/core/log_watcher.py:64-67 | a rotation to a file that has reached the old offset by the next read loses what it holds before the offset |
| LogWatcher.ExactlyOnceIff | backend/core/log_watcher.py:61-81 | for any writes, rotations and notifications, the lines ingested are the non-blank lines of the bytes delivered, in order, each once, if and only if every rotation was observed in time and no read ended inside a line |
| LogWatcher.HalfLinesComeApart | backend/core/log_watcher.py:69-74 | a line written in two halves with a read between them comes out as two |
| LogWatcher.GrowingFileExactlyOnceIff | backend/core/log_watcher.py:48-81 | for a growing file, whatever notifications are missed, repeated or delayed, they are the non-blank lines between the starting and the current offset if and only if no read ended inside a line |
| LogWatcher.BackfillThenTailIff | backend/core/log_watcher.py:85-166 | a session ingests the kept lines of the file as found, then each line delivered later once, if and only if every rotation was observed in time and no read ended inside a line |
| LogWatcher.BackfilledByLine | backend/core/log_watcher.py:93-112 | the backfill passes over a line if and only if it has no timestamp, is older than the cutoff, or is no newer than the last stored one |
| LogWatcher.RestartExactIff | backend/core/log_watcher.py:99-112 | a restart ingests exactly the missing in-window suffix if and only if each of its in-window lines is newer than everything stored |
| LogWatcher.IncreasingRestartExact | backend/main.py:86-98 | strictly increasing timestamps make every restart exact |
| LogWatcher.SameInstantIsLost | backend/core/log_watcher.py:105-107 | a missing in-window line no newer than a stored one is lost at the restart |
| LogSessions.SessionsExactlyOnce | backend/core/log_watcher.py:123-170 | over any number of runs, whatever was written or rotated while the program was down, with strictly increasing timestamps, what is ingested equals what a program that remembers all it has read would ingest; no timestamp twice, and every line read that is still in the window is stored |
| LogWatcher.LogFileHandler.ReadNewLines | backend/core/log_watcher.py:61-81 | one notification moves the cursor to the end and schedules the non-blank lines from the cursor, or from the start of a shorter file |
| LogWatcher.LogFileHandler.Backfill | backend/core/log_watcher.py:85-118 | schedules exactly the dated lines in the window and newer than the last stored one, and its three counters partition the dated lines |
| Median.UpperSplitsInHalf | backend/core/ingestion.py:177-178 | the reported P50 has at least half of the values on each side |
| Median.SortedKeeps | backend/core/ingestion.py:177-177 | sorting orders the values and keeps them all |
| LiveMetrics.PollIsExact | backend/core/ingestion.py:146-154 | every poll, in any interleaving with updates, summarises exactly the full history of the past 30 seconds |
| LiveMetrics.PollingIsUnobservable | backend/core/ingestion.py:146-154 | two runs with the same updates report the same wherever their earlier polls fell |
| LiveMetrics.SummaryExact | backend/core/ingestion.py:135-204 | the report request by request: zeros for an empty window, and one more request moves each counter, address count, byte sum and the durations by exactly what it holds; each rate times the elapsed time is its counter |
| LiveMetrics.ReportBounds | backend/core/ingestion.py:157-178 | elapsed lies between 0.5 and 30, the rate is the count over it, classes sum to at most the total, the error rate is a fraction, P50 splits the durations |
| LiveMetrics.FilterCommutes | frontend/src/pages/RealTime.tsx:51-94 | metrics under a filter are the unfiltered metrics of the filtered events, eviction included |
| LiveMetrics.TilesCountShownRows | frontend/src/pages/RealTime.tsx:96-104 | once the socket delivers only the wanted host, the events the metrics count under a filter are exactly the rows the table shows under it, as recorded |
| LiveMetrics.TickIsExact | frontend/src/pages/RealTime.tsx:51-64 | at every tick, in any interleaving with received rows, the page reports on the matching events of the past 30000 ms over its full history |
| LiveMetrics.RecordedAlike | frontend/src/pages/RealTime.tsx:304-315 | page and server record the same request as the same event, null fields included |
| LiveMetrics.ImplementationsAgreeIff | frontend/src/pages/RealTime.tsx:66-93 | on the same window page and server report the same metrics if and only if it is not empty and every event has an address |
| LiveMetrics.MissingAddressDiffers | backend/core/ingestion.py:181-181 | one request without an address: the page counts one unique address, the server none |
| LiveMetrics.LiveWindow.GetLiveMetrics | backend/core/ingestion.py:146-204 | the eviction loop drops exactly the expired prefix; the metrics are those of what is left |
| LiveMetrics.LocalBuffer.ComputeLocalMetrics | frontend/src/pages/RealTime.tsx:51-94 | shifts the expired prefix out of the page's buffer in place and summarises the matching events |
| Analytics.BuildWhere | backend/db/duckdb_manager.py:229-240 | the condition list built step by step selects exactly the rows in the range that match every given filter |
| Analytics.PathFilterIsContainsIff | backend/db/duckdb_manager.py:238-238 | the LIKE filter means substring if and only if the text has no percent sign and no underscore |
| Analytics.GroupsPartition | backend/db/duckdb_manager.py:286-302 | over distinct keys that cover the rows, group totals add up to the whole and unique addresses are at most their sum |
| Analytics.TimeseriesConserves | backend/db/duckdb_manager.py:243-313 | for any table, range, filter and width the buckets add up to the overview in every additive column, unique addresses lie between each bucket's count and the sum, buckets ascend |
| Analytics.TimeseriesExact | backend/db/duckdb_manager.py:286-313 | each bucket starts a whole number of widths from 2000-01-03, holds a request, and says in every modelled column exactly what the overview says of its window; every request in range and filters lies in a bucket |
| Analytics.OverviewExact | backend/db/duckdb_manager.py:243-276 | the overview request by request: zeros for no requests, no change for a request outside range or filters, and otherwise each column, the error rate and the unique addresses move by exactly what the request holds |
| Analytics.OverviewErrorRate | backend/db/duckdb_manager.py:253-258 | the error rate is the share of the 4xx and 5xx counts, and the four classes are disjoint |
| Analytics.TablesOverRuns | backend/db/duckdb_manager.py:1050-1079 | over any run of inserts and jobs a statistics row never overstates its period, and is exact if and only if the job ran after the period's last insert |
| Analytics.StatsRowIsOverviewIff | backend/db/duckdb_manager.py:1050-1079 | in every run a minute or hour row of a host says what the overview of that host and period says, in every additive column, if and only if the job ran after the last insert; a settled row agrees on unique addresses too |
| Analytics.RollUpAgreesIff | backend/scheduler.py:59-90 | once the hour is settled its sixty minute rows add up to it in every additive column if and only if each minute was aggregated after its last insert for that host |
| Analytics.LateRequestIsMissed | backend/db/duckdb_manager.py:1054-1055 | a concrete run: a request stored after its minute was aggregated is in the hour row and in no minute row |
| Analytics.RollUpIpsBounds | backend/db/duckdb_manager.py:1075-1075 | a settled hour counts at least as many unique addresses as each of its minute rows and, once all minutes are settled, at most their sum |
| Analytics.JobsIdempotent | backend/db/duckdb_manager.py:1054-1079 | running either job again in the same minute or hour, with no request inserted in between, changes nothing |
| Analytics.ReplacesIff | backend/db/duckdb_manager.py:1060-1079 | said row by row: the wanted hosts with requests in the period just ended have exactly their totals and unique addresses there, every other row is as it was; that determines the new table |
| Analytics.Warehouse.AggregateMinutely | backend/db/duckdb_manager.py:1050-1079 | every wanted host with requests in the minute just ended has its exact statistics row, every other minutely row, the requests and the hourly table are unchanged |
| Analytics.Warehouse.RunHourly | backend/scheduler.py:66-92 | every host with requests in the hour just ended has its exact statistics row, every other hourly row, the requests and the minutely table are unchanged |
| Analytics.Warehouse.Deliver | backend/db/duckdb_manager.py:172-188 | every insert and every job changes the database exactly as the transition system steps |
| IsoTime.IsoOrder | backend/db/sqlite_manager.py:467-468 | text order of the stored UTC timestamps is time order for years 1 to 9999, also where a zero microsecond field is left out |
| Login.AnswersExact | backend/api/auth.py:121-315 | in every run each endpoint answers exactly what the talk so far promises: lock from ten wrong passwords for 15 minutes after the last, refusal of unknown and inactive users and wrong passwords, a pair or a partial token by the second factor's state, a pair for a live partial token and a right code, access for a good refresh token of an active user |
| Login.TwoFactorAnswer | backend/api/auth.py:174-220 | a partial token not yet presented and at most 300 seconds old gets its owner a pair if and only if the one-time code is right or no confirmed second factor asks for one; every other call is refused |
| Login.LockoutOverRuns | backend/api/auth.py:130-146 | in every run the counter is the wrong passwords since the last pair, and from the tenth on the next counted one comes at least 15 minutes after the last |
| Login.EachPairSpendsItsOwnPartial | backend/api/auth.py:100-116 | each pair issued by the second-factor or backup-code endpoint spends a partial token made for that user by a right password at most 300 seconds before and presented by no call since; with tokens never drawn twice, no other pair spends it |
| Login.BackupCodesConserved | backend/db/sqlite_manager.py:201-225 | codes left and codes used since the last confirmation are together exactly the codes stored then |
| Login.SecondFactorRequired | backend/api/auth.py:187-240 | from a confirmation until the next set-up, every pair issued to the user answers a second-factor call with a right one-time code or a backup-code call whose code one of the stored codes accepts |
| Login.SetupSuspendsFactor | backend/api/auth.py:150-163 | after a set-up and until it is confirmed, the password alone gives a pair |
| Login.RefreshValidIff | backend/db/sqlite_manager.py:230-263 | a token validates, by text comparison, if and only if it was given out, no logout named it since, and it is under seven days old |
| Login.AuthService.RecordLoginFailure | backend/db/sqlite_manager.py:183-198 | counts the failure and, from the tenth, locks for 15 minutes |
| Login.AuthService.ConsumeBackupCode | backend/db/sqlite_manager.py:201-225 | the loop removes the first stored code that accepts, and only that one |
| Login.AuthService.PasswordLogin | backend/api/auth.py:122-171 | lock, activity, password and second-factor branches in source order |
| Login.AuthService.TwoFactorLogin | backend/api/auth.py:175-220 | the partial token is spent before anything else; without confirmed second factor no code is asked for |
| Login.AuthService.BackupCodeLogin | backend/api/auth.py:224-247 | a pair needs a live partial token and an accepted code |
| Login.AuthService.RefreshAccess | backend/api/auth.py:251-261 | access for a valid token of an active user, refusal otherwise, and no change of state |
| Login.AuthService.Deliver | backend/api/auth.py:121-315 | every endpoint call changes the tables and answers exactly as the transition system does |
| FormEncoding.DecodeEncode | frontend/src/lib/api.ts:231-245 | form decoding undoes form encoding on every byte string |
| FormEncoding.ParseSerialize | frontend/src/lib/api.ts:245-245 | the server parses back exactly the pairs the browser serialised, in order |
| FormEncoding.GetPut | frontend/src/lib/api.ts:234-244 | a name reads as what was last set, every other name as before |
| DateParam.BuildParams | frontend/src/lib/api.ts:231-246 | the query string built in place is the serialised parameter list of mode, filters and extras |
| DateParam.ServerReadsMode | frontend/src/lib/api.ts:232-245 | whatever filters and extras go along, the server reads the period or date the browser sent and nothing under the other name |
| DateParam.ServerReadsFilters | backend/api/analytics.py:18-33 | the server reads each of the six filters under its own name exactly as the browser holds it, an empty one as absent |
| DateParam.DayReadsBackIff | frontend/src/lib/date-range.ts:39-49 | the printed day parses to that day, midnight and offset if the year has four digits, and to nothing otherwise |
| DateParam.WrittenDayReads | backend/api/dependencies.py:86-96 | any text of a four-digit year and two-digit fields is read as the 24 hours from its instant on if and only if it is a calendar day, a time of day and an offset below 24 hours and the day lies within the years 1 to 9999 |
| DateParam.DayRoundTripIff | backend/api/dependencies.py:86-98 | for every date, offset, filters and clock, the resolved range is the 24 hours from that local midnight if and only if the year has four digits and the day ends by 9999, or from the year 100 on the fallback is that day (section 5.6 of RFC 3339 gives the text) |
| DateParam.UnpaddedYearIsLost | frontend/src/lib/date-range.ts:46-49 | every day of the years 100 to 999 comes back as the last 24 hours |
| DateParam.CenturyIsAdded | frontend/src/lib/date-range.ts:39-49 | every day of the years 1 to 99 comes back as that day of the years 1901 to 1999 |
| DateParam.Year999IsLost | frontend/src/lib/date-range.ts:46-49 | a concrete input: 13 June 999, asked for in January 2024 |
| DateParam.PresetRoundTrip | backend/api/dependencies.py:65-98 | every preset passes the pattern of the period parameter and resolves to its own span up to now |
| DateParam.EveryRangeCharts | backend/api/dependencies.py:64-98 | whatever period and date arrive, the range is 15 to 60 whole buckets and the granularity label fits the bucket |
| LogParser.CleanInvertsRender | backend/core/log_parser.py:99-115 | bare, zoned (section 11 of RFC 4007), bracketed, bracketed and zoned, with port (section 3.2.2 of RFC 3986): every rendering of an address, blanks around it, cleans to the address |
| LogParser.RenderedIsStable | backend/core/log_parser.py:99-115 | cleaning the result of any rendering again changes nothing |
| LogParser.CleanTwiceIff | backend/core/log_parser.py:99-115 | for every text, cleaning twice is cleaning once if and only if the part kept, the trimmed text less one opening bracket up to the cut, is empty or opens with neither bracket nor blank and does not end in a blank |
| LogParser.TwoBracketsCleanTwice | backend/core/log_parser.py:104-105 | a concrete input: "[[a" cleans to "[a", and that to "a" |
| LogParser.ResultsArePlain | backend/core/log_parser.py:106-114 | the results are exactly the texts without closing bracket, without percent sign and with no colon or several |
| LogParser.CleanIp | backend/core/log_parser.py:99-115 | the step-by-step rebinding computes the composition the lemmas speak of |
| LogParser.HostCleansIff | backend/core/log_parser.py:85-96 | every rendering of a host cleans to it in lower case if and only if no final dot is followed by a port |
| LogParser.QualifiedHostWithPort | backend/core/log_parser.py:87-95 | a concrete input: "a.:80" keeps its final dot |
| LogParser.CleanHost | backend/core/log_parser.py:85-96 | the step-by-step rebinding computes the composition the lemma speaks of |

## Left out

- WebSocket handler lists, URL and token, JSON: a delivery to the handlers is one logged action, and a frame is a ping, malformed or a payload.
- Local storage of the refresh token: only its value at page start enters the model.
- Races inside one endpoint, or between the cleaner's thread and an evaluation: every call is one atomic step.
- File errors and exceptions in the log watcher, and UTF-8 replacement of bad bytes: reads succeed, and a line is a string of bytes.
- The per-host request window: it is kept and refined as the source does, but no rule reads it.
- Percentile and median columns of the statistics tables and of the overview: they are not additive.
- LogSessions.SessionsExactlyOnce: says nothing of runs with a read inside a line or a rotation seen too late; what those do to one session is `ExactlyOnceIff`.
- purge_old_data: deletes old rows; the roll-up results are about runs without it.
- Rounding of rates and error rates to two and four decimals.
- 32-bit integer columns of the statistics tables: counts are unbounded.
- Change of password, creation of users and the audit log: they do not touch the counters, tokens and codes.
- JWT, argon2, pyotp, SHA-256 and random tokens: foreign libraries, taken as given by the event.
- DateParam.DayReadsBackIff: datetime.fromisoformat accepts more formats; the browser's texts have a year of one to six digits and are either of the modelled form or of none.
- DateParam.DayRoundTripIff: years below 1, which a browser date can have and Python's datetime cannot, and local days without a midnight are not modelled.
- The 422 answer to a malformed period: the presets all pass (`PresetRoundTrip`), so the browser never gets it.
- Top-N, geography, browser and security queries, the alert engine, log discovery, GeoIP, user-agent parsing and the React pages: the same query shapes again, external data, or user interface.
