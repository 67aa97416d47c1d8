# DTSYS: verified models of its stateful core

DTSYS manages a fleet of devices: a Go agent on each device, a Python server, and a
web frontend. This project models the parts whose correctness is a statement about
whole runs, in Dafny, and proves those statements for all inputs, all runs or all
interleavings. `dafny verify dfyconfig.toml` checks everything.

| file | what it models |
|---|---|
| `EventDeduper.dfy` | the agent's event filter: bounded, expiring per-source caches with a FIFO of slots |
| `Transport.dfy`, `SendAccounting.dfy`, `Teardown.dfy` | the agent's outbound transport: senders, write pumps, read loop, teardown, drain, reconnect |
| `Backoff.dfy` | the transport's reconnect delay |
| `RateLimiter.dfy` | the agent's fixed-window event limiter, and its double application on Windows |
| `Winget.dfy` | the splitter for rows of the winget table |
| `SseCodec.dfy` | the server's event stream writer and the browser's chunk-by-chunk reader |
| `Csv.dfy` | the CSV export, against a reader after section 2 of RFC 4180 |
| `CronField.dfy`, `CronSearch.dfy` | the schedule preview: field semantics, expression semantics, bounded search |
| `Alerts.dfy`, `AlertTriggers.dfy`, `AlertRows.dfy` | the alert and device tables under telemetry, NTP, crash, command-result, sweep, manual and retention steps |
| `Commands.dfy` | the command table: dispatch, output, result, stale sweep, retention, replay |
| `Broadcast.dfy` | the drop-oldest broadcast queues |
| `Registry.dfy` | the device socket registry under asyncio interleaving |
| `Text.dfy` | JavaScript's `split` and `join` |
| `Common.dfy` | optional values and a fact about finite sets |

Concurrency is modelled by step relations over program counters (`Transport`,
`Registry`); database transactions are single atomic steps (`Alerts`, `Commands`);
objects that the source updates in place are classes whose methods are proved against
the functions that the run-level lemmas are about. Clocks, network outcomes, SQL row
order and generated ids are parameters of the steps.

What the code does where one might expect otherwise is stated and proved as it is:

- the deduper forgets a key that was admitted again if the slot of its expired earlier
  admission falls out of the FIFO (`StaleSlotEvictsRefreshedKey`, with the exact rule in
  `RunRefinesReference`);
- a cron list of several parts that begins with a stepped star matches nothing
  (`FieldSemantics` is an equivalence);
- the preview wants both day fields to match (`LoneDayIsMissed`, with the exact rule in
  `DayRulesAgreeIff`);
- disk alerts are raised as one kind and auto-resolved as another, so they latch
  (`HighDiskNeverRaised`); crash, temperature and offline alerts latch too, so a second
  outage raises none (`RaisedOnceForAll`);
- an upper threshold configured below the fixed lower one makes alerts that are notified
  and closed at once (`FlickersIff`, `FlickerNotifies`);
- late output sets a finished command running again (`LateOutputReopens`, with the exact
  rule in `FinishedStaysFinishedIff`);
- a command left pending is never replayed on reconnect (`UnsentIsNeverReplayed`);
- a superseded connection handler can unregister the socket that replaced its own
  (`SupersededHandlerRemovesNewerSocket`, with the exact rule in `TeardownHits`);
- a batch of more than `maxEvents` events vanishes entirely when the limiter is applied
  twice (`AppliedTwice`);
- a winget row with a trailing gap reports its last cell twice (`RowRoundTrip`);
- a CSV reader loses a row without cells (`ExportRoundTrip` is an equivalence), although
  the text still tells it apart (`PrinterIsInjective`).

## Model

| member | source | states |
|---|---|---|
| EventDeduper.EventFilter.ShouldSkipEvent | client/internal/collector/events_filter.go:51-101 | empty or excluded messages are skipped without trace; with deduplication off the rest passes; otherwise the event is skipped iff its source remembers the key, and only that source's history grows |
| EventDeduper.EventFilter.Deduplicate | client/internal/collector/events_filter.go:68-100 | the cache of the source answers as the reference predicate on its admission history and keeps representing that history; other sources are untouched |
| EventDeduper.EventFilter.OfferTo | client/internal/collector/events_filter.go:78-100 | expiry, lookup, append and the eviction loop together compute one offer and keep the cache representing its history |
| EventDeduper.EventFilter.Expire | client/internal/collector/events_filter.go:78-82 | the deletion loop leaves exactly the entries no older than the window |
| EventDeduper.LiveIsRemembered | client/internal/collector/events_filter.go:78-82 | expiry turns the cache for the last call into the cache for now |
| EventDeduper.RememberedAfterAppend | client/internal/collector/events_filter.go:88-98 | after an admission a key is remembered iff it is new or was remembered, and does not own the slot pushed out |
| EventDeduper.AdmissionRepresents | client/internal/collector/events_filter.go:88-98 | appending, recording and evicting keep the cache representing the longer history |
| EventDeduper.OfferIsExact | client/internal/collector/events_filter.go:78-100 | an offer is skipped iff the key's latest admission is within the window and no slot of that key fell out since, and the representation is kept: the FIFO is the last `max` admissions |
| EventDeduper.RunRefinesReference | client/internal/collector/events_filter.go:68-100 | for every run with a non-decreasing clock the code's answers equal those of the reference history machine |
| EventDeduper.SkipsHaveWitnesses | client/internal/collector/events_filter.go:84-86 | every skipped offer repeats an earlier offer that was let through at most one window before |
| EventDeduper.NoEvictionIsPlainScan | client/internal/collector/events_filter.go:84-98 | while there were at most `max` admissions, remembering is a plain scan of the history |
| EventDeduper.CacheIsBounded | client/internal/collector/events_filter.go:88-98 | cache and FIFO hold at most `max` keys, and every cached key has a slot |
| EventDeduper.StaleSlotEvictsRefreshedKey | client/internal/collector/events_filter.go:78-98 | a run in which a key admitted two nanoseconds before is let through again although the cache has room |
| Transport.StepMovesLedger | client/internal/transport/client.go:227-346 | every step of the protocol is one move of an abstract message ledger: accept, take, write, lose or discard |
| Transport.MoveKeepsBalance | client/internal/transport/client.go:257-271 | every move keeps the ledger numbered, in order and balanced |
| Transport.LifecycleStep | client/internal/transport/client.go:110-143 | every step keeps fields, pumps and channels owned as the connection's phase requires |
| Transport.Reachable | client/internal/transport/client.go:55-93 | the whole invariant holds in every state of every interleaving |
| Transport.EachMessageInOnePlace | client/internal/transport/client.go:227-346 | each accepted message is in exactly one of written, lost in flight, drained, held or queued |
| Transport.WireIsSubsequence | client/internal/transport/client.go:257-266 | the written messages are a subsequence of the accepted ones, in order |
| Transport.LossesAreBounded | client/internal/transport/client.go:257-271 | each connection loses at most one message in flight, there are no more losses than connections, and the channel keeps its capacity |
| SendAccounting.OffersAreAccountedFor | client/internal/transport/client.go:276-294 | in every run, counted from the calls alone: every offer of every message was accepted, was refused, or is still in the hands of its `Send` call |
| SendAccounting.RefusedIff | client/internal/transport/client.go:276-294 | a message is refused on calling `Send` iff 192 are waiting and it is telemetry, a process list, an NTP status or network information, and on queueing iff 256 are waiting |
| SendAccounting.SendBlocksIff | client/internal/transport/client.go:284-287 | a `Send` call waits iff its message is an event, a command result or a screenshot and the channel is full |
| SendAccounting.CriticalIsNeverDiscarded | client/internal/transport/client.go:284-287 | in every run, every event, command result or screenshot offered was accepted or still waits in its `Send` call |
| Transport.PumpLifecycle | client/internal/transport/client.go:227-234 | at most one pump is alive; a done channel is closed once, when its pump dies; no channel is closed twice; draining and dialling happen with no pump alive |
| Transport.PumpWritesItsOwnConnection | client/internal/transport/client.go:257-266 | a pump writes only to the connection that spawned it, which is the current one |
| Teardown.RunGoesThroughPhases | client/internal/transport/client.go:55-143 | in every run `Run` dials, starts the pump, reads until failure, clears, closes that connection's stop channel, waits, drains and starts over unless shut down |
| Teardown.DrainedBetweenDials | client/internal/transport/client.go:338-346 | in every run, between any two dials the channel was drained until empty |
| Teardown.PumpGoesThroughPhases | client/internal/transport/client.go:227-271 | in every run a pump selects on its own stop channel, pings on a tick and writes on a message to its own connection, and ends iff stopped, cleared or failed |
| Teardown.PumpStartsFresh | client/internal/transport/client.go:110-119 | each connection gets one new pump, at its select loop |
| Teardown.PumpWindsDown | client/internal/transport/client.go:239-271 | with `conn` cleared every pump step brings the pump closer to its exit, a wake-up leads straight to it, and only a write already begun can finish |
| Teardown.PumpExitsSoon | client/internal/transport/client.go:227-271 | in every run, while `conn` stays cleared a pump takes at most five more steps and wakes up by a tick or a message at most once more |
| Teardown.OnlyBegunIsWritten | client/internal/transport/client.go:124-143 | in every run, while `conn` stays cleared nothing reaches the wire but the one message whose write had begun, once, on its own connection |
| Teardown.TeardownIsNeverStuck | client/internal/transport/client.go:126-143 | a teardown waiting for `writeDone` finds it closed, or the pump it waits for able to move |
| Teardown.TeardownWaitIsShort | client/internal/transport/client.go:134-143 | in every run, while a teardown waits the pump takes at most five steps, and after the fifth the wait is over |
| Backoff.Timer.constructor | client/internal/transport/client.go:392-394 | a new timer has had no failures |
| Backoff.Timer.Next | client/internal/transport/client.go:396-403 | the wait after `k` failures is `initial` for `k = 0` and `min(initial * 2^k, max)` after that |
| Backoff.Timer.Reset | client/internal/transport/client.go:405-407 | a reset starts over |
| Backoff.NextDelay | client/internal/transport/client.go:396-403 | doubling with a cap follows the closed form, and every delay after the first is within the cap |
| Backoff.DelaysGrowIff | client/internal/transport/client.go:392-403 | the delays never decrease iff the initial one is within the cap |
| RateLimiter.EventRateLimiter.constructor | client/internal/collector/events_rate_limit.go:21-27 | the limiter starts fresh with 20 events per 30 seconds |
| RateLimiter.EventRateLimiter.Configure | client/internal/collector/events_rate_limit.go:30-44 | positive settings replace the old ones, and the window is reset |
| RateLimiter.EventRateLimiter.Apply | client/internal/collector/events_rate_limit.go:47-92 | the loop keeps the prefix that fits, counts the rest as dropped and appends the summary, as the specification functions say |
| RateLimiter.CallKeepsSound | client/internal/collector/events_rate_limit.go:63-89 | a call keeps the counters sound, and what it emits is what it adds to the use of the window |
| RateLimiter.RestOfWindow | client/internal/collector/events_rate_limit.go:55-61 | no second window opens within one window length, so a window emits at most `maxEvents + 1` |
| RateLimiter.SlidingBound | client/internal/collector/events_rate_limit.go:55-92 | in every run the calls of any interval one window long emit at most `2 * maxEvents + 1` events |
| RateLimiter.SlidingBoundIsReached | client/internal/collector/events_rate_limit.go:55-92 | for all settings a run reaches that bound |
| RateLimiter.WindowContinues | client/internal/collector/events_rate_limit.go:63-89 | within an open window exactly the events that still fit are kept, in order |
| RateLimiter.WindowLaw | client/internal/collector/events_rate_limit.go:55-91 | over a window the first `min(offered, max)` events are kept in order, kept and dropped add up to offered, and one summary is emitted iff something was dropped |
| RateLimiter.StateIsTold | client/internal/collector/events_rate_limit.go:55-91 | in every run, however the clock moves, the state follows from the times and sizes of the calls alone |
| RateLimiter.EveryCallIsTold | client/internal/collector/events_rate_limit.go:55-91 | in every run each call falls into a window determined by the call times alone, and gets through exactly the events up to the limit of that window, and the summary iff it is the first to exceed it |
| RateLimiter.LateCallStartsOver | client/internal/collector/events_rate_limit.go:56-61 | a call more than a window length after all earlier ones is treated as the first |
| RateLimiter.AppliedTwice | client/internal/collector/events_windows.go:101 | two passes over `n` events in a fresh window give all of them if `2n <= max`, the first `max - n` and a summary if `n <= max < 2n`, and nothing if `n > max` |
| Winget.SplitLine | client/internal/collector/software_windows.go:136-157 | the scanning loop computes the specification scan |
| Winget.RowRoundTrip | client/internal/collector/software_windows.go:135-157 | a row of trimmed cells without double spaces, joined by gaps of two or more, splits into exactly its cells; a trailing gap of two or more, and only that, repeats the last |
| Winget.LineSplits | client/internal/collector/software_windows.go:135-157 | any indented line of pieces without double spaces splits into its pieces, trimmed, with an empty field before them iff the indentation is two or more and the last again iff two or more spaces trail |
| Winget.BlankLineSplits | client/internal/collector/software_windows.go:135-157 | a line of spaces gives no field, one empty field or two, for no, one or more spaces |
| Winget.EveryLineIsCovered | client/internal/collector/software_windows.go:135-157 | every line is of one of these two forms |
| Text.SplitResumes | frontend/src/hooks/useSSE.ts:87-89 | splitting text that arrives in two pieces only reworks the last part, for every separator |
| Text.SplitJoin | frontend/src/utils/cron.ts:11-11 | splitting undoes joining when no part contains the separator's first character |
| SseCodec.Generate | server/app/api/v1/event_stream.py:33-44 | the generator writes one frame per payload that is not for another organisation and per timeout, in order |
| SseCodec.FrameReader.FirstData | frontend/src/hooks/useSSE.ts:92-98 | the search finds the text of the first data line, if there is one |
| SseCodec.FrameReader.Extract | frontend/src/hooks/useSSE.ts:91-100 | the loop collects the payloads of the complete frames |
| SseCodec.FrameReader.Feed | frontend/src/hooks/useSSE.ts:81-100 | after each chunk, buffer and deliveries are a function of all text received, however it was cut |
| SseCodec.ReadAll | frontend/src/hooks/useActivityStream.ts:31-59 | reading a body chunk by chunk gives what reading it at once gives |
| SseCodec.ReadingResumes | frontend/src/hooks/useActivityStream.ts:41-43 | reading on from the buffer equals reading the whole text |
| SseCodec.BrokenFrame | frontend/src/hooks/useSSE.ts:92-100 | a payload with a line break is delivered cut off at the break |
| SseCodec.FrameText | server/app/api/v1/event_stream.py:39-44 | the exact text of a keep-alive, of a payload, and nothing for a payload of another organisation |
| SseCodec.OthersLeaveNoTrace | server/app/api/v1/event_stream.py:40-41 | the stream equals that of the same events without the payloads of other organisations |
| SseCodec.OthersDoNotInterfere | server/app/api/v1/event_stream.py:40-41 | event sequences that differ only in payloads of other organisations give the same stream |
| SseCodec.RoundTrip | server/app/api/v1/event_stream.py:38-44 | the reader yields exactly the payloads of its organisation and those for everybody, in order, and ends with an empty buffer |
| SseCodec.RoundTripIff | server/app/api/v1/event_stream.py:38-44 | it does so iff each of these payloads is a single line |
| SseCodec.Transfer | frontend/src/hooks/useSSE.ts:77-100 | the same end to end, for every split of the stream into chunks |
| Csv.FieldRoundTrip | frontend/src/utils/export.ts:1-3 | any text, quoted and with quotes doubled, is read back as one field |
| Csv.RecordRoundTrip | frontend/src/utils/export.ts:6-6 | any row with at least one cell is read back as one record |
| Csv.ExportRoundTrip | frontend/src/utils/export.ts:5-6 | header and rows are recovered exactly iff none of them is without cells |
| Csv.PrinterIsInjective | frontend/src/utils/export.ts:5-6 | different tables print different texts, those with rows without cells included |
| CronField.PartIsExact | frontend/src/utils/cron.ts:11-25 | a printed value, range, stepped range or stepped star parses to exactly what it denotes |
| CronField.FieldIsExact | frontend/src/utils/cron.ts:1-26 | so does every printed well-formed field that the stepped-star shortcut does not misread |
| CronField.MisreadIsEmpty | frontend/src/utils/cron.ts:6-9 | a list of several parts that begins with a stepped star parses to nothing, though it denotes something |
| CronField.FieldSemantics | frontend/src/utils/cron.ts:1-26 | parsing the printed field gives exactly the denoted set iff the field is not such a list |
| CronField.ZeroStepIsEmpty | frontend/src/utils/cron.ts:11-25 | a part with step zero parses to nothing |
| CronSearch.ExpressionSemantics | frontend/src/utils/cron.ts:28-41 | every written-out well-formed expression matches a minute iff none of its fields is a misread list and each denotes its part of clock and date, the date changing at midnight |
| CronSearch.WordsOfLayout | frontend/src/utils/cron.ts:29-29 | fields are found whatever white space stands before, between and after them |
| CronSearch.LayoutDoesNotMatter | frontend/src/utils/cron.ts:28-41 | an expression in any layout, with anything after its five fields, matches as its plain form does |
| CronSearch.FewerFieldsMatchNothing | frontend/src/utils/cron.ts:30-32 | fewer than five fields match nothing |
| CronSearch.ClockReading | frontend/src/utils/cron.ts:34-40 | the minute at a given time of a given day has that minute, hour and day |
| CronSearch.DailyMatches | frontend/src/utils/cron.ts:34-40 | with stars for day, month and weekday only hour and minute decide |
| CronSearch.Search | frontend/src/utils/cron.ts:65-80 | the loop returns the first `count` due minutes among those it may scan |
| CronSearch.NextRuns | frontend/src/utils/cron.ts:65-80 | strictly increasing matching minutes after now, none skipped before the last, and too few only if all 100000 minutes were scanned and hold no more |
| CronSearch.FirstRunsArePreview | frontend/src/utils/cron.ts:71-77 | the first due minutes are ordered, matching, gap-free and complete |
| CronSearch.DailySchedulesSuffice | frontend/src/utils/cron.ts:71-71 | a daily schedule shows exactly `n` runs for every `n <= 69` from every start |
| CronSearch.SeventyAreTooMany | frontend/src/utils/cron.ts:71-71 | from midnight a midnight schedule shows 69 runs when 70 are asked for |
| CronSearch.DayRulesAgree | frontend/src/utils/cron.ts:36-40 | if a day field is a star, requiring all fields equals the usual either-day rule |
| CronSearch.DayRulesAgreeIff | frontend/src/utils/cron.ts:36-40 | for every text, the preview agrees with the either-day rule on all minutes of all calendars iff a day field is a star, or both day fields match their whole range or both nothing in it, or another field matches nothing in range |
| CronSearch.WrittenDayRulesAgreeIff | frontend/src/utils/cron.ts:28-41 | the same for written-out expressions, in terms of what their fields denote |
| CronSearch.LoneDayIsMissed | frontend/src/utils/cron.ts:36-40 | for every expression like `0 0 13 * 5`, at its time on a date that fits only one of the two day fields, the either-day rule runs the job and the preview does not show it |
| Alerts.AlertSession.constructor | server/app/services/alert_service.py:17-19 | a session starts with no alerts |
| Alerts.AlertSession.FindUnresolved | server/app/services/alert_service.py:32-42 | the lookup finds the one unresolved alert, or none if there is none |
| Alerts.AlertSession.CreateAlert | server/app/services/alert_service.py:21-55 | nothing in maintenance or while one is unresolved; otherwise a row, the alert status and a notification |
| Alerts.AlertSession.EvaluateMetrics | server/app/services/alert_service.py:57-88 | the four threshold checks in turn |
| Alerts.AlertSession.UpdateResolved | server/app/websocket/handler.py:348-357 | the bulk update resolves exactly the unresolved alerts of the device and kind |
| Alerts.AlertSession.AutoResolveAlerts | server/app/websocket/handler.py:345-379 | the three automatic resolutions in turn |
| Alerts.AlertSession.HandleTelemetry | server/app/websocket/handler.py:91-97 | a telemetry message is one telemetry step |
| Alerts.AlertSession.HandleNtpStatus | server/app/websocket/handler.py:162-190 | an NTP message is one NTP step |
| Alerts.AlertSession.ResolveAlert | server/app/services/alert_service.py:90-97 | a manual resolution closes that alert, if it exists |
| Alerts.AlertSession.MarkOffline | server/app/tasks/alert_tasks.py:40-57 | one stale device becomes offline and gets an offline alert unless one is open |
| Alerts.AlertSession.CheckOfflineDevices | server/app/tasks/alert_tasks.py:26-57 | the loop does so for each stale device, in any order, and for no other |
| Alerts.AlertSession.DeleteOldAlerts | server/app/tasks/cleanup_tasks.py:49-49 | retention deletes exactly the old resolved alerts |
| Alerts.StepUnique | server/app/services/alert_service.py:32-50 | every step keeps at most one unresolved alert per device and kind |
| Alerts.AtMostOneUnresolved | server/app/tasks/alert_tasks.py:42-57 | in every run each device has at most one unresolved alert of each kind |
| AlertTriggers.StepTracks | server/app/websocket/handler.py:181-190 | for every kind of alert, every step moves the table as the trigger moves, a manual resolution of the open alert being a lowering |
| AlertTriggers.AlertsFollowTrigger | server/app/websocket/handler.py:92-97 | for every kind of alert, in every run: it is unresolved iff the trigger that follows the run is on, and the notifications sent equal the trigger's rising edges by messages |
| AlertTriggers.TriggerIsHighSince | server/app/services/alert_service.py:57-97 | outside maintenance the trigger of a sensor is on iff some reading was above its upper threshold, and since then none was below the lower one and nobody resolved the alert by hand |
| AlertTriggers.HysteresisLaw | server/app/websocket/handler.py:345-379 | in every run outside maintenance a sensor's alert is unresolved iff some reading was above its upper threshold, and since then none was below the lower one and nobody resolved the alert by hand |
| AlertRows.StepRows | server/app/services/alert_service.py:90-97 | every row after a step is told by it: which step resolves it and with what time, which retention deletes, and new rows carry the reason and time of the step; all other rows stay |
| AlertRows.AlertIsTold | server/app/services/alert_service.py:90-97 | in every run, from any point on, an alert is in the table until retention finds it resolved and too old, and its row is told by the steps |
| AlertRows.AlertHasReason | server/app/services/alert_service.py:43-50 | in every run each alert was made by a step that was a reason for it, at the time of that step, and evolved by the steps since |
| AlertRows.RaisedIff | server/app/services/alert_service.py:27-50 | a step makes a new alert of a kind for a device iff it is a reason for it, the device is not in maintenance and none is open |
| AlertRows.DeviceIsTold | server/app/websocket/handler.py:91-97 | status and last-seen time of each device after each step: telemetry, offline sweep (exactly the stale devices), notices, and nothing else |
| AlertTriggers.LatchingTrigger | server/app/services/alert_service.py:74-88 | the disk, temperature, crash and offline triggers stay set once set, and give notice at most once (offline never) |
| AlertTriggers.RecordsStay | server/app/websocket/handler.py:345-379 | in every run the rows of a latching kind are never resolved, changed or deleted unless resolved by hand |
| AlertTriggers.RaisedOnceForAll | server/app/tasks/alert_tasks.py:39-57 | in every run, unless resolved by hand, a device has at most one disk, temperature, crash or offline record ever; from then on it stays open and unchanged, and is notified once (offline never) |
| AlertTriggers.HighDiskNeverRaised | server/app/websocket/handler.py:369-379 | no state of any run has an alert of the kind that the automatic resolution of disk alerts looks for, so that resolution never changes anything |
| AlertTriggers.FlickersIff | server/app/services/alert_service.py:57-72 | some reading raises an alert and resolves it in the same message iff the configured upper threshold lies below the fixed lower one |
| AlertTriggers.FlickerNotifies | server/app/websocket/handler.py:92-97 | in every run such a reading sends a notice for an alert that is closed again, and the default thresholds rule it out |
| Commands.CommandSession.constructor | server/app/services/command_service.py:19-20 | a session starts with no commands |
| Commands.CommandSession.DispatchCommand | server/app/services/command_service.py:31-92 | refusals in order (type, queue limit, device), then a row that is sent, pending or failed as the device and the flag decide |
| Commands.CommandSession.HandleCommandOutput | server/app/websocket/handler.py:192-200 | output sets any existing command running |
| Commands.CommandSession.HandleCommandResult | server/app/websocket/handler.py:202-221 | a result completes or fails an existing command |
| Commands.CommandSession.CleanupStaleCommands | server/app/tasks/cleanup_tasks.py:62-75 | exactly the sent commands older than ten minutes are failed and counted |
| Commands.CommandSession.DeleteOldCommands | server/app/tasks/cleanup_tasks.py:48-48 | retention deletes exactly the old commands |
| Commands.CommandSession.ReplaySent | server/app/websocket/router.py:132-150 | a reconnect is sent each of that device's sent commands of the last hour, once |
| Commands.CommandInvariant | server/app/services/command_service.py:37-49 | in every run each device has at most 100 queued commands; completed means exit code 0 and a completion time; failed means a completion time and no zero exit code |
| Commands.NothingReturns | server/app/websocket/handler.py:192-221 | no step makes an existing command queued or sent again, or changes its device or creation time |
| Commands.LeavingIsFinal | server/app/tasks/cleanup_tasks.py:62-75 | in every run a command that left the queue never returns |
| Commands.UnsentIsNeverReplayed | server/app/websocket/router.py:132-138 | a pending or finished command is not replayed at any later reconnect |
| Commands.SentIffOutstanding | server/app/services/command_service.py:71-92 | at every later point of every run a command stands as sent iff its dispatch delivered it and no output, result, sweep or retention step has ended that since |
| Commands.ReplayIsTheOutstanding | server/app/websocket/router.py:132-150 | a reconnect replays a command iff it was dispatched to that device within the last hour, delivered, and not ended since |
| Commands.StaleIsNeverReplayed | server/app/tasks/cleanup_tasks.py:65-73 | after a sweep no command older than ten minutes is replayed |
| Commands.DispatchAnswers | server/app/services/command_service.py:31-59 | which dispatches are refused and how, as equivalences: the eight kinds, the limit of 100 pending or sent, known and unrevoked devices |
| Commands.IssuedIff | server/app/services/command_service.py:61-69 | in every run a dispatch issues a command iff it is answered so |
| Commands.PresentUntilDeleted | server/app/tasks/cleanup_tasks.py:48-48 | in every run a command is in the table iff no retention step has deleted it |
| Commands.RowIsTold | server/app/websocket/handler.py:192-221 | in every run the whole row of a command follows from its earlier row and the steps since |
| Commands.StatusIsTold | server/app/websocket/handler.py:192-221 | in every run the status is decided by the last report, or without one by a sweep of a sent command, the exit code by the last result, and device, kind and creation time never change |
| Commands.SinceIssue | server/app/services/command_service.py:61-92 | in every run, from its issue on: sent iff delivered, failed at once iff not delivered and the caller asked for that, pending otherwise, and then as the steps since tell |
| Commands.FinishedStaysFinishedIff | server/app/websocket/handler.py:192-200 | a finished command is finished at any later time iff the last report since, if any, is a result; otherwise it is running |
| Commands.LateOutputReopens | server/app/websocket/handler.py:192-200 | a run in which a completed command is running again, its exit code still in place |
| Broadcast.EventStream.constructor | server/app/services/event_stream.py:5-7 | a stream starts without queues |
| Broadcast.EventStream.Subscribe | server/app/services/event_stream.py:9-13 | a new empty queue joins |
| Broadcast.EventStream.Unsubscribe | server/app/services/event_stream.py:15-17 | the queue leaves |
| Broadcast.EventStream.Put | server/app/services/event_stream.py:23-33 | a full queue loses its oldest payload to the new one |
| Broadcast.EventStream.Publish | server/app/services/activity_stream.py:19-33 | every current queue takes the payload, and no other changes |
| Broadcast.EventStream.Get | server/app/api/v1/event_stream.py:39-39 | a read takes the oldest payload |
| Broadcast.StepKeepsInv | server/app/services/event_stream.py:19-33 | publications and reads keep the subscription invariant: suffix, order, each payload read or dropped once |
| Broadcast.EverySubscription | server/app/services/event_stream.py:9-33 | in every run of the stream, for each current subscriber: the queue is the end, at most 100 long, of what was published since it joined; what its reads took is a subsequence of the part before, in order without repeats; the rest was followed by at least 100 publications |
| Broadcast.LifeStands | server/app/services/activity_stream.py:9-33 | in every run of the stream, queue, publications, reads and overflows of a subscriber are those of its subscription machine |
| Broadcast.PresentIff | server/app/services/event_stream.py:9-17 | in every run a subscriber has a queue iff it joined and has not left since |
| Broadcast.LossesAreOverflows | server/app/services/event_stream.py:25-29 | in every run of the stream, published since joining = read + unread + number of publications that found the queue full |
| Broadcast.KeepingUpGetsEverything | server/app/services/event_stream.py:19-33 | in every run of the stream, from joining on, reads followed by the queue are exactly what was published iff no publication found the queue full |
| Registry.ConnectionManager.constructor | server/app/websocket/manager.py:15-19 | the manager starts in the initial state of the machine |
| Registry.ConnectionManager.BeginConnect | server/app/websocket/manager.py:21-34 | `connect` up to its await is the locking step of the machine: the old socket to close with the lock held, or else both maps updated |
| Registry.ConnectionManager.FinishConnect | server/app/websocket/manager.py:30-34 | the rest of `connect` is the replacing step of the machine; the old socket was still registered and is closed |
| Registry.ConnectionManager.Remove | server/app/websocket/manager.py:36-40 | `disconnect` up to its await is the removing step of the machine; what it removes is the socket of the latest connect |
| Registry.ConnectionManager.BeginSend | server/app/websocket/manager.py:48-52 | `send_to_device` up to its await is the lookup step of the machine |
| Registry.StepKeepsInv | server/app/websocket/manager.py:21-59 | every stretch between await points keeps the registry invariant |
| Registry.RegistryIsConsistent | server/app/websocket/manager.py:21-59 | at every await point the maps have the same keys, a device is registered with a socket iff its latest change was that connect, and every socket ever registered is registered or handed to close |
| Registry.RemovalCloses | server/app/websocket/manager.py:37-46 | no step drops a socket without having it closed |
| Registry.ReplacementIsAtomic | server/app/websocket/manager.py:22-34 | while `connect` closes the old socket no other task changes the registry |
| Registry.SupersededHandlerRemovesNewerSocket | server/app/websocket/router.py:174-176 | a run in which the handler of a superseded socket unregisters the newer one |
| Registry.TeardownHits | server/app/websocket/router.py:174-176 | in every run, when the handler of `w` or a failed send through `w` disconnects the device: it removes `w` iff the latest change is the connect of `w`, another socket iff a connect made after that of `w` superseded it, and nothing iff the latest change is a disconnect |
| Registry.SendFinds | server/app/websocket/manager.py:48-59 | in every run a send goes through `w` iff the latest change of the device is the connect of `w`, and a failed send, like a handler that ends, goes on to disconnect on account of `w` |
| Registry.TaskGoesThroughPhases | server/app/websocket/manager.py:21-46 | in every run a connect closes the registered socket first, if any, and then serves its own; a disconnect closes the registered socket, if any; a task is moved by its own steps only |
| Registry.MetadataIsTold | server/app/websocket/manager.py:31-34 | in every run the metadata of a device are the time and address of the connect that completed last, and are forgotten on disconnect |
| Registry.RegistrationEndsIff | server/app/websocket/router.py:99-176 | a registration ends at a step iff a newer connect replaces the socket or some task disconnects the device; a task acting for another socket acts for one that this registration superseded |

## Left out

- CronField.Number: digit strings and the empty string only; JavaScript's other numeric notations (signs, fractions, exponents, hexadecimal) count as NaN, because no cron field is written with them.
- Alerts.AtMostOneUnresolved: transactions are atomic; two that race between the lookup and the insert are not modelled.
- Commands.CommandInvariant: dispatch is atomic; two dispatches that race between the count and the insert are not modelled.
- Transport.TeardownWaitIsShort: bounds the wait in steps of the pump; that the scheduler runs the pump is not part of the model.
- CronSearch.DayRulesAgreeIff: quantifies over all calendars, also ones with a thirtieth of February; on the real one the two rules agree in a few more cases.
- RateLimiter.SlidingBound: settings stay fixed during the run; reconfiguring resets the window.
- EventDeduper.RunRefinesReference: the cache size stays fixed during the run; the exclusion patterns and the fingerprint are uninterpreted functions.
- Local time zones and daylight saving in the cron preview: time is UTC minutes, over an arbitrary calendar for dates.
- JSON encoding and decoding of payloads, and UTF-8 decoding across chunk borders: a payload is its text.
- The browser's list of current alerts, notifications and reconnect timers: user interface.
- The per-user limit on open event streams: an easy counter.
- The registration retry loop of the agent: a delay of the same shape as the modelled backoff.
- The log handler that forwards warnings through the transport: it makes the pump a sender to its own queue and needs a liveness study of its own.
- The delayed offline timer of the WebSocket router: its check and its write are separated by awaits.
- Data races on unsynchronised Go fields: each read or write is one atomic step.
- HTTP routing, SQL, Redis, Celery, LDAP, TLS, tokens and passwords: tables are maps, and the rest is outside the model.
- Telemetry, process, NTP, screenshot and package collection, inventory, groups, compliance and pagination: operating-system calls or easy members.
