# Market-data runtime: verified engines

A Dafny model of the in-memory engines of a Hong Kong market-data runtime: the code between
its Kafka, Redis and table adapters that decides which minute bars, snapshots, queue entries
and pool members exist. Each engine is a class with the fields the program updates in place.
Its methods are proved equal to step functions, and the laws below are proved about runs of
those functions, for all inputs and all lengths. What a step function decides is also stated
once without its helpers, in the values themselves (most of these lemmas end in `Means`).

| module | engine |
|---|---|
| `TradingSession`, `MinuteBars` | the session window, the 420-bar cap, and the list operations on minute bars |
| `MarketState`, `SessionLaws` | one symbol's session: ticks, confirmed bars, backfills, queue and book events, rollover |
| `SessionRules` | sessions and their previous close, prices, directions and confirmed bars, spelled out |
| `RepeatedMinutes` | the same session started from a table with several rows for one minute |
| `LatestBarThrottle` | which ticks publish a latest bar |
| `Deduplication`, `IntradayRecovery` | replay of the local log and backfill from the tick table |
| `ClientQueue` | the bounded queue of one slow client |
| `RawEventQueue` | the callback queue: a deque of markers beside a dictionary |
| `SnapshotBars`, `ReadModelMerge` | the startup bar normaliser, and the merge of every snapshot write over the stored one |
| `ActivePool`, `SymbolRanking` | pinned and ranked symbols, and the ranking itself |
| `TopicDemux` | one consumer polled for several topics |
| `ReliablePublish` | publish with retries, the spool file, and its replay |
| `SilverIndex` | table indexes, the participant history cache, the CCASS date pair |
| `Percentile` | linear-interpolation percentiles |
| `Sequences` | stable sorting, string order, subsequences, dictionaries in key order |

Conventions. Time is an integer number of milliseconds of Hong Kong wall-clock time; a minute
is its floor by 60 000 and a date the floor of the minute by 1440. The clock is a parameter of
every step. Prices and turnovers are reals, volumes unbounded integers. `None` is whatever the
program skips: a missing key, an unreadable number or timestamp, a symbol that normalisation
rejects. `Or(x, y)` is the program's `x or y` on numbers, for which 0 is missing.

Where the code does something other than what its design promises, the model follows the code,
a lemma shows an input, and another says exactly when the promise holds:

- A fresh cached snapshot skips the replay, so a second recovery can append the same backfill
  again (`IntradayRecovery.SecondRecoveryCanRepeat`, and always without an alert:
  `IntradayRecovery.WithoutAlertsBackfillRepeats`). An alert in the first backfill moves the
  snapshot's freshness to the clock, which can make the second one idle. It is idle exactly when
  there was no cached snapshot or every table row has a timestamp of the snapshot that the first
  one left at or after it (`IntradayRecovery.SecondRecoveryIsIdle`).
- Bars stamped ahead of the clock are pruned by the next tick or confirmed bar, even a rejected
  one, and leave their volume in the snapshot alone (`SessionLaws.TickAheadOfClock`,
  `SessionLaws.RejectedBarCanBreak`). For every kind of event, a step reconciles exactly when it
  opens a session, is a full-tick seed or recomputes from bars, or what it prunes holds no volume
  and no turnover (`SessionLaws.StepReconcilesExactly`).
- A table may repeat minutes. Once the bars fill the cap, a tick in a new minute drops one and
  leaves its volume in the snapshot alone (`RepeatedMinutes.TripledMorningBreaks`). A step
  reconciles exactly when it drops no bar that holds anything
  (`RepeatedMinutes.CrowdedStepExactly`), and every run does exactly when there are at most 89
  bars more than minutes (`RepeatedMinutes.CrowdedRunsExactly`).
- A spool file whose last line has no newline spoils the next record appended, and loses its
  own (`ReliablePublish.TornSpoolLoses`). No event is lost exactly when the file does not start
  out so, or is rewritten by a replay before it is appended to (`ReliablePublish.EveryEventOnce`).
- A poll loses records exactly when the consumer yields an error before any timeout, with some
  records but not a full batch of the topic at hand (`TopicDemux.PollLosesOnlyOnError`; an input:
  `TopicDemux.PollCanLose`).
- A snapshot write that cannot read what is stored replaces it; a stored minute survives
  exactly as `ReadModelMerge.StoredMinuteSurvives` says (an input:
  `ReadModelMerge.FailedReadCanLoseMinute`).
- The participant history cache keeps one entry for a missing trade date and for the empty one,
  which filter differently. Over any run, an answer is fresh exactly when its date is a real one,
  the participant has no dated row, or the same form came first
  (`SilverIndex.AnswerIsFreshExactly`; an input in either order: `SilverIndex.EmptyDateSharesKey`).
- A manual pin of a symbol that already trades in the base is ignored
  (`ActivePool.ManualPinTakesEffect`), and pin then unpin takes an older pin away
  (`ActivePool.PinThenUnpin`; both in one pool: `ActivePool.PinsWithoutEffect`).
- A realtime message without a symbol is looked up under the empty one: it replaces a queued
  message whose symbol is "", but is itself never replaced. A realtime kind and symbol can be
  queued twice exactly when the symbol is the empty one and there is room for two
  (`ClientQueue.OfferCoalesces`, `ClientQueue.SymbollessStaysPut`,
  `ClientQueue.SymbollessIsNotCoalesced`).
- Folding ticks is the group-by exactly up to 420 touched minutes, which one date never exceeds
  (`MinuteBars.FoldIsGroupBy`, `MinuteBars.FoldOfOneDayIsGroupBy`; two dates can:
  `MinuteBars.TwoDaysOverflow`).

## Model

| member | source | states |
|---|---|---|
| TradingSession.SessionFitsCap | backend/beast_market/trading_session.py:18-25 | strictly increasing regular minutes of one date number at most 331, so a 420-bar slice is the identity on them |
| TradingSession.SessionIsFull | backend/beast_market/trading_session.py:18-25 | every date has exactly 331 regular minutes: the bound is attained |
| TradingSession.SlotsBound | backend/beast_market/trading_session.py:18-25 | the k-th of such minutes sits at slot k-1 of the day or later |
| TradingSession.SessionInstants | backend/beast_market/trading_session.py:18-25 | the session in instants: 09:30 to before 12:00 and 13:00 to before 16:01, on the date of the instant |
| MinuteBars.PruneFutureMinuteBars | backend/beast_market/pipeline.py:1437-1453 | the loop returns the bars with a readable timestamp not after the clock's minute, in order, the last 420 of them |
| MinuteBars.KeepPastMeans | backend/beast_market/pipeline.py:1441-1452 | a bar is kept if and only if its timestamp is readable and before the end of the clock's minute |
| MinuteBars.PrunedIsTail | backend/beast_market/pipeline.py:1453 | of more than 420 kept bars the last 420 stay |
| MinuteBars.PrunedOneDay | backend/beast_market/pipeline.py:1437-1453 | on an ordered one-day list pruning drops exactly the later minutes and keeps order and date |
| MinuteBars.UpsertMinuteBar | backend/beast_market/pipeline.py:1269-1307 | the loop with its early exits equals the step function that the fold laws are about |
| MinuteBars.UpsertedTick | backend/beast_market/pipeline.py:1269-1307 | on an ordered list a tick sets exactly its minute's entry and keeps the order, as long as the cap has room |
| MinuteBars.TickMeans | backend/beast_market/pipeline.py:1277-1307 | field by field, what a tick does to its minute's bar, merged or new: open and confirmation stay, extremes widen, totals add |
| MinuteBars.BucketStart | backend/beast_market/pipeline.py:1412-1416 | a bucket is the start of its minute |
| MinuteBars.FoldIsGroupBy | backend/beast_market/pipeline.py:1269-1307 | folding any tick sequence gives one ordered bar per touched regular minute, with first/max/min/last prices and summed volume and turnover, if and only if at most 420 minutes are touched |
| MinuteBars.TwoDaysOverflow | backend/beast_market/pipeline.py:1307 | without a trade date, ticks in 421 minutes of two sessions whose fold is not the group-by |
| MinuteBars.FoldOfOneDayIsGroupBy | backend/beast_market/pipeline.py:1269-1307 | with a trade date the fold is always that group-by, in at most 331 bars, however the minutes interleave |
| MinuteBars.UpsertConfirmedMinuteBar | backend/beast_market/pipeline.py:1310-1344 | the replacing loop equals its step function |
| MinuteBars.UpsertedBar | backend/beast_market/pipeline.py:1310-1344 | on an ordered one-day list a confirmed bar overrides exactly its minute's entry; a bar outside the session changes nothing |
| MinuteBars.OneDayFitsCap | backend/beast_market/pipeline.py:1344 | the `[-420:]` slices never drop a bar of an ordered one-day list |
| MinuteBars.OrderedUnique | backend/beast_market/pipeline.py:1306 | an ordered bar list is determined by its minute-to-bar dictionary |
| MarketState.SymbolState.Rollover | backend/beast_market/pipeline.py:1567-1609 | a new session clears bars and totals and starts from the reference price; the same session changes nothing |
| SessionRules.QueueOpensSession | backend/beast_market/pipeline.py:1567-1594 | a queue or book event of another date opens a session flat at the stored next previous close, or else the last price, or else the previous close; one of the same date changes nothing |
| MarketState.SymbolState.UpdateSnapshotFromMinuteBars | backend/beast_market/pipeline.py:1372-1397 | the new snapshot and bars as a function of the old ones |
| MarketState.SnapshotOfBars | backend/beast_market/pipeline.py:1372-1397 | the snapshot read off bars has the first open, the last price, the attained extremes of all bars, and a change against the untouched previous close |
| SessionRules.FallbacksMean | backend/beast_market/pipeline.py:1378-1385 | what stands in for a missing price, close, open, high and low |
| SessionRules.ExtremesMean | backend/beast_market/pipeline.py:1381-1382 | high and low are the attained extremes of what the bars stand for |
| MarketState.RecomputeWellFormed | backend/beast_market/pipeline.py:1372-1397 | recomputing keeps the bars of a reachable state |
| MarketState.SymbolState.ApplyTick | backend/beast_market/pipeline.py:579-626 | the new snapshot and bars after a tick, with rollover, full-tick seeds and off-session ticks |
| SessionRules.TickSnapshot | backend/beast_market/pipeline.py:589-621 | every field of the snapshot after a tick, in a new session or the running one, seed or not |
| SessionRules.TickBarsMean | backend/beast_market/pipeline.py:610-626 | a seed or off-session tick leaves the bars alone, any other changes its minute only, with a direction against the price before |
| MarketState.UpsertConserves | backend/beast_market/pipeline.py:1269-1307 | a charted tick adds exactly its volume and turnover to the bars of its date |
| MarketState.BarFromPayload | backend/beast_market/pipeline.py:1347-1369 | a parsed bar has a positive price and is already in the form that the confirmed upsert normalises to |
| SessionRules.PayloadMeans | backend/beast_market/pipeline.py:1351-1369 | a parsed bar has the payload's fields, its close for those missing or zero |
| SessionRules.NormalizedMeans | backend/beast_market/pipeline.py:1318-1330 | the form in which a confirmed bar is kept, with what stands in for missing prices |
| MarketState.SymbolState.ApplyMinuteBar | backend/beast_market/pipeline.py:728-738 | the new snapshot and bars after a confirmed bar, accepted or not, and whether an unreadable timestamp raised an error |
| MarketState.ConfirmedBarOverrides | backend/beast_market/pipeline.py:722-747 | an accepted regular bar replaces whatever its minute held, field by field, and leaves every other minute alone |
| SessionRules.ConfirmedExactlyWhenOver | backend/beast_market/pipeline.py:731 | after a priced, readable payload of a regular minute, the minute is confirmed if and only if it is over |
| SessionRules.BackfillConfirmsWhatIsOver | backend/beast_market/pipeline.py:684 | the same for every payload of a backfill that raises no error |
| SessionRules.ConfirmedBarsAreOver | backend/beast_market/pipeline.py:1428-1434 | over any run under a clock that never goes back every confirmed bar lies in a minute that is over |
| SessionRules.RejectedMeans | backend/beast_market/pipeline.py:728-732 | a payload without price or time, or not over, does nothing beyond rollover and prune |
| SessionRules.ConfirmedDirection | backend/beast_market/pipeline.py:733-734 | a confirmed bar's direction is against the price before it, or flat without one |
| MarketState.BarStep | backend/beast_market/pipeline.py:722-747 | a confirmed bar keeps the state well-formed and the previous close; a rejected one changes nothing; an accepted one leaves the snapshot read off the bars |
| MarketState.SymbolState.AcceptedBars | backend/beast_market/pipeline.py:678-685 | the accepted bars in order, or an error exactly when a priced bar has an unreadable timestamp |
| MarketState.SymbolState.Backfill | backend/beast_market/pipeline.py:677-706 | the new snapshot and bars after filtering, sorting and applying a backfill; an error aborts it after the prune |
| SessionRules.RaisedMeans | backend/beast_market/pipeline.py:678-685 | an error is raised exactly for an unreadable time beside a positive close, and then nothing happens beyond the prune |
| SessionRules.AppliedInTimeOrder | backend/beast_market/pipeline.py:688 | a backfill is applied in time order |
| SessionLaws.TickIsSound | backend/beast_market/pipeline.py:569-641 | a tick keeps order, date, reconciliation and change = price - previous close |
| SessionLaws.BarIsSound | backend/beast_market/pipeline.py:722-747 | so does a confirmed bar |
| SessionLaws.BackfillIsSound | backend/beast_market/pipeline.py:666-720 | so does a backfill |
| SessionLaws.RolloverIsSound | backend/beast_market/pipeline.py:1567-1609 | so does a rollover, which settles the ledger |
| SessionLaws.BarsNeverEmptied | backend/beast_market/pipeline.py:722-747 | a confirmed bar never empties a non-empty bar list |
| SessionLaws.RunReconciles | backend/beast_market/pipeline.py:569-747 | over any run of ticks, confirmed bars, backfills, queue and book events and rollovers, snapshot volume and turnover equal the bars plus the off-session ticks since the last recompute or rollover (after a full-tick seed: the seed plus every tick since), and change and its percentage match the price |
| SessionLaws.StepReconcilesExactly | backend/beast_market/pipeline.py:569-747 | from any ordered one-day state that reconciles, with bars ahead of the clock or not, a tick, confirmed bar, backfill, queue or book event reconciles if and only if it opens a session, is a seed or recomputes from bars, or what it prunes holds no volume and no turnover |
| SessionLaws.TickReconcilesExactly | backend/beast_market/pipeline.py:579-626 | the same for an ordinary tick of the running session |
| SessionLaws.TickAheadOfClock | backend/beast_market/pipeline.py:579-626 | a tick ahead of the clock, followed by another tick, leaves its volume in the snapshot but not in the bars |
| SessionLaws.RejectedBarCanBreak | backend/beast_market/pipeline.py:728-732 | a rejected confirmed bar prunes bars ahead of the clock and leaves their volume in the snapshot alone |
| SessionLaws.UnseededVolumeIsBarsPlusOffSession | backend/beast_market/pipeline.py:569-641 | without full-tick seeds the ledger only ever holds off-session ticks |
| RepeatedMinutes.TickTotals | backend/beast_market/pipeline.py:1277-1307 | on any time-ordered list up to the cap a charted tick adds exactly its volume and turnover, less those of the earliest bar if the list is full and has none for the minute |
| RepeatedMinutes.CrowdedStepExactly | backend/beast_market/pipeline.py:569-747 | from any time-ordered list, repeated minutes or not, a step reconciles if and only if it does not chart a tick in a new minute of a full list, or the bar that it drops holds no volume and no turnover |
| RepeatedMinutes.RoomyRunReconciles | backend/beast_market/pipeline.py:569-747 | with at most 89 bars more than minutes every run on time keeps the reconciliation law, the order and the room |
| RepeatedMinutes.CrowdedRunsExactly | backend/beast_market/pipeline.py:569-747 | every run on time reconciles if and only if the list has at most 89 bars more than minutes; from any other list a breaking run is built |
| RepeatedMinutes.PreloadedRunReconciles | backend/beast_market/pipeline.py:292-335 | from a preloaded day, whatever rows its table repeats, every run on time reconciles if and only if there are at most 89 bars more than minutes |
| RepeatedMinutes.StrictIsRoomy | backend/beast_market/pipeline.py:1113-1139 | a table without repeated minutes always has that room |
| RepeatedMinutes.TripledMorningBreaks | backend/beast_market/pipeline.py:1307 | 140 minutes stored three times: the next minute's tick drops a bar and its volume stays in the snapshot alone |
| RepeatedMinutes.ConfirmedKeeps | backend/beast_market/pipeline.py:1331-1344 | a confirmed bar replaces every bar of a repeated minute, and the list stays in time order and under the cap |
| SessionLaws.IncrementalIsBatch | backend/beast_market/pipeline.py:722-747 | confirmed bars applied one by one with a recompute after each end in the same state as overriding the dictionary once, later bar first, and recomputing once; each direction is against the price that overriding with the bars before gives, and is all that depends on the order of arrival of different minutes |
| SessionLaws.BackfillIsBatch | backend/beast_market/pipeline.py:666-720 | a backfill in any order is one override and one recompute of its session, with directions in time order; without an accepted bar, or with an unreadable timestamp, it changes nothing |
| SessionLaws.RolloverBeforeTick | backend/beast_market/pipeline.py:588-609 | a session opened by a queue event and one opened by its first tick agree on price, previous close, change, totals and bars, and differ in the open |
| SessionLaws.TickDayIsGroupBy | backend/beast_market/pipeline.py:569-641 | a new session fed by ticks alone: the snapshot aggregates all ticks, the bars are the group-by of the charted ones, the previous close is what the session before left |
| SessionRules.SessionStep | backend/beast_market/pipeline.py:588-609 | every step into a new session starts it from the carried close, no other moves the previous close, and none the close stored for the next session |
| SessionRules.LaterSessions | backend/beast_market/pipeline.py:590-595 | over any run, in every later session change and percentage are against the stored close |
| SessionRules.PreloadedLaterSessions | backend/beast_market/pipeline.py:333 | from a preloaded day with a daily close, every later session is against that close |
| SessionRules.ChangeMatchesPrice | backend/beast_market/pipeline.py:619-623 | over any run, whatever the clock, change is price less previous close and the percentage is of it |
| SessionRules.PreloadMeans | backend/beast_market/pipeline.py:292-333 | the start-of-day snapshot, from which daily bar each field comes |
| LatestBarThrottle.Throttle.ShouldPublish | backend/beast_market/pipeline.py:853-865 | decision and new memory of the symbol; other symbols untouched |
| LatestBarThrottle.Drive | backend/beast_market/pipeline.py:853-865 | the two dictionaries, run over any interleaving of symbols, publish the ticks that the laws are about |
| LatestBarThrottle.PublishedSpaced | backend/beast_market/pipeline.py:853-865 | publishes of one minute lie at least a second apart |
| LatestBarThrottle.AtMostSixtyPerMinute | backend/beast_market/pipeline.py:853-865 | with non-decreasing timestamps at most 60 publishes per symbol and minute |
| LatestBarThrottle.NextTick | backend/beast_market/pipeline.py:853-865 | the first tick of a minute is published, and a tick is suppressed if and only if it comes less than a second after a published one of its minute |
| Deduplication.AcceptedAreDistinct | backend/beast_market/app_runtime.py:1112-1117 | accepted events keep their order and share no key with each other or with what was seen |
| Deduplication.SkippedSharesKey | backend/beast_market/app_runtime.py:1128-1133 | each event is accepted in its turn or shares a key with an earlier accepted or seen one |
| Deduplication.AcceptedInsert | backend/beast_market/app_runtime.py:1112-1117 | a fresh event slots into a sorted log without changing the fate of any other |
| Deduplication.ReplayExtended | backend/beast_market/app_runtime.py:1112-1117 | replaying a log extended by fresh events accepts the old accepted ones and all fresh ones, in sort order |
| IntradayRecovery.Recovery.TradeTickEvents | backend/beast_market/app_runtime.py:1169-1216 | the events built from the rows later than the recovered timestamp |
| IntradayRecovery.BackfillCopiesRows | backend/beast_market/app_runtime.py:1183-1215 | a candidate copies a row later than the recovered timestamp |
| IntradayRecovery.LaterRowIsCandidate | backend/beast_market/app_runtime.py:1183-1215 | and every such row has its candidate |
| IntradayRecovery.BackfillInTextOrder | backend/beast_market/app_runtime.py:1181 | candidates ascend by their timestamps as written |
| IntradayRecovery.NumberedFromOne | backend/beast_market/app_runtime.py:1213 | the k-th candidate is numbered k + 1 |
| IntradayRecovery.StampedWithClock | backend/beast_market/contracts.py:81 | a row without a timestamp is stamped with the clock |
| IntradayRecovery.EventIdMeans | backend/beast_market/app_runtime.py:1213 | the id of a candidate, by trade id, row hash or number |
| IntradayRecovery.SafePartMeans | backend/beast_market/app_runtime.py:1371-1372 | a safe part is not empty, has only safe characters and no dash at an end, and leaves such text as it is |
| IntradayRecovery.RunBecomesDash | backend/beast_market/app_runtime.py:1372 | a run of other characters becomes one dash |
| IntradayRecovery.DigitsAreDecimal | backend/beast_market/app_runtime.py:1213 | numbers are written in decimal |
| IntradayRecovery.Recovery.ReplayLog | backend/beast_market/app_runtime.py:1108-1126 | the replay loop processes exactly the greedy selection of the sorted log and knows its keys and latest timestamp |
| IntradayRecovery.Recovery.BackfillLog | backend/beast_market/app_runtime.py:1128-1141 | the backfill loop processes and appends exactly the events that share no key, and alerts move the freshness of the snapshot in use |
| IntradayRecovery.Recovery.Recover | backend/beast_market/app_runtime.py:1080-1154 | the log, the processed events, the cached snapshot and the report after a recovery |
| IntradayRecovery.EventOrder | backend/beast_market/app_runtime.py:1325-1326 | the sort key is a total preorder |
| IntradayRecovery.ReplayedInOrder | backend/beast_market/app_runtime.py:1112 | replayed events ascend by instant, a missing timestamp counting as 0, and by event id within one instant |
| IntradayRecovery.LastTsIsLatest | backend/beast_market/app_runtime.py:1124-1126 | the recovered timestamp is the latest of the replayed events |
| IntradayRecovery.LatestIsGreatest | backend/beast_market/app_runtime.py:1294-1312 | the recovered timestamp of a cached snapshot is the greatest it carries, missing only if all are |
| IntradayRecovery.IsoAfterMeans | backend/beast_market/app_runtime.py:1350-1360 | when one timestamp is after another, missing ones included |
| IntradayRecovery.RecoveredIsLatest | backend/beast_market/app_runtime.py:1294-1312 | none of a cached snapshot's timestamps is later than the one it recovers from, which is one of them |
| IntradayRecovery.AcceptedEventsDiffer | backend/beast_market/app_runtime.py:1329-1347 | no two replayed events are the same event, the same trade by trade id or row hash, or ticks alike in time, price, volume and turnover |
| IntradayRecovery.SharedKeys | backend/beast_market/app_runtime.py:1329-1347 | two events share a dedupe key if and only if they are the same event, the same trade, or ticks alike |
| IntradayRecovery.UnlikeAreReplayed | backend/beast_market/app_runtime.py:1112-1117 | a log of mutually unlike events is replayed in full |
| IntradayRecovery.BackfillIsLater | backend/beast_market/app_runtime.py:1183-1186 | a backfilled event is later than every replayed one |
| IntradayRecovery.RecoverTwice | backend/beast_market/app_runtime.py:1108-1141 | a second recovery over the log just written accepts the same events and backfills nothing |
| IntradayRecovery.SecondCandidate | backend/beast_market/app_runtime.py:1169-1216 | the second recovery considers only rows that the first did, and none that it added |
| IntradayRecovery.BackfillNeedsMissingRow | backend/beast_market/app_runtime.py:1128-1141 | from any recovered timestamp and log, the backfill is empty if and only if no row is later |
| IntradayRecovery.AlertsMoveFreshness | backend/beast_market/pipeline.py:776-787 | a backfill leaves the cached snapshot alone, or moves its freshness to the last alerting event and the clock |
| IntradayRecovery.WithoutAlertsBackfillRepeats | backend/beast_market/app_runtime.py:1097-1107 | with a cached snapshot and no alert the second recovery appends the first one's events again |
| IntradayRecovery.AfterAlertSecondIsIdle | backend/beast_market/app_runtime.py:1294-1312 | with an alert and no row ahead of the clock the second recovery is idle |
| IntradayRecovery.SecondRecoveryCanRepeat | backend/beast_market/app_runtime.py:1097-1107 | an input whose second recovery appends the same event again |
| IntradayRecovery.SecondRecoveryIsIdle | backend/beast_market/app_runtime.py:1080-1154 | a second recovery with the snapshot that the first one left backfills nothing if and only if there is no such snapshot, no table, or every row has a timestamp of that snapshot at or after it |
| ClientQueue.GatewayClientQueue.ReplaceLatest | backend/beast_market/gateway.py:74-80 | the last match is replaced in place, or nothing changes |
| ClientQueue.GatewayClientQueue.DropOne | backend/beast_market/gateway.py:82-96 | exactly the first evictable message leaves and is counted, or nothing changes |
| ClientQueue.GatewayClientQueue.Enqueue | backend/beast_market/gateway.py:32-66 | queue and counters after an offer; the second full check is unreachable; the bound holds |
| ClientQueue.GatewayClientQueue.Drain | backend/beast_market/gateway.py:68-72 | a prefix of the queue is handed out, the rest stays |
| ClientQueue.AlertWhenFull | backend/beast_market/gateway.py:39-45 | an alert offered to a full queue is refused if there are only alerts, else the first message that is none leaves; with every counter |
| ClientQueue.ResponseWhenFull | backend/beast_market/gateway.py:46-51 | a response offered to a full queue is refused if there are only alerts and responses, else the first message that is neither leaves; with every counter |
| ClientQueue.OtherWhenFull | backend/beast_market/gateway.py:52-54 | any other message that coalesces with none is dropped by a full queue |
| ClientQueue.OfferWithRoom | backend/beast_market/gateway.py:63-66 | with room an offer that coalesces with none joins the end; with every counter |
| ClientQueue.CoalescedCounts | backend/beast_market/gateway.py:35-37 | a coalesced offer changes one place and one counter |
| ClientQueue.DrainMeans | backend/beast_market/gateway.py:68-72 | a drain hands out everything or as many as asked for |
| ClientQueue.FirstEvictable | backend/beast_market/gateway.py:82-96 | the first message that an alert, or a critical response, may push out; none if there is none |
| ClientQueue.Accounting | backend/beast_market/gateway.py:32-72 | in every reachable state offers = queued + drained + coalesced + dropped + refused alerts, enqueued = queued + drained + both overflows, and the length is bounded |
| ClientQueue.AlertRefusal | backend/beast_market/gateway.py:39-45 | an alert is refused if and only if the queue is full of alerts |
| ClientQueue.AlertsSurvive | backend/beast_market/gateway.py:32-96 | drained and queued alerts are exactly the admitted ones, in order |
| ClientQueue.ProtectedStay | backend/beast_market/gateway.py:90-96 | an offer that is not an alert leaves alerts and responses as they are, in order, plus itself if admitted |
| ClientQueue.ResponsesSurvive | backend/beast_market/gateway.py:32-96 | over any run an admitted response leaves only by a drain or pushed out by an alert |
| ClientQueue.OrderKept | backend/beast_market/gateway.py:32-96 | drained and queued messages that cannot coalesce form a subsequence of the offers |
| ClientQueue.UniqueOffered | backend/beast_market/gateway.py:74-80 | an offer never puts a second message of one type and symbol in the queue |
| ClientQueue.QueuedIsLatest | backend/beast_market/gateway.py:35-37 | each coalescing key is queued at most once and holds its most recent offer |
| ClientQueue.OfferCoalesces | backend/beast_market/gateway.py:74-80 | a realtime offer is coalesced if and only if a message of its kind is queued whose own symbol equals the offer's, read as "" when absent; the last such message is replaced |
| ClientQueue.SymbollessStaysPut | backend/beast_market/gateway.py:77-78 | a queued message without a symbol is never replaced |
| ClientQueue.QueuedTwins | backend/beast_market/gateway.py:32-96 | in every reachable queue, of two realtime messages of one kind looked up under one symbol the earlier one has no symbol |
| ClientQueue.SymbollessIsNotCoalesced | backend/beast_market/gateway.py:34-37 | over all runs, a realtime kind and symbol can be queued twice if and only if the symbol is "" and the queue has room for two |
| ClientQueue.SymbollessQueuedTwice | backend/beast_market/gateway.py:34-37 | two offers without a symbol, both queued |
| RawEventQueue.SameKeySameStream | backend/beast_market/adapters.py:580-601 | two events share a coalescing key if and only if they have the same canonical symbol and the same stream |
| RawEventQueue.KeyMeans | backend/beast_market/adapters.py:580-601 | which events have a key: those with a symbol, of seven periods or two types |
| RawEventQueue.CanonicalMeans | backend/beast_market/adapters.py:586-587 | a bare code is filled to five digits with the Hong Kong suffix, any other symbol stays |
| RawEventQueue.BoundedRawEventQueue.Push | backend/beast_market/adapters.py:545-559 | deque and dictionary together act as one bounded list with in-place update; only a refused event is dropped |
| RawEventQueue.BoundedRawEventQueue.Pop | backend/beast_market/adapters.py:561-572 | returns the latest event of the first slot; the branch that skips a marker is unreachable |
| RawEventQueue.OverwriteSlot | backend/beast_market/adapters.py:548-550 | a dictionary write is an update of the marker's slot and keeps the structures in agreement |
| RawEventQueue.RemoveFirst | backend/beast_market/adapters.py:564-570 | removing the first item, with its dictionary entry if it is a marker, removes the first slot and keeps the agreement |
| RawEventQueue.UniquePushed | backend/beast_market/adapters.py:545-559 | a push keeps keys distinct and overwrites every older event with its key |
| RawEventQueue.PushesAccounted | backend/beast_market/adapters.py:545-577 | pushes = pops + backlog + overwritten + dropped |
| RawEventQueue.PushMeans | backend/beast_market/adapters.py:545-559 | a push takes the place of the waiting event with its key, joins the end, or is dropped when full |
| RawEventQueue.PlainInOrder | backend/beast_market/adapters.py:545-572 | events without a key come out in the order they went in |
| RawEventQueue.WaitingIsLatest | backend/beast_market/adapters.py:545-572 | each key waits in at most one slot, with its latest push |
| SnapshotBars.CachedSnapshot.Normalize | backend/beast_market/app_runtime.py:1244-1275 | the snapshot's bars after the normalising loop |
| SnapshotBars.NormalizedIsClean | backend/beast_market/app_runtime.py:1275 | the result has strictly increasing, bucketed, regular minutes, none in the future, at most 420 |
| SnapshotBars.NormalizeTwice | backend/beast_market/app_runtime.py:1244-1275 | normalising is idempotent for a fixed clock |
| SnapshotBars.EntryIsFold | backend/beast_market/app_runtime.py:1249-1274 | a minute's entry is the fold of that minute's bars alone |
| SnapshotBars.FoldConserves | backend/beast_market/app_runtime.py:1272-1273 | folding adds up volume and turnover |
| SnapshotBars.FoldEnvelope | backend/beast_market/app_runtime.py:1268-1271 | folding fully priced bars keeps the last price and close, the attained extremes, and the rest of the first bar |
| SnapshotBars.FoldMeans | backend/beast_market/app_runtime.py:1268-1274 | what folding takes from which bar when fields are missing or zero |
| SnapshotBars.GroupMeans | backend/beast_market/app_runtime.py:1253-1261 | which bars count for a minute, in order |
| SnapshotBars.KeptBarsConserve | backend/beast_market/app_runtime.py:1244-1275 | every kept bar is the fold of all bars of its minute and conserves their volume and turnover |
| SnapshotBars.OnlyFutureMinutesDropped | backend/beast_market/app_runtime.py:1275 | with a trade date a minute is kept if and only if it has a counting bar and is not after the clock |
| ReadModelMerge.MergeExistingMinuteBars | backend/beast_market/production_adapters.py:291-327 | the two loops compute the last-writer-wins union, with every early return |
| ReadModelMerge.RedisSnapshotCache.SetTerminalSnapshot | backend/beast_market/production_adapters.py:169-217 | all six records after a write, with failing reads and failing transactions; no other key changes, and bars, alerts and queue keep agreeing with the snapshot beside them |
| ReadModelMerge.RedisSnapshotCache.SetTerminalState | backend/beast_market/production_adapters.py:219-225 | exactly the state record changes, and the others keep agreeing |
| ReadModelMerge.WrittenAgrees | backend/beast_market/production_adapters.py:178-217 | a whole write leaves every date and symbol with its snapshot's own bars, alerts and queue |
| ReadModelMerge.ReadBack | backend/beast_market/production_adapters.py:321 | a listed dictionary is strictly ordered and reads back as itself |
| ReadModelMerge.WritesKeepMinutes | backend/beast_market/production_adapters.py:169-177 | once current with a regular minute, the stored snapshot stays current under any writes whose reads succeed, loses no minute, holds per minute the last bar of a current-session write, and is strictly ordered after the first such write |
| ReadModelMerge.LastCurrentWriteWins | backend/beast_market/production_adapters.py:320-327 | over writes whose reads succeed the stored snapshot is the last current one in every field but its bars and their date |
| ReadModelMerge.WriteMeans | backend/beast_market/production_adapters.py:291-327 | what a write does, by what it finds stored and what it brings |
| ReadModelMerge.LastByMinuteMeans | backend/beast_market/production_adapters.py:306-316 | the merge dictionary holds each minute's last bar |
| ReadModelMerge.StoredMinuteSurvives | backend/beast_market/production_adapters.py:235-239 | a stored minute survives a write if and only if the write fails, its read succeeds, or its own bars have the minute |
| ReadModelMerge.FailedReadCanLoseMinute | backend/beast_market/production_adapters.py:235-239 | on every date there is a write with a failed read that loses a stored minute |
| ActivePool.UniqueNormalizedSymbols | backend/beast_market/active_pool.py:483-494 | the loop with its seen set keeps first occurrences |
| ActivePool.UniqueIsDistinct | backend/beast_market/active_pool.py:483-494 | the result has no duplicates and exactly the valid symbols |
| ActivePool.ActiveSymbolPoolManager.constructor | backend/beast_market/active_pool.py:80-102 | a new manager has the distinct initial pins and nothing else |
| ActivePool.ActiveSymbolPoolManager.RecomputeActivePool | backend/beast_market/active_pool.py:251-260 | the new base and active lists; nothing else changes |
| ActivePool.EvictionsRecorded | backend/beast_market/active_pool.py:262-267 | a query, pin or unpin records exactly the symbols that it pushes out of the active list, and a new selection of the base records none |
| ActivePool.DeparturesAreRecorded | backend/beast_market/active_pool.py:123-179 | between two selections of the base every symbol that leaves the active list is recorded as evicted by a step in between |
| ActivePool.ActiveSymbolPoolManager.RebuildBaseActive | backend/beast_market/active_pool.py:104-111 | a new ranking replaces the old one and any explicit list |
| ActivePool.ActiveSymbolPoolManager.BootstrapExplicitSymbols | backend/beast_market/active_pool.py:113-121 | an explicit list becomes the candidates; the ranking is filled only if it was empty |
| ActivePool.ActiveSymbolPoolManager.NoteQuery | backend/beast_market/active_pool.py:123-153 | the new pool and the reported change, in all four cases |
| ActivePool.QueryMeans | backend/beast_market/active_pool.py:123-153 | active already, turned away and counted, or newly pinned: what each answer reports and changes |
| ActivePool.PinnedButOut | backend/beast_market/active_pool.py:128-130 | a query for a pinned symbol that is not active yet brings the pool up to date |
| ActivePool.ActiveSymbolPoolManager.ManualPin | backend/beast_market/active_pool.py:155-159 | the new pool and the reported change |
| ActivePool.PinMeans | backend/beast_market/active_pool.py:155-159 | a manual pin of a pinned symbol changes nothing, of any other it is a query |
| ActivePool.ActiveSymbolPoolManager.ManualUnpin | backend/beast_market/active_pool.py:161-179 | the new pool and the reported change |
| ActivePool.UnpinMeans | backend/beast_market/active_pool.py:161-179 | unpinning takes the symbol out of the pins and nothing else, or lets a temporary one go |
| ActivePool.TemporaryUntilLetGo | backend/beast_market/active_pool.py:123-182 | over any run the temporary symbols are exactly those turned away for lack of pins and neither released nor unpinned while not pinned since |
| ActivePool.PoolLaws | backend/beast_market/active_pool.py:251-260 | a recomputed pool is duplicate-free, pins followed by a prefix of the unpinned candidates, no larger than the target or the pins, and leaves a candidate out only when full |
| ActivePool.BootstrapMeans | backend/beast_market/active_pool.py:113-121 | explicit symbols fill the base in order whatever the ranking says, which is taken only if there was none |
| ActivePool.RebuildMeans | backend/beast_market/active_pool.py:104-111 | a ranking fills it whatever symbols were given before |
| ActivePool.ExplicitSymbolsLast | backend/beast_market/active_pool.py:254-257 | explicit symbols keep deciding the base until the next selection |
| ActivePool.BaseIsBest | backend/beast_market/active_pool.py:254-259 | every base symbol comes before every candidate left out |
| ActivePool.NewPin | backend/beast_market/active_pool.py:140-153 | a new pin joins, evicting the last base symbol exactly when the pool is full, and nobody else |
| ActivePool.UnpinEvictsOnlyItself | backend/beast_market/active_pool.py:161-179 | an unpin evicts nobody but the unpinned symbol |
| ActivePool.PinThenUnpin | backend/beast_market/active_pool.py:155-179 | in every built pool, pin then unpin restores pinned, base and active lists exactly if and only if the symbol was not pinned before |
| ActivePool.ManualPinTakesEffect | backend/beast_market/active_pool.py:126-133 | a manual pin leaves the symbol pinned if and only if it was pinned, or is not in the base and there is room |
| ActivePool.PinsWithoutEffect | backend/beast_market/active_pool.py:123-179 | a pool whose base symbol is pinned in vain and whose pin is lost by pinning and unpinning it |
| ActivePool.RunStaysSynced | backend/beast_market/active_pool.py:104-182 | every pool reachable from a built one keeps those laws and its pin bound |
| SymbolRanking.GroupRows | backend/beast_market/active_pool.py:300-324 | groups exactly the counting rows per symbol, in order, and collects the excluded symbols |
| SymbolRanking.StatsOfGroups | backend/beast_market/active_pool.py:326-342 | the averages over each symbol's latest window |
| SymbolRanking.RankActiveSymbols | backend/beast_market/active_pool.py:288-358 | each symbol with a counting row once, with its window averages, best first by metric then symbol, numbered from 1 |
| SymbolRanking.RankingDescends | backend/beast_market/active_pool.py:344-345 | best first by the metric asked for, then by symbol |
| SymbolRanking.RankedFields | backend/beast_market/active_pool.py:328-342 | averages, days and latest date of an entry |
| SymbolRanking.RowsMean | backend/beast_market/active_pool.py:303-324 | which rows count for a symbol |
| SymbolRanking.WindowIsLatest | backend/beast_market/active_pool.py:328-329 | the window is the latest days, at least one |
| SymbolRanking.AverageMeans | backend/beast_market/active_pool.py:471-480 | an average is of the readable values, each counting alike, and 0 without any |
| SymbolRanking.ExcludedMeans | backend/beast_market/active_pool.py:321-323 | which symbols are reported as excluded |
| SymbolRanking.BaseBeatsTheRest | backend/beast_market/active_pool.py:104-111 | in a rebuilt pool every base symbol beats every ranked symbol left out |
| TopicDemux.ConfluentKafkaConsumerAdapter.TakeBuffered | backend/beast_market/production_runtime.py:342-345 | the buffered prefix of the topic, up to the batch size, is taken out |
| TopicDemux.ConfluentKafkaConsumerAdapter.PollTopic | backend/beast_market/production_runtime.py:340-370 | batch, buffers and stream position after a poll, with timeouts and errors |
| TopicDemux.PollKeeps | backend/beast_market/production_runtime.py:340-370 | one poll hands on what was buffered and what arrives, per topic and in order, at most the batch size, and raises exactly when it meets an error |
| TopicDemux.PollStops | backend/beast_market/production_runtime.py:342-370 | a poll that does not fill its batch has met a timeout, an error or the end; a full buffer leaves the stream alone |
| TopicDemux.PollLosesOnlyOnError | backend/beast_market/production_runtime.py:342-359 | a poll loses records if and only if the stream has an error with only arrivals before it, and buffer and arrivals of the topic up to there come to some records but not a full batch |
| TopicDemux.PollCanLose | backend/beast_market/production_runtime.py:357-359 | one record and then an error: the record is gone |
| TopicDemux.NothingLostOrReordered | backend/beast_market/production_runtime.py:340-370 | over any interleaving of polls, errors included, delivered plus buffered records of a topic are its arrivals, in order, if and only if no poll of the topic runs into an error with records at hand |
| TopicDemux.DeliveredOrLost | backend/beast_market/production_runtime.py:340-370 | and if one does, they are fewer for good |
| ReliablePublish.FileBackedSpool.constructor | backend/beast_market/adapters.py:97-104 | a new process loads exactly the readable records of the file |
| ReliablePublish.FileBackedSpool.LoadExisting | backend/beast_market/adapters.py:145-166 | readable records in order; every other line is quarantined |
| ReliablePublish.FileBackedSpool.Append | backend/beast_market/adapters.py:106-118 | memory grows by the record, the file by its line, or by a spoiled line if the last one had no newline |
| ReliablePublish.AppendKeeps | backend/beast_market/adapters.py:117-118 | an append keeps its record exactly when the last line is terminated or blank; otherwise the record is lost, and with it a readable last line |
| ReliablePublish.FileBackedSpool.Drain | backend/beast_market/adapters.py:120-124 | everything is handed out and the file removed |
| ReliablePublish.FileBackedSpool.Replace | backend/beast_market/adapters.py:126-143 | memory and file become these records; an empty list removes the file |
| ReliablePublish.RecordsOfLines | backend/beast_market/adapters.py:126-166 | reloading a written file recovers the same records |
| ReliablePublish.ReliableEventBus.Publish | backend/beast_market/adapters.py:199-233 | the event is delivered once at the first success, or spooled once, dead-lettered and raised after retries + 1 failures |
| ReliablePublish.ReplayKafkaSpool | backend/beast_market/ops.py:548-606 | replay delivers the records before the first failure in order and leaves exactly the rest; a dry run changes nothing |
| ReliablePublish.StepConserves | backend/beast_market/adapters.py:199-233 | a step keeps every event and the one it offers if and only if it is not a failing publish on a spoiling file |
| ReliablePublish.TornUntilWritten | backend/beast_market/ops.py:572-606 | the file stays torn until a step writes it, and never after |
| ReliablePublish.EveryEventOnce | backend/beast_market/ops.py:572-606 | over any run of publishes, restarts and completed replays each offered event is exactly once on the bus or in the file, if and only if the file did not start with an unterminated text line, or the first step to write it was not a failing publish |
| ReliablePublish.TornSpoolLoses | backend/beast_market/adapters.py:117 | a record without its newline and a failing publish: both events are gone |
| SilverIndex.MammothAPI.IndexBySymbol | backend/beast_market/mammoth_api.py:464-469 | the built index agrees with a scan for every symbol |
| SilverIndex.MammothAPI.RowsForSymbol | backend/beast_market/mammoth_api.py:461-471 | cached or not, the answer is a fresh in-order scan |
| SilverIndex.MammothAPI.IndexBySymbolDate | backend/beast_market/mammoth_api.py:476-482 | the built index agrees with a scan for every symbol and date |
| SilverIndex.MammothAPI.RowsForSymbolDate | backend/beast_market/mammoth_api.py:473-484 | cached or not, the answer is a fresh in-order scan |
| SilverIndex.ScanSymbolMeans | backend/beast_market/mammoth_api.py:464-471 | a scan is the symbol's rows in table order, none for the empty symbol |
| SilverIndex.ScanSymbolDateMeans | backend/beast_market/mammoth_api.py:476-484 | the same for symbol and date |
| SilverIndex.MammothAPI.InvalidateCaches | backend/beast_market/mammoth_api.py:456-459 | both row indexes and the history cache are empty |
| SilverIndex.MammothAPI.GetParticipantHistory | backend/beast_market/mammoth_api.py:315-335 | the last days of the cached or freshly sorted rows, and the new cache; fewer than one day is an error |
| SilverIndex.HistoryMeans | backend/beast_market/mammoth_api.py:327-333 | a fresh history is the participant's rows up to the trade date, each as often as stored, in ascending dates |
| SilverIndex.CacheStaysSound | backend/beast_market/mammoth_api.py:324-334 | without the empty trade date every cache entry is what a fresh scan gives, over any queries and invalidations |
| SilverIndex.HistoryIsFresh | backend/beast_market/mammoth_api.py:315-335 | then every answer is the fresh one |
| SilverIndex.CacheHoldsFirst | backend/beast_market/mammoth_api.py:324-334 | the cache holds exactly the keys asked for since the last invalidation, each with the rows of the form of date that came first |
| SilverIndex.AnswerIsFreshExactly | backend/beast_market/mammoth_api.py:315-335 | over any run the next answer is fresh if and only if its trade date is a real one, the participant has no dated row, or the first query of its key used the same form |
| SilverIndex.EmptyDateSharesKey | backend/beast_market/mammoth_api.py:324 | a missing and an empty trade date, asked in either order: the second answer is right if and only if the participant has no dated row |
| SilverIndex.MammothAPI.GetCcassHoldingPair | backend/beast_market/mammoth_api.py:290-313 | the pair for the rows up to the trade date |
| SilverIndex.CutsMean | backend/beast_market/mammoth_api.py:291-298 | the rows up to a date and on a date, in table order |
| SilverIndex.SignatureMeans | backend/beast_market/mammoth_api.py:602-612 | signatures count each participant, shares and percentage |
| SilverIndex.LatestDiffering | backend/beast_market/mammoth_api.py:299-305 | the search finds the latest earlier date with other holdings, or none exists |
| SilverIndex.DatesAreSorted | backend/beast_market/mammoth_api.py:296 | the dates are exactly those of the rows, strictly ascending |
| SilverIndex.PairOf | backend/beast_market/mammoth_api.py:296-313 | the current date is the latest; the previous one is the latest earlier date with differing holdings, or else the date just before |
| SilverIndex.ChosenIsPrevious | backend/beast_market/mammoth_api.py:300-307 | the choice, with its fall-back for an empty candidate, is that date |
| Percentile.PercentileWithinSamples | backend/beast_market/performance.py:17-27 | a percentile lies between the least and the greatest sample |
| Percentile.PercentileMonotone | backend/beast_market/performance.py:17-27 | a higher rank never gives a lower value, across segments |
| Percentile.PercentileIgnoresOrder | backend/beast_market/performance.py:20 | the order of the samples does not matter |
| Percentile.PercentileAtSample | backend/beast_market/performance.py:23-27 | the rank k/(n-1) gives the k-th sample in order |
| Percentile.PercentileBetweenSamples | backend/beast_market/performance.py:23-27 | between two neighbouring samples the value moves in a straight line |
| Percentile.FewSamples | backend/beast_market/performance.py:18-22 | 0 without samples, and the sample itself with one |
| Percentile.SamplesAscend | backend/beast_market/performance.py:20 | the samples are taken in ascending order |
| Percentile.PercentileExtremes | backend/beast_market/performance.py:17-27 | ranks 0 and 1 give the least and the greatest sample |
| Percentile.CopiesAgree | backend/beast_market/production_adapters.py:475-485 | the copy with ranks out of 100 agrees at a hundred times the rank |

## Left out

- ISO 8601 text: timestamps are integers in Hong Kong time, or `None` where the program skips a timestamp it cannot read; a dedupe key still compares the timestamp as written.
- Floating-point rounding: prices, turnovers and percentiles are reals; `int()` truncation of a fractional volume is not modelled.
- JSON shape checks (values that are not objects or lists): every bar list is a list and every record an object. Contract validation of events, snapshots and keys is not modelled either.
- Alerts, the big-trade decision, display names, freshness flags, `updatedAt`, `last_tick`, and the contents of broker queues and order books: a queue or book event appears only through the rollover it causes.
- Publishing to the bus, cache writes and lag counters around each state step.
- SessionLaws.RunReconciles: ticks are stamped no later than the clock's minute and the clock never goes back; `SessionLaws.StepReconcilesExactly` says exactly what breaks otherwise.
- RepeatedMinutes.PreloadedRunReconciles: the conversion of table rows into bars is not modelled; it starts from any time-ordered list of regular bars of the date, none ahead of the clock, that the cap allows.
- IntradayRecovery.RecoverTwice: rows have a timestamp and a trade id or row hash; without them event ids number the rows of one backfill and the wall clock stands in for the timestamp.
- IntradayRecovery.Recovery.Recover: the clock is read once per recovery, and which backfilled events are big trades is a parameter; what the replayed events do to the state is not modelled. A restart in between rewrites the cached bars, so `IntradayRecovery.BackfillNeedsMissingRow` is stated for any timestamp.
- Prices and sizes in a tick's dedupe key stand for their textual rendering; the compute step that processes a recovered event is a list of processed events.
- The raw-event store is an append-only sequence; its own files are not part of this model.
- RawEventQueue.BoundedRawEventQueue.Push: each push and pop is one atomic step under its lock; an event that carries the reserved field `__coalesce_key__` itself is outside the event type.
- ReadModelMerge.RedisSnapshotCache.SetTerminalSnapshot: expiry times, latency statistics, record metadata, and writes without a pipeline, which could stop half-way.
- Instrument classification (name and type patterns) is a parameter of the ranking: which symbols are eligible.
- Symbol normalisation, and the sorted order of added and evicted symbols in a pool change, which are sets here.
- TopicDemux.ConfluentKafkaConsumerAdapter.PollTopic: subscription, timeouts and the broker's own offsets stay outside; what the consumer yields is a stream of arrivals, timeouts and errors. Committing, which only remembers the last offset of a topic and never affects a poll, is left out.
- ReliablePublish.ReplayKafkaSpool: the confirm flag, the quarantine file's contents, spool timestamps, a bus that itself spools, and a crash in the middle of a replay.
- SHA-256: holdings are compared by the multiset of their rows' contents.
- Aliasing of cached row lists with the lists handed to callers.
- Percentile.PercentileWithinSamples: ranks are between 0 and 1, as every caller passes them.
- Cut-over and health checklists, command-line tools, probes, packaging, the WebSocket server, and the TypeScript front end: each claim about them is settled by one branch or is I/O.
