# Monitoring Energy Service: a verified model

The service reads plant events from Kafka, writes each event to two TimescaleDB tables through a
batching writer, keeps hourly statistics per plant, announces recalculated hours through a webhook
queue shared by several replicas, and serves the events page by page. This project models the
stateful protocols of that path in Dafny and proves what each of them keeps in every interleaving.

`dafny verify dfyconfig.toml` checks the whole project.

## How it is modelled

| Files | Part of the service |
|---|---|
| `Events.dfy`, `EventStore.dfy` | event rows, the two tables, the staged COPY and its fallback |
| `DualEventWriter.dfy`, `BatchWorker.dfy` | the two pipelines as one step-by-step protocol; the producer call and the worker loop proved to follow it |
| `EventIngestion.dfy` | event identity, one message from validation to storage, redelivery |
| `AnalyticsWorker.dfy` | hourly statistics recomputed for dirty buckets only, queue updates, backoff |
| `AnalyticsCoordinator.dfy`, `DispatchRace.dfy` | aggregation and dispatch cycles; dispatcher and aggregator interleaved statement by statement |
| `AdvisoryLocks.dfy` | replicas taking and releasing a session lock through a connection pool |
| `KafkaConsumer.dfy`, `KafkaService.dfy` | consume, retry and commit as a protocol; the loop proved to follow it |
| `EndToEnd.dfy` | consumer and writer together, one process after another: what became of a committed message |
| `Digits.dfy`, `CivilTime.dfy`, `Base64.dfy`, `CursorCodec.dfy` | page cursors as text |
| `Pagination.dfy` | keyset pages with a one-row lookahead |
| `RateLimiter.dfy` | token buckets per client address and their eviction |
| `Notifier.dfy`, `HtmlEscape.dfy` | the alert queue's shutdown and message escaping |

Concurrent parts are transition systems: a state, a predicate saying which steps it allows, the state
after a step, and lists of steps as runs, so a lemma about `After(Init(...), run)` speaks of every
interleaving. Code that one goroutine executes on its own fields is a class whose methods are proved
against functions of the old state. Database, broker and network answers, clock readings and random
draws are parameters that may take any value the source has to expect. Some states carry history
(what was attempted, delivered, settled); no step is enabled or disabled by it.

Results that turned out conditional state the exact condition, both ways:
a recalculation is exact if and only if every event added since lies in a bucket still inside the
lookback window (`ExactAfterRecalculation`); a SENT payload is current if and only if no recalculation
fell between reading the row and the SENT update (`SentIsFreshUnlessRaced`); a shutdown of the writer
is sure to leave no event behind if and only if no call is in flight when the flag is raised
(`EmptiedIffNoCallInFlight`); a cancelled Kafka message can be passed over if and only if the stop
channel is still open (`PassedOverIffChannelOpen`); a restart can pass messages of a partition over
if and only if the partition was taken up before and has no commit (`RestartLosesIffUncommitted`);
a batch written by the ORM has the keys of its events if and only if none has the nil id
(`CreatedKeysIffNoNil`);
a cursor reads back if and only if its year has at most four digits (`CursorRoundTrip`); redelivery is
invisible in the analytical table if and only if all copies carry the same time
(`RedeliveryOfOneMessage`). Concrete failing runs are in `EventLeftBehind`, `StaleSentHappens`,
`GapLosesMessage`, `LatestLosesMessages`, `UnreadLosesMessage` and `EarlyCloseBreaksExclusion`.

## Where the source and its comments differ

The model follows the code.

- `SaveEventAsync` announces spillover to the dead-letter topic (dual_event_writer.go:167-171), but it
  passes no raw data, so a full channel drops the event (`NoRawNoSpillover`).
- `Stop` logs that all events were drained (dual_event_writer.go:542-570); a call that had already
  read the flag may still enqueue behind the last worker (`EventLeftBehind` is such a run,
  `EmptiedIffNoCallInFlight` the exact condition, `DrainedWhenStopReturns` the bound).
- The retry jitter is described as plus or minus a third (analytics_worker_repo.go:146); it is only
  ever added (`DelayRanges`).
- The consumer promises at-least-once processing (kafka_service.go:193-195); a message cancelled
  between the two steps of `StopConsuming` can be passed over by the next commit (`GapLosesMessage`), and
  with offsets reset to the log's end (main.go:74, kafkaconf/factory.go:58) so can whatever a partition
  without a commit held when the process started (`LatestLosesMessages`, `UnreadLosesMessage`).
- The id of an event is meant to make storing it idempotent (event_ingestion_service.go:54-55, :237); an
  explicit nil id is taken over by COPY but replaced by a generated one in every insert of the ORM, whose
  models declare a default (models.go:75, :92), so each delivery adds a row (`RedeliveryThroughOrm`).
- `IsConsumerHealthy` is said to tell whether the consumer is running (kafka_service.go:278-281); a
  consumer without topics, or whose subscription failed, never starts its loop and stays healthy.

## Model

| member | source | states |
|---|---|---|
| `EventStore.InsertAllKeys` | internal/infrastructure/adapters/repositories/dual_event_writer.go:430-434 | Inserting rows with ON CONFLICT DO NOTHING adds exactly the keys of the rows, whatever their number, order or repetition. |
| `EventStore.InsertAllFirstWins` | internal/infrastructure/adapters/repositories/dual_event_writer.go:430-434 | No stored row is ever changed, and a new key keeps the first row that carried it. |
| `EventStore.InsertAllSources` | internal/infrastructure/adapters/repositories/dual_event_writer.go:494-498 | Every row that appears was one of the inserted rows, under its own key. |
| `EventStore.InsertAllConcat` | internal/infrastructure/adapters/repositories/dual_event_writer.go:430-434 | Inserting two lists one after the other is inserting their concatenation. |
| `EventStore.BatchesRefineSingleInserts` | internal/infrastructure/adapters/repositories/dual_event_writer.go:381-505 | Any split of the rows into batches, each read back from its staging table in any order, leaves exactly the keys that one insert per row, in any order, leaves. |
| `EventStore.Connection.Commit` | internal/infrastructure/adapters/repositories/dual_event_writer.go:405-408 | A commit publishes exactly the selected rows and leaves the session's staging table empty. |
| `EventStore.Connection.Rollback` | internal/infrastructure/adapters/repositories/dual_event_writer.go:398-403 | A rollback discards staged and selected rows and undoes a table creation of the same transaction. |
| `EventStore.Store.CopyBatch` | internal/infrastructure/adapters/repositories/dual_event_writer.go:381-441 | For every pattern of failures: success adds exactly the keys of the rows as they are stored, which are the batch's own by COPY and, without a nil id, by fallback, and each new row holds the columns of an event of the batch; failure adds nothing; the session always goes back with an empty staging table. |
| `EventStore.CreatedKeysIffNoNil` | internal/infrastructure/adapters/repositories/models.go:73-98 | What the ORM stores of a batch, with ids generated for nil ones, has the keys of the batch if and only if no event has the nil id. |
| `EventStore.SaveEvent` | internal/infrastructure/adapters/repositories/dual_event_writer.go:148-165 | The synchronous write succeeds only if both inserts do; a failed analytical insert leaves the operational row; a nil id is replaced by one generated for each insert; a new row holds the event's columns. |
| `DualEventWriter.EveryAttemptAccountedFor` | internal/infrastructure/adapters/repositories/dual_event_writer.go:174-351 | In every interleaving each attempted enqueue is exactly one of dropped, queued, batched, written, lost, and unwritten events never exceed 1000 plus 500 per worker, of which there are two unless configured. |
| `DualEventWriter.ActConserves` | internal/infrastructure/adapters/repositories/dual_event_writer.go:224-282 | Every worker action keeps the account of attempts, a failed flush included. |
| `DualEventWriter.RunRefinesSingles` | internal/infrastructure/adapters/repositories/dual_event_writer.go:224-351 | In every run both tables end with the keys that inserting the successfully flushed events one by one would give, as long as the fallback met no nil id; and when generated ids meet no other id, only then. |
| `DualEventWriter.RunMatches` | internal/infrastructure/adapters/repositories/dual_event_writer.go:224-351 | In every run old rows stay as they were, and each new row is the row of a successfully flushed event, under a generated id at most where it has the nil one. |
| `DualEventWriter.DrainedWhenStopReturns` | internal/infrastructure/adapters/repositories/dual_event_writer.go:542-572 | When Stop returns no batch holds anything, every event left in a channel came from a call that read the flag before it was raised and arrived after the last worker saw the channel empty, and with no call in flight both channels are empty. |
| `DualEventWriter.EventLeftBehind` | internal/infrastructure/adapters/repositories/dual_event_writer.go:174-205 | A run, for any number of workers, in which one call reads the flag, Stop runs to its end, and the call's event is still in the operational channel when Stop returns. |
| `DualEventWriter.OperationalLeftBehind` | internal/infrastructure/adapters/repositories/dual_event_writer.go:179-190 | From every stopping state with a call before its first enqueue, some way on to the return of Stop leaves the operational channel non-empty. |
| `DualEventWriter.AnalyticalLeftBehind` | internal/infrastructure/adapters/repositories/dual_event_writer.go:192-202 | The same for a call between its two enqueues and the analytical channel. |
| `DualEventWriter.EmptiedIffNoCallInFlight` | internal/infrastructure/adapters/repositories/dual_event_writer.go:542-572 | From the raising of the flag, every way on that reaches the return of Stop empties both channels if and only if no call is in flight at that moment. |
| `DualEventWriter.StoppingStepShrinks` | internal/infrastructure/adapters/repositories/dual_event_writer.go:254-282 | Once stopping, every step but the rejection of a call uses up queued events, batches, worker phases or in-flight calls. |
| `DualEventWriter.StoppingRunBounded` | internal/infrastructure/adapters/repositories/dual_event_writer.go:542-572 | A stopping writer takes no more effective steps than the work it had left. |
| `DualEventWriter.WorkerCanMove` | internal/infrastructure/adapters/repositories/dual_event_writer.go:254-282 | A signalled worker that has not exited always has a next action. |
| `DualEventWriter.StoppingNeverStuck` | internal/infrastructure/adapters/repositories/dual_event_writer.go:542-572 | Until Stop has returned, Stop or a worker can take a step that advances the shutdown. |
| `DualEventWriter.NoRawNoSpillover` | internal/infrastructure/adapters/repositories/dual_event_writer.go:167-212 | Calls without raw data never reach the spillover callback, whatever is configured. |
| `BatchWorker.Channel.TrySend` | internal/infrastructure/adapters/repositories/dual_event_writer.go:179-190 | The send refuses exactly when the buffer is full, and keeps the order of the queue. |
| `BatchWorker.Writer.SaveEventAsyncWithRaw` | internal/infrastructure/adapters/repositories/dual_event_writer.go:173-205 | A stopping writer rejects and changes nothing; otherwise each channel takes or drops the event on its own, and only a full operational channel spills, with raw data and a callback. |
| `BatchWorker.Writer.SaveEventAsync` | internal/infrastructure/adapters/repositories/dual_event_writer.go:167-171 | The call of the ingestion service never spills. |
| `BatchWorker.CallIsThreeSteps` | internal/infrastructure/adapters/repositories/dual_event_writer.go:173-205 | The protocol's three steps of a call, uninterrupted, do to channels and callback what the method does. |
| `BatchWorker.MovesAreActions` | internal/infrastructure/adapters/repositories/dual_event_writer.go:217-282 | On every line that looks the same to the worker, each move of the worker object is an action the protocol allows, with the same outcome. |
| `BatchWorker.Worker.Flush` | internal/infrastructure/adapters/repositories/dual_event_writer.go:224-252 | A flush clears the batch whether or not it was written, and counts each row as processed or lost. |
| `BatchWorker.Worker.Receive` | internal/infrastructure/adapters/repositories/dual_event_writer.go:275-279 | Taking one event flushes at the batch size, and without a failure, or a nil id in a fallback, the rows reach the table as if inserted one after another. |
| `BatchWorker.Worker.Exit` | internal/infrastructure/adapters/repositories/dual_event_writer.go:265-268 | The default branch writes the last batch and leaves nothing in it. |
| `BatchWorker.Worker.Drain` | internal/infrastructure/adapters/repositories/dual_event_writer.go:256-270 | The drain loop, undisturbed, empties channel and batch; if no flush fails and the ORM meets no nil id the table gets what inserting batch and channel row by row gives. |
| `BatchWorker.Worker.OneTurn` | internal/infrastructure/adapters/repositories/dual_event_writer.go:271-281 | A tick writes the batch and leaves it empty; an arriving event leaves the channel for the batch, which is written when it reaches 500; a stop signal writes nothing and starts the drain. |
| `BatchWorker.Worker.DrainTurn` | internal/infrastructure/adapters/repositories/dual_event_writer.go:258-269 | A drain turn takes the first event of the channel, or writes the last batch and ends when the channel is empty. |
| `BatchWorker.Worker.Run` | internal/infrastructure/adapters/repositories/dual_event_writer.go:254-282 | Whatever others do between its turns, the loop makes only moves of the protocol, receives one event in each turn that offers one, counts each as processed, lost or in the batch, has an empty batch after a tick, and ends exactly when a stop signal is followed by an empty channel, with an empty batch. |
| `EventIngestion.Service.ProcessEvent` | internal/domain/services/event_ingestion_service.go:63-126 | Which failure each invalid message gets, in the order of the checks and without a trace; a valid one is stored under the UUID its id spells, or the name of its payload, with its own type, plant, source, data and time; what success and each storage failure leave in the two queues and tables; asynchronous success does not mean either queue took the event. |
| `EventIngestion.OneOperationalRowPerEvent` | internal/domain/services/event_ingestion_service.go:237-257 | The operational table has one row per distinct event id among the copies stored under their own ids: the first copy's. |
| `EventIngestion.AnalyticalRowsAreTimes` | internal/domain/services/event_ingestion_service.go:259-266 | The analytical table has, per event id, exactly one row per distinct processing time among the copies stored under their own ids. |
| `EventIngestion.RedeliveryOfOneMessage` | internal/domain/services/event_ingestion_service.go:54-59 | However often one message is stored under its own id there is one operational row, and one analytical row exactly when all copies carry the same time. |
| `EventIngestion.NamedByIdOrPayload` | internal/domain/services/event_ingestion_service.go:237-248 | Messages whose ids spell one UUID in whatever ways share one operational row, whatever their payloads; messages without a readable id have one row per name of a payload. |
| `EventIngestion.RedeliveryThroughOrm` | internal/domain/services/event_ingestion_service.go:237-248 | Deliveries of one message inserted by the ORM share one operational row if and only if the event id is not nil, or one id happens to be generated for all. |
| `EventIngestion.OperationalRowInRuns` | internal/infrastructure/adapters/repositories/dual_event_writer.go:224-282 | In every run of the writer an event whose id was not generated has an operational row exactly when it had one at first or a copy of it was written; a new row is a written copy's, and no continuation ever changes it. |
| `EventIngestion.AnalyticalRowsInRuns` | internal/infrastructure/adapters/repositories/dual_event_writer.go:286-351 | In every run of the writer the analytical rows of an event whose id was not generated are the initial ones and one per distinct time among its written copies. |
| `AnalyticsWorker.SumAnyOrder` | internal/infrastructure/adapters/repositories/analytics_worker_repo.go:56-59 | A sum over rows does not depend on the order in which the rows are taken, so AVG is well defined. |
| `AnalyticsWorker.BucketColumns` | internal/infrastructure/adapters/repositories/analytics_worker_repo.go:56-61 | For any listing of the values of a column, each once, the average of a bucket times their number is their total, and there is no average without a value; each of the four averages is that of its own column, and the count is that of all rows of the bucket. |
| `AnalyticsWorker.MeanBetween` | internal/infrastructure/adapters/repositories/analytics_worker_repo.go:56-59 | An average lies between the smallest and the largest value, so one value is its own average. |
| `AnalyticsWorker.NullOnlyCounts` | internal/infrastructure/adapters/repositories/analytics_worker_repo.go:56-60 | A row that is NULL in a column leaves its average alone and adds one to the count. |
| `AnalyticsWorker.OneGroupPerBucket` | internal/infrastructure/adapters/repositories/analytics_worker_repo.go:61-67 | Because plants are joined on their primary key, grouping by the plant columns splits no bucket. |
| `AnalyticsWorker.DirtyIsRecent` | internal/infrastructure/adapters/repositories/analytics_worker_repo.go:35-45 | A bucket is dirty exactly when it has an event no older than the whole minutes of the lookback, whichever sign that has. |
| `AnalyticsWorker.CalculatedRows` | internal/infrastructure/adapters/repositories/analytics_worker_repo.go:46-68 | The query yields one row per dirty bucket, computed from all events of the bucket, so no upsert meets a key twice. |
| `AnalyticsWorker.RecalculationRefreshes` | internal/infrastructure/adapters/repositories/analytics_worker_repo.go:69-86 | A recalculation gives dirty buckets their full values, the present columns of their plant and the time, and leaves the other rows alone. |
| `AnalyticsWorker.RequeuedItems` | internal/infrastructure/adapters/repositories/analytics_worker_repo.go:87-90 | A re-queued item is pending without attempts or error but keeps its times; a new one starts so; the other items stay. |
| `AnalyticsWorker.UntouchedBucket` | internal/infrastructure/adapters/repositories/analytics_worker_repo.go:39-45 | A bucket that got no event keeps its counts and averages. |
| `AnalyticsWorker.ExactAfterRecalculation` | internal/infrastructure/adapters/repositories/analytics_worker_repo.go:34-99 | From an exact view, one recalculation is exact again if and only if every event added since lies in a bucket with an event inside the lookback window. |
| `AnalyticsWorker.IncrementalEqualsFull` | internal/infrastructure/adapters/repositories/analytics_worker_repo.go:34-99 | Along every timely run of inserts, plant changes, queue updates and recalculations from empty tables, the view equals the full GROUP BY over the events of the last successful recalculation. |
| `AnalyticsWorker.PunctualIsTimely` | internal/infrastructure/adapters/repositories/analytics_worker_repo.go:35-44 | A run is timely when storing an event takes no longer than the whole-minute lookback leaves over the time between recalculations. |
| `AnalyticsWorker.QueueAndStatsAgree` | internal/infrastructure/adapters/repositories/analytics_worker_repo.go:69-91 | In every state reachable from empty tables queue and statistics have the same keys, so the "stats not found" branch is dead. |
| `AnalyticsWorker.BackoffBaseExact` | internal/infrastructure/adapters/repositories/analytics_worker_repo.go:146-150 | The 64-bit computation equals min(480, 30 doubled per attempt) up to 58 attempts, is negative for 59 to 62 and zero beyond. |
| `AnalyticsWorker.DelayRanges` | internal/infrastructure/adapters/repositories/analytics_worker_repo.go:151-154 | Each delay lies between the base and 640 seconds, and ranges are disjoint and increasing until the cap. |
| `AnalyticsWorker.AnalyticsWorkerRepo.RecalculateDirtyBuckets` | internal/infrastructure/adapters/repositories/analytics_worker_repo.go:34-100 | Success replaces statistics and re-queues exactly the dirty buckets and counts them; failure changes nothing. |
| `AnalyticsWorker.AnalyticsWorkerRepo.UpdateWebhookStatus` | internal/infrastructure/adapters/repositories/analytics_worker_repo.go:125-165 | What each status writes, that a retry needs its row, and that no other row changes. |
| `AnalyticsCoordinator.Coordinator.DoAggregation` | internal/infrastructure/adapters/repositories/analytics_coordinator.go:187-210 | Without the lock or on a query error nothing changes; otherwise one recalculation takes place and the counter grows by the number of buckets. |
| `AnalyticsCoordinator.Coordinator.DoDispatch` | internal/infrastructure/adapters/repositories/analytics_coordinator.go:230-320 | The loop handles the picked items in order, and the counters are the numbers of items that ended SENT and FAILED. |
| `AnalyticsCoordinator.DispatchedRows` | internal/infrastructure/adapters/repositories/analytics_coordinator.go:248-319 | After a cycle each picked item has the row of its own ending and every other item is unchanged. |
| `AnalyticsCoordinator.EndingsCounted` | internal/infrastructure/adapters/repositories/analytics_coordinator.go:248-319 | The numbers a cycle adds to the two counters are the numbers of picked items that were sent and given up. |
| `AnalyticsCoordinator.Coordinator.HandleOne` | internal/infrastructure/adapters/repositories/analytics_coordinator.go:248-319 | FAILED exactly with no attempts left or no statistics row, SENT exactly after a send without error, otherwise RETRYING with one more attempt, the error text and a next retry within the backoff and a third more; each counter grows only with its ending, and no other row changes. |
| `AnalyticsCoordinator.HandledRow` | internal/infrastructure/adapters/repositories/analytics_worker_repo.go:125-165 | The queue row each ending leaves, and that nothing changes when the update, or the read a retry needs, fails. |
| `AnalyticsCoordinator.CycleUsesSlots` | internal/infrastructure/adapters/repositories/analytics_coordinator.go:248-319 | A cycle with recorded updates lowers the remaining attempts of all items by at least the number of items picked. |
| `AnalyticsCoordinator.DispatchTerminates` | internal/infrastructure/adapters/repositories/analytics_coordinator.go:230-320 | Without re-queues n items are all SENT or FAILED after at most (max + 1) n picks, n under a negative maximum, and no attempt count grows beyond the maximum, whatever maximum the queue was written under. |
| `AnalyticsCoordinator.IdleCycleMeansDone` | internal/infrastructure/adapters/repositories/analytics_worker_repo.go:103-122 | A pending query that finds nothing after all retry times means every item is SENT or FAILED. |
| `AnalyticsCoordinator.SendsBounded` | internal/infrastructure/adapters/repositories/analytics_coordinator.go:248-319 | Whatever maximum the queue was written under, no item is sent more than the maximum number of times before it is SENT or FAILED. |
| `DispatchRace.RecalculationIsAggregation` | internal/infrastructure/adapters/repositories/analytics_worker_repo.go:69-91 | The aggregation step of the race is what a recalculation does to the statistics. |
| `DispatchRace.StatementsAreHandling` | internal/infrastructure/adapters/repositories/analytics_coordinator.go:248-319 | The statements of the race for one item, uninterrupted, leave the queue that the dispatch loop leaves. |
| `DispatchRace.SentIsFreshUnlessRaced` | internal/infrastructure/adapters/repositories/analytics_coordinator.go:258-312 | In every interleaving a SENT item's last delivered payload equals its current row if and only if no recalculation of it fell between the read and the SENT update. |
| `DispatchRace.SentOnlyAfterSend` | internal/infrastructure/adapters/repositories/analytics_coordinator.go:293-312 | An item becomes SENT only by the update after a successful send of the row read in the same cycle. |
| `DispatchRace.StaleSentHappens` | internal/infrastructure/adapters/repositories/analytics_coordinator.go:258-312 | A run that leaves a SENT item with an outdated payload. |
| `DispatchRace.RetryTimesBounded` | internal/infrastructure/adapters/repositories/analytics_worker_repo.go:139-158 | In every interleaving, re-queues included, the next retry is at most 640 seconds after the last attempt and attempts never pass the maximum. |
| `DispatchRace.ExhaustionTakesTime` | internal/infrastructure/adapters/repositories/analytics_coordinator.go:249-256 | With five attempts an item is given up no sooner than 930 seconds after the first failure of its round. |
| `AdvisoryLocks.ExclusionHoldsWhileAcquirerOpen` | internal/infrastructure/adapters/repositories/analytics_coordinator.go:169-179 | While one replica runs its job, another's attempt fails through every session as long as the acquiring session is open. |
| `AdvisoryLocks.MutualExclusion` | internal/infrastructure/adapters/repositories/analytics_coordinator.go:171-193 | With any choice of pooled session for each acquire and release, failed releases and unheard acquires included, at most one replica runs the job if no acquiring session is closed meanwhile. |
| `AdvisoryLocks.EarlyCloseBreaksExclusion` | internal/infrastructure/adapters/repositories/analytics_coordinator.go:171-193 | A run in which the acquiring session is closed and two replicas are inside. |
| `AdvisoryLocks.LeakedLockBlocksEveryone` | internal/infrastructure/adapters/repositories/analytics_coordinator.go:180-185 | After a release through another session nobody gets in until the holding session is used again or closed. |
| `AdvisoryLocks.ReleaseLeaks` | internal/infrastructure/adapters/repositories/analytics_coordinator.go:180-185 | A cycle ends with the lock still held exactly when its release went through another session, or an earlier cycle's did. |
| `AdvisoryLocks.LeakSurvivesCycles` | internal/infrastructure/adapters/repositories/analytics_coordinator.go:169-185 | Through one session a cycle gets in whenever the lock is free or leaked there and leaves it exactly as it was; only the end of the session undoes a leak. |
| `KafkaConsumer.HandleWithRetry` | internal/api/kafka_service.go:221-276 | At most 1 + 3 handler calls, exactly those reached without success, permanent error or cancellation; at most one dead-letter attempt, which counts as handled however it ends; false only on cancellation. |
| `KafkaConsumer.CommittedMeansAccounted` | internal/api/kafka_service.go:111-218 | Over every run, restarts included, each offset below a committed offset, from the first offset taken up on, had no handler, was handled or had a dead-letter attempt, or was cancelled in the gap of the two-step stop, or lay below the log end at which a restart took up a partition without a commit. |
| `KafkaConsumer.CommittedMeansHandled` | internal/api/kafka_service.go:111-218 | If every partition taken up is committed before each restart, the gap of the two-step stop makes the only exceptions. |
| `KafkaConsumer.AtomicStopNeverSkips` | internal/api/kafka_service.go:283-288 | If moreover cancel and close are one step, every offset below a committed offset, from the first offset taken up on, had no handler, was handled or had a dead-letter attempt. |
| `KafkaConsumer.PassedOverIffChannelOpen` | internal/api/kafka_service.go:193-203 | The process can still commit past an uncommitted cancelled message if and only if the stop channel is open. |
| `KafkaConsumer.GapLosesMessage` | internal/api/kafka_service.go:283-288 | A run that commits past a message nobody handled. |
| `KafkaConsumer.RestartLosesIffUncommitted` | internal/infrastructure/conf/kafkaconf/factory.go:54-65 | A new process can commit past a message of a partition that nobody handled or gave up if and only if the partition was taken up before, read or not, and has no commit. |
| `KafkaConsumer.LatestLosesMessages` | main.go:74 | A run with a one-step stop that commits past one cancelled message and one that arrived between two processes. |
| `KafkaConsumer.UnreadLosesMessage` | internal/infrastructure/conf/kafkaconf/factory.go:54-65 | A run without any stop that commits past a message which arrived on an assigned, unread partition before a crash. |
| `KafkaConsumer.UnhealthyExactlyWhenLoopEnded` | internal/api/kafka_service.go:133-168 | The consumer is unhealthy exactly when its loop has ended: after the close, or on the eleventh connection error without a message in between. |
| `KafkaService.Service.Process` | internal/api/kafka_service.go:190-203 | One message of a handled topic: if the service is stopping and a wait that is reached is cancelled, nothing is committed, dead-lettered or settled, and the message lies in the gap exactly while the channel is open; otherwise it is settled, by a success or one dead-letter attempt, and the next offset is committed exactly if the broker accepts. |
| `KafkaService.Service.CommitOffset` | internal/api/kafka_service.go:208-218 | An accepted commit moves the committed offset of the partition behind the message; a refused one changes nothing. |
| `KafkaService.Service.ReadFailed` | internal/api/kafka_service.go:140-165 | Only connection errors are counted, and the eleventh in a row ends the loop and the health; any other error changes nothing. |
| `KafkaService.Service.MessageRead` | internal/api/kafka_service.go:167-204 | The next message of the partition is read, at its position or where the partition is taken up, the position moves behind it, the error count starts anew, and the message is concluded as by `Process`; an unhandled topic is settled and committed at once. |
| `KafkaService.Service.OneTurn` | internal/api/kafka_service.go:133-205 | A turn with the channel closed ends the loop; a failed read leaves messages, offsets and positions alone; any other turn reads and concludes one message; positions of other partitions stay. |
| `KafkaService.Service.ConsumeEvents` | internal/api/kafka_service.go:111-206 | Every execution of the loop is a run of the protocol; each message settled had no handler, a success or a dead-letter attempt; without stops, connection errors and refused commits every message delivered is settled and committed, and the loop goes on; without topics or subscription nothing happens. |
| `EndToEnd.CommittedMessagesExplained` | internal/domain/services/event_ingestion_service.go:271-294 | In every joint run of consumer and asynchronous writer, process after process: a committed message, from the first offset taken up on, had no handler, a dead-letter attempt or one of the consumer's two exceptions, or its event was offered to both lines of one process and was there written and is in the table to this day, dropped, given up with a failed batch, or in that process's memory, which a stop with no call in flight excludes. |
| `Digits.NumeralRoundTrip` | internal/domain/ports/output/pagination.go:37-40 | Zero-padded numerals read back as the number they print, when it fits. |
| `Digits.UuidRoundTrip` | internal/domain/ports/output/pagination.go:56-59 | The hyphenated text of every UUID reads back as that UUID. |
| `Digits.SpellingsAgree` | internal/domain/services/event_ingestion_service.go:240-248 | The wrapped, URN and bare spellings of a UUID read as the same UUID as its hyphenated text, so they name one event. |
| `Digits.ParsesExactlySpellings` | internal/domain/services/event_ingestion_service.go:240-248 | A text reads as a UUID exactly when it is one of the four spellings of it in some mix of cases, so it spells at most one. |
| `CivilTime.CivilRoundTrip` | internal/domain/ports/output/pagination.go:38 | Every instant's calendar date is a valid date and names that instant. |
| `CivilTime.TimeRoundTrip` | internal/domain/ports/output/pagination.go:38-55 | Formatted instants with trimmed nanoseconds read back exactly up to year 9999, and are rejected beyond. |
| `CivilTime.ZonedRead` | internal/domain/ports/output/pagination.go:52-55 | A timestamp with a UTC offset names the instant that many minutes earlier than its fields in UTC. |
| `CivilTime.FormatInjective` | internal/domain/ports/output/pagination.go:38 | Different instants, of any year, have different texts. |
| `Base64.RoundTrip` | internal/domain/ports/output/pagination.go:39-47 | Decoding the encoding of any octets gives them back. |
| `Base64.DecodesIffWellFormed` | internal/domain/ports/output/pagination.go:44-47 | A text decodes exactly when it is whole groups of four letters, the last one padded at most twice. |
| `CursorCodec.CursorRoundTrip` | internal/domain/ports/output/pagination.go:36-61 | A cursor decodes to the position it was made from if its year has four digits, and is rejected as a bad timestamp otherwise. |
| `CursorCodec.CursorAccepted` | internal/domain/ports/output/pagination.go:43-61 | A string is accepted exactly when its octets are a time, a bar and a spelling of a UUID; every other one gets the error of the first part that is wrong. |
| `CursorCodec.CursorsDistinct` | internal/domain/ports/output/pagination.go:36-40 | Different positions have different cursors, also those dated so late that they do not decode. |
| `Pagination.NormalizeLimit` | internal/domain/ports/output/pagination.go:63-72 | A limit in 1 to 200 is kept, one below becomes 50 and one above 200. |
| `Pagination.ListingUnique` | internal/infrastructure/adapters/repositories/event_operational_repo.go:38 | A set of rows has only one listing in the query's order. |
| `Pagination.FindPage` | internal/infrastructure/adapters/repositories/event_operational_repo.go:35-65 | One row of lookahead gives a page of rows of the type after the cursor, newest first and by falling id within one time, as many as the limit or all there are, and a next cursor, naming the last item, exactly when rows were left out. |
| `Pagination.PageHoldsWanted` | internal/infrastructure/adapters/repositories/event_operational_repo.go:35-65 | No row is skipped: a wanted row that is not on the page comes after its last row. |
| `Pagination.WalkIsListed` | internal/infrastructure/adapters/repositories/event_operational_repo.go:35-108 | Whatever is inserted or deleted between requests, the rows seen are in strict order: none twice. |
| `Pagination.StableRowsAreSeen` | internal/infrastructure/adapters/repositories/event_operational_repo.go:35-108 | A matching row present at every request of a finished walk is seen. |
| `Pagination.SeenRowsWereThere` | internal/infrastructure/adapters/repositories/event_operational_repo.go:78-108 | Every row seen matched the filter and was in the table of some request. |
| `Pagination.PagingIsComplete` | internal/infrastructure/adapters/repositories/event_operational_repo.go:35-108 | Over an unchanged table the pages concatenate to the rows of the type, newest first, each once and none missing. |
| `Pagination.WalkEnds` | internal/infrastructure/adapters/repositories/event_operational_repo.go:49-63 | The walk has no next cursor exactly once the limits asked for add up to the number of rows, so it ends. |
| `Pagination.NextCursorReads` | internal/infrastructure/adapters/repositories/event_operational_repo.go:60-63 | The next_cursor string is empty exactly on a final page and otherwise reads back as the last row's position. |
| `Pagination.StringsFollowPositions` | internal/infrastructure/adapters/rest/event_handlers.go:61-81 | Paging through cursor strings is paging through positions, and a string that reads as no position gets no page. |
| `RateLimiter.Limiter.Allow` | internal/infrastructure/adapters/rest/ratelimit.go:41-69 | An unknown address is let through; a known one exactly when its bucket, filled by 100 requests per second up to 20, holds a request, which is then taken; a refusal costs nothing and other addresses are untouched. |
| `RateLimiter.Limiter.Cleanup` | internal/infrastructure/adapters/rest/ratelimit.go:79-87 | The loop removes exactly the entries idle for more than ten minutes. |
| `RateLimiter.CleanupIsUnobservable` | internal/infrastructure/adapters/rest/ratelimit.go:71-90 | For every history of requests and cleanups, evicting changes no answer. |
| `RateLimiter.AdmittedIsPaid` | internal/infrastructure/adapters/rest/ratelimit.go:12-17 | From any state, requests let through are paid by the level at the start and the time since. |
| `RateLimiter.TokensAreGranted` | internal/infrastructure/adapters/rest/ratelimit.go:12-69 | In every history, evictions included, an address gets at least as many requests through as its bucket holds tokens for, or all of them. |
| `RateLimiter.BurstPasses` | internal/infrastructure/adapters/rest/ratelimit.go:14 | The first 20 requests of a new address pass, however fast they come. |
| `RateLimiter.SpacedRequestsPass` | internal/infrastructure/adapters/rest/ratelimit.go:13 | An address whose requests are at least 10 ms apart is never refused. |
| `RateLimiter.WindowBound` | internal/infrastructure/adapters/rest/ratelimit.go:12-69 | In every history, evictions included, any window of d seconds lets through at most 20 + 100 d requests per address. |
| `Notifier.ShutdownLosesNothing` | internal/infrastructure/adapters/telegram/notifier.go:56-105 | In every interleaving nothing is sent on the closed channel, the queue keeps its bound, order is kept, and Stop returns only when every accepted message was handed over exactly once. |
| `Notifier.ShutdownAdvances` | internal/infrastructure/adapters/telegram/notifier.go:93-105 | After the close producers delay nothing, every other step brings the end closer, and one is always possible. |
| `Notifier.Sender.Enqueue` | internal/infrastructure/adapters/telegram/notifier.go:77-91 | A message is queued exactly when the notifier is not stopped and the queue not full; the call is a run of the protocol. |
| `Notifier.Sender.FinishWork` | internal/infrastructure/adapters/telegram/notifier.go:56-68 | After the close the worker hands over the whole queue in order and exits; its loop is a run of the protocol. |
| `Notifier.Sender.Close` | internal/infrastructure/adapters/telegram/notifier.go:97-101 | Raising the flag and closing the channel follow the protocol. |
| `Notifier.Sender.Stop` | internal/infrastructure/adapters/telegram/notifier.go:93-105 | With calls that come too late and the worker's remaining loop in between, Stop is a run of the protocol that hands over what was queued, in order, and nothing else. |
| `HtmlEscape.PassesAreSubstitution` | internal/infrastructure/adapters/telegram/notifier.go:139-144 | The three whole-string replacements are one substitution per character. |
| `HtmlEscape.EscapeIsLossless` | internal/infrastructure/adapters/telegram/notifier.go:139-144 | The escaped text has no markup character and the input can be read back from it. |
| `HtmlEscape.EscapeIsInjective` | internal/infrastructure/adapters/telegram/notifier.go:139-144 | Different texts have different escapes. |
| `HtmlEscape.AmpersandMustComeFirst` | internal/infrastructure/adapters/telegram/notifier.go:139-144 | Replacing the ampersand last gives the same text exactly for inputs without angle brackets. |

## Left out

- DispatchRace.SentIsFreshUnlessRaced: recalculations are stamped with strictly increasing times, and one dispatcher works at a time (`MutualExclusion`).
- DispatchRace.ExhaustionTakesTime: one clock is modelled, here and wherever times meet. The code compares `time.Now()` of a process (created_at, last_attempt, next_retry_at) with `NOW()` of the database; a skew between them shifts the lookback window of `PunctualIsTimely` and the waiting times by as much.
- EventStore.Store.CopyBatch: a COMMIT that takes effect on the server while its answer is lost counts as not committed; a generated id is any id, and only `CreatedKeysIffNoNil` uses that it is never nil; the constraints on columns other than the key (foreign key, lengths, JSON syntax) appear only as a failing insert.
- EndToEnd.CommittedMessagesExplained: the writer in asynchronous mode, fed by the consumer alone; a synchronous handler is `ProcessEvent`.
- BatchWorker.Writer.SaveEventAsyncWithRaw: the method is a call that no other call interrupts; interrupted calls are the protocol's separate steps.
- DualEventWriter.DrainedWhenStopReturns: the metrics reporter, which Stop also waits for and which touches no event, is not a worker of the model.
- AnalyticsWorker.IncrementalEqualsFull: averages are exact reals, not double precision; plant columns of buckets that are no longer dirty may be outdated and are not part of the claim; one SQL statement is one step.
- AnalyticsWorker.AnalyticsWorkerRepo.UpdateWebhookStatus: a negative backoff base, for which the random source panics, is outside the method's precondition.
- EventIngestion.Service.ProcessEvent: the digital-twin upsert and the alert evaluation that follow a stored event are not modelled, as they cannot fail the event; notifications to operators neither.
- EventIngestion.RedeliveryOfOneMessage: SHA-256 and the version 5 UUID over it are one arbitrary function of the payload, so two payloads may share an id; the plant id and the time may differ between copies. UUID spellings follow the google/uuid library, which is not part of this repository.
- AdvisoryLocks.MutualExclusion: one lock id is modelled; the aggregator's and the dispatcher's do not interact. A session stays open or is closed by the pool; server crashes are closes.
- KafkaConsumer.CommittedMeansAccounted: one member of the consumer group at a time; partition rebalancing within a process, log compaction and offset expiry are not modelled.
- RateLimiter.WindowBound: looking an entry up and asking its bucket are one step; tokens are whole billionths of a second of credit instead of floating point. The golang.org/x/time/rate library is not part of this model beyond its token-bucket rule.
- CursorCodec.CursorAccepted: the timestamp leniencies of Go, which no encoded cursor uses (a comma before the fraction, an hour of one digit), are not accepted by the model.
- CursorCodec.CursorRoundTrip: instants before year 0. Strings are sequences of octets.
- Pagination.StringsFollowPositions: for rows dated before year 10000, which is where cursors read back.
- Pagination.FindPage: the preloaded plant of each event and database errors.
- Database timestamps are kept to the nanosecond; the rounding to microseconds on storage is not modelled.
- Retention and compression of old events; the statistics are assumed to be recalculated before events of a bucket are deleted.
- Handlers and routing, configuration, health and metrics endpoints, alert rules, the webhook receiver, the plant cache and plain create-read-update-delete repositories: easy claims or plumbing.
- The layout of dead-letter and Telegram messages, logging and correlation ids.
