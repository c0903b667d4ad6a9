# Reliability kernels of the contact-centre backend, in Dafny

A model of the stateful parts of the backend whose promises hold over whole
runs, and machine-checked proofs of those promises. `dafny verify
dfyconfig.toml` checks all of them.

Each component is modelled in the form its source has. Objects that update
their fields are classes whose methods keep the source's branches and loops;
their contracts tie the new state to a value-level function of the old one.
Where goroutines, processes or servers interleave, a step system says which
atomic actions are possible, a run is a list of actions, and the theorems
quantify over all runs. Clocks, database answers, carrier answers and bus
answers are parameters, so every failure the code handles can happen at every
step.

| files | component |
|---|---|
| `Facts`, `FactsStoreProtocol`, `FactsStoreSafety`, `FactsStoreClose`, `FactsStoreFlusher`, `FactsStoreDrain` | the batched ClickHouse facts store and its shutdown protocol |
| `SendTable`, `SendTableEviction`, `SingleFlight`, `SingleFlightSafety`, `SingleFlightAnswers` | the carrier send table and the single-flight protocol around it |
| `Outbox`, `OutboxSafety`, `OutboxHistory`, `Dispatcher`, `FactsConsumer` | outbox leases, the dispatcher, the idempotent facts consumer, end to end |
| `WorkflowStore`, `WorkflowLadder`, `WorkflowMarks`, `WorkflowRuns` | compare-and-swap workflow stores, the workflows over them, the engine's step table |
| `TokenBucket`, `SlidingWindow`, `FixedWindow` | the three rate limiters |
| `ToolGate` | the tool gateway's gate chain around the sliding window |
| `RingMap`, `Indexer`, `IndexerSafety`, `IndexerMeaning` | the bounded FIFO map and the search indexer |
| `Interactions`, `LedgerDrain`, `LedgerOrder`, `LedgerReach` | interaction lifecycle, carrier events, the ledger drain, end to end |
| `Ordering`, `Routing`, `RoutingOutcome` | stable sorting and the routing engine |
| `Ussd` | USSD sessions and wire text |
| `RoleCache`, `Jwks` | the two TTL caches |
| `Text`, `Pagination` | cursor pagination |
| `Counting`, `Lists`, `Arithmetic`, `Wrappers` | occurrence counts, the measure of conservation; lists; products; options |

## Where the code and its comments differ

The model follows the code. Each difference is a theorem.

- A drain of the facts store is said to be bounded by the channel capacities
  (`internal/analytics/clickhouse/store.go:447-448`). While producers race it,
  it is bounded by what they get in: `DrainBoundedIff` says exactly when a drain
  keeps to the capacities, and `DrainOutgrowsBuffers` builds one of any size.
- `requeue` returns how many rows it shed; it misses every shed buffer head.
  `RequeueUndercounts` says exactly when the number is right.
- `claim` never sets a lease expiry although its guard reads one.
  `ReclaimedIffReleasedBefore` says exactly when a crashed dispatcher's row is
  ever claimed again; `FirstCrashStrands` and `StrandedForever` show the
  ordinary case.
- `canceled` and `failed` workflow instances are not terminal:
  `MarkSticksIffNoLateWrite` says exactly when a mark lasts, `FirstMarkDecides`
  which status any traffic leaves.
- The ring map is said never to exceed its capacity; it does, by one, exactly
  when the empty id was recorded and has left the last arrivals (`OverflowsIff`).
- The USSD table is said to be bounded; its order list gets within the cap exactly
  when the sweep meets no open session (`EvictReachesCapIff`).
- Redelivering a carrier event is harmless but not always successful: after the
  interaction moved on, the answer is a conflict (`ReplayIsHarmless`), and the
  ledger drain then counts it as a failure.
- Missing skills do block a routing request below priority 8 when nothing else
  lifts the score: `BestEffortEligibility` gives the exact condition.
- The denial hint of the token bucket rounds down, so a retry after exactly the
  hint can be refused: `RetryHint` says exactly when.
- The denial hint of the fixed window lands on the next bucket only for clocks
  past the epoch or on a boundary: `HintIsNextBucket`.
- Two (tenant, subject) pairs can share a cached role binding: `KeysCollideIff`
  says exactly which.
- An expired signing key is served again after a failed refetch:
  `StaleExactlyWhenThrottled`.

## Model

| member | source | states |
|---|---|---|
| FactsStoreSafety.StepConserves | internal/analytics/clickhouse/store.go:258-671 | every channel operation, flush, requeue and shutdown step accounts for each accepted row, by occurrence count |
| FactsStoreSafety.StepKeepsInv | internal/analytics/clickhouse/store.go:258-671 | bounded buffers, producers counted by the wait group, closer and flusher in step, kept by every step |
| FactsStoreSafety.RunKeepsInv | internal/analytics/clickhouse/store.go:258-671 | the same over whole runs |
| FactsStoreClose.Conservation | internal/analytics/clickhouse/store.go:258-315 | in every interleaving the multiset of accepted rows is delivered + buffered + stashed + in hand + shed + lost; buffers never exceed their capacity |
| FactsStoreClose.CloseAccounts | internal/analytics/clickhouse/store.go:638-671 | once Close returned nothing is left inside; a nil error means every accepted row was delivered or shed by an earlier requeue |
| FactsStoreClose.ClosedIsInert | internal/analytics/clickhouse/store.go:224-315 | after Close nothing is accepted, delivered, shed or lost |
| FactsStoreClose.RequeueUndercounts | internal/analytics/clickhouse/store.go:580-632 | the drop count is right if and only if no buffer head was shed, which is if and only if nothing was shed |
| FactsStoreClose.HealthyServerDeliversAll | internal/analytics/clickhouse/store.go:466-671 | in every run in which the server takes every batch nothing is shed or lost, Close reports no error, and once it returned the delivered rows are the accepted ones |
| FactsStoreClose.ClosedMeansClosed | internal/analytics/clickhouse/store.go:258-315 | a call is refused as closed only after Close was called |
| FactsStoreClose.ProducersLeave | internal/analytics/clickhouse/store.go:258-315 | once waiters are released every in-flight producer can leave |
| FactsStoreClose.FlusherExits | internal/analytics/clickhouse/store.go:417-446 | from wherever the flusher stands when stop is closed, some schedule takes it to its exit |
| FactsStoreClose.ShutdownStepProgress | internal/analytics/clickhouse/store.go:638-649 | once the shutdown has begun every step of the flusher, whatever the server answers, brings it closer to its exit |
| FactsStoreClose.ShutdownBounded | internal/analytics/clickhouse/store.go:638-649 | on every schedule the flusher exits after a bounded number of its own steps, and until then has one to take |
| FactsStoreClose.CloseCompletes | internal/analytics/clickhouse/store.go:651-671 | no state of the shutdown is a deadlock, whether the server is up or down |
| FactsStoreFlusher.Store.constructor | internal/analytics/clickhouse/store.go:169-218 | starts in the protocol's initial state |
| FactsStoreFlusher.Store.Drain | internal/analytics/clickhouse/store.go:449-464 | empties both buffers into the stash in order; a run of the protocol |
| FactsStoreFlusher.Store.OfferInteraction | internal/analytics/clickhouse/store.go:599-615 | keeps the newest rows, sheds the oldest when full; a run of the protocol |
| FactsStoreFlusher.Store.OfferUsage | internal/analytics/clickhouse/store.go:617-632 | the same for usage rows |
| FactsStoreFlusher.Store.RequeueInteractions | internal/analytics/clickhouse/store.go:585-590 | all failed rows offered in order; the newest survive; the count stays zero |
| FactsStoreFlusher.Store.RequeueUsage | internal/analytics/clickhouse/store.go:591-597 | the same for usage rows |
| FactsStoreFlusher.Store.Requeue | internal/analytics/clickhouse/store.go:580-597 | both tables keep their newest rows up to capacity; exactly the overflow is shed; the returned count is zero whatever was shed |
| FactsStoreFlusher.ShedThenKept | internal/analytics/clickhouse/store.go:599-632 | what a requeue sheds and what it keeps are the waiting rows in order, oldest shed, and no room is left unused |
| FactsStoreFlusher.Store.SendBatches | internal/analytics/clickhouse/store.go:501-526 | per table all or nothing: delivered rows plus unsent rows are the stash |
| FactsStoreFlusher.Store.Transmit | internal/analytics/clickhouse/store.go:466-475 | the send of a stash as a step of the protocol, table by table as the server answers |
| FactsStoreFlusher.Store.Refuse | internal/analytics/clickhouse/store.go:476-499 | refused rows are lost with the error kept on the final flush, requeued otherwise |
| FactsStoreFlusher.Store.FlushStash | internal/analytics/clickhouse/store.go:466-499 | each table's rows are delivered if and only if the connection is up and the server takes that table's batch; exactly the refused rows are requeued, or on the final flush lost with the error kept; when both are taken nothing else changes; a run of the protocol |
| FactsStoreFlusher.Store.Shutdown | internal/analytics/clickhouse/store.go:638-649 | everything stashed and buffered is delivered or lost table by table as the server answers; a healthy server means all of it is delivered, nothing lost and no error; a run of the protocol to its exit |
| FactsStoreDrain.DrainTotal | internal/analytics/clickhouse/store.go:447-464 | within a drain the stash and the buffers together grow by exactly the rows accepted meanwhile |
| FactsStoreDrain.DrainBoundedIff | internal/analytics/clickhouse/store.go:447-464 | a drain takes no more than the two capacities if and only if the producers got no more rows in meanwhile than the buffers had room for when it began |
| FactsStoreDrain.DrainOutgrowsBuffers | internal/analytics/clickhouse/store.go:447-464 | for every n some run stashes n rows in one drain |
| SendTable.Sends.constructor | internal/messaging/adapters/africastalking/sms.go:757-765 | empty table, default capacity 65536 |
| SendTable.Sends.Reserve | internal/messaging/adapters/africastalking/sms.go:767-779 | an existing slot is joined, otherwise a fresh one is queued and old ones evicted |
| SendTable.Sends.EvictLocked | internal/messaging/adapters/africastalking/sms.go:812-833 | the in-place scan computes the reference scan, whose drops `ReserveDropsOldest` counts |
| SendTable.Sends.Commit | internal/messaging/adapters/africastalking/sms.go:781-790 | records, indexes, closes |
| SendTable.Sends.Release | internal/messaging/adapters/africastalking/sms.go:792-799 | forgets the slot, closes its channel |
| SendTable.Sends.ByMessage | internal/messaging/adapters/africastalking/sms.go:802-807 | while the index is exact, a carrier id finds the retained accepted send that bears it, and nothing else |
| SendTable.ScanKeeps | internal/messaging/adapters/africastalking/sms.go:812-833 | whatever stale or duplicate entries a scan meets, unfinished sends and the order's coverage survive |
| SendTable.ScanBound | internal/messaging/adapters/africastalking/sms.go:812-833 | a scan drops its whole overflow or keeps only unfinished sends |
| SendTable.ReserveCoherent | internal/messaging/adapters/africastalking/sms.go:767-833 | every slot key stays in the FIFO, in-flight slots are never evicted, nothing is re-pointed |
| SendTable.ReserveBounded | internal/messaging/adapters/africastalking/sms.go:767-833 | after a fresh reserve the slots number at most the cap or are all unfinished |
| SendTableEviction.ScanDrops | internal/messaging/adapters/africastalking/sms.go:812-833 | the scan drops the oldest entries that are not unfinished sends, as many as its overflow, and keeps the rest in order |
| SendTableEviction.ReserveDropsOldest | internal/messaging/adapters/africastalking/sms.go:767-833 | a reservation drops at most max(0, order + 1 - cap) entries, the oldest that can be dropped; a send is forgotten if and only if it is finished and among them |
| SendTableEviction.ReserveForgetsFew | internal/messaging/adapters/africastalking/sms.go:767-833 | so at most that many sends are forgotten, none while the order has room, and the order never shrinks below the cap |
| SendTable.ReserveIndexed | internal/messaging/adapters/africastalking/sms.go:767-833 | eviction keeps the message index exact |
| SendTable.RecordIndexed | internal/messaging/adapters/africastalking/sms.go:781-790 | committing under a new carrier id keeps the index exact |
| SendTable.ReleaseIndexed | internal/messaging/adapters/africastalking/sms.go:792-799 | releasing keeps the index exact |
| SendTable.CloseIndexed | internal/messaging/adapters/africastalking/sms.go:781-799 | closing keeps the index exact |
| SendTable.SharedIdLosesIndex | internal/messaging/adapters/africastalking/sms.go:823-829 | of any two retained sends sharing a carrier id, forgetting one removes the index entry of the other |
| SendTable.IndexSurvivesIffDistinct | internal/messaging/adapters/africastalking/sms.go:812-833 | an exact index survives forgetting any send if and only if no two retained sends share a carrier id |
| SingleFlightSafety.OneRoundAtATime | internal/messaging/adapters/africastalking/sms.go:242-262 | at most one carrier round per interaction is outstanding |
| SingleFlightSafety.SuccessIsReal | internal/messaging/adapters/africastalking/sms.go:242-262 | a nil Send means the carrier accepted that interaction |
| SingleFlightSafety.NoDoubleClose | internal/messaging/adapters/africastalking/sms.go:781-799 | a slot's channel is closed at most once |
| SingleFlightSafety.WaiterIsServed | internal/messaging/adapters/africastalking/sms.go:733-752 | a waiter's channel is closed, or its owner has a step towards closing it; what it wakes up to is `WakeRetriesOrSuppresses` |
| SingleFlightSafety.RoundsAreSerial | internal/messaging/adapters/africastalking/sms.go:315-368 | between two rounds of an interaction the first ended |
| SingleFlightSafety.RoundEndsOnce | internal/messaging/adapters/africastalking/sms.go:315-368 | between two endings of an interaction a round began, so a round ends at most once |
| SingleFlightSafety.RoundsEndExactlyOnce | internal/messaging/adapters/africastalking/sms.go:315-368 | each interaction has as many endings as beginnings, one fewer while its round is under way; once no call owns a slot, every channel is closed and no round is under way |
| SingleFlightSafety.NeverRebilled | internal/messaging/adapters/africastalking/sms.go:242-262 | after an acceptance no new round starts unless eviction forgot the interaction |
| SingleFlightSafety.IndexIsExact | internal/messaging/adapters/africastalking/sms.go:781-833 | with distinct carrier ids the index is exactly the retained committed sends, in every run |
| SingleFlightAnswers.AnswersMatchRounds | internal/messaging/adapters/africastalking/sms.go:242-262 | in every run, for every interaction, the calls that fail number exactly its failed rounds and the calls that succeed by themselves exactly its accepted rounds |
| SingleFlightAnswers.WakeRetriesOrSuppresses | internal/messaging/adapters/africastalking/sms.go:244-262 | a waiter of an accepted slot returns suppressed; otherwise a round failed and the waiter loops, free to reserve at once |
| SingleFlightAnswers.RecordsAreAttributed | internal/messaging/adapters/africastalking/sms.go:781-807 | the record found by a carrier id names the interaction and tenant of a call the carrier accepted |
| SingleFlightAnswers.ForgetsOnlyBeyondCap | internal/messaging/adapters/africastalking/sms.go:767-833 | over a run at most as many sends are forgotten as there were rounds beyond the cap; up to the cap every accepted send is still known |
| OutboxSafety.StepKeepsInv | internal/platform/outbox/dispatcher.go:58-138 | the row and lease invariant under claims, steals, crashes, acks and releases of any number of dispatchers |
| OutboxSafety.PublishedWasDelivered | cmd/worker/main.go:62-82 | a published row that decodes was accepted by the bus |
| OutboxSafety.RowsLiveOn | internal/platform/outbox/dispatcher.go:74-138 | no row vanishes or changes payload; token set if and only if publishing; pending below, failed at or above the attempt limit |
| OutboxSafety.ParkedForever | internal/platform/outbox/dispatcher.go:115-138 | published and failed rows never move |
| OutboxSafety.LeaseNeverRegained | internal/platform/outbox/dispatcher.go:74-111 | a lost lease stays lost |
| OutboxSafety.StaleWorkerHarmless | internal/platform/outbox/dispatcher.go:115-138 | an ack or release under a lost lease changes nothing |
| OutboxSafety.ReclaimedIffReleasedBefore | internal/platform/outbox/dispatcher.go:82-91 | an orphaned row is claimable again if and only if an earlier release left an expiry |
| OutboxSafety.StrandedForever | internal/platform/outbox/dispatcher.go:82-91 | an orphan without an expiry stays as it is in every run of the claim statement |
| OutboxSafety.FirstCrashStrands | internal/platform/outbox/dispatcher.go:58-111 | a run in which the first crash strands an accepted row |
| Dispatcher.Worker.Publish | cmd/worker/main.go:62-82 | hands exactly the decodable rows before the first refused one to the bus, in order; fails if and only if one is refused; a run of the outbox system |
| Dispatcher.Worker.Tick | internal/platform/outbox/dispatcher.go:58-70 | claim, publish up to the first refusal, then ack all, or release all if and only if one was refused; a run of the outbox system |
| Dispatcher.SamePayloads | internal/platform/outbox/dispatcher.go:74-111 | claiming does not alter what is published |
| Dispatcher.TickOutcome | internal/platform/outbox/dispatcher.go:58-138 | what one tick means per row: published, pending again, or parked at the limit; other rows untouched |
| OutboxHistory.StepTells | internal/platform/outbox/dispatcher.go:58-138 | each claim, ack and release changes a row's columns as its history says |
| OutboxHistory.RowTellsHistory | internal/platform/outbox/dispatcher.go:58-138 | in every run attempts is the number of claims, the lease expiry is half a minute after the last release or absent, and the status is what the last claim, ack or release made it, parked exactly when no attempt is left |
| FactsConsumer.Consumer.constructor | internal/analytics/service.go:19-22 | no facts |
| FactsConsumer.Consumer.Handle | internal/analytics/service.go:25-82 | inserts the envelope's fact once per event id, or fails without effect; succeeds if and only if the database does or there is no fact |
| FactsConsumer.TablesAreContributions | internal/analytics/service.go:36-82 | the tables hold exactly the contributed facts, one per id |
| FactsConsumer.DuplicatesAndOrderInvisible | internal/analytics/service.go:36-82 | the tables depend only on the set of events handled |
| FactsConsumer.ReusedIdOrderShowsIff | internal/analytics/service.go:36-82 | of two envelopes under one id the order shows if and only if both carry a fact for the same table and the facts differ |
| FactsConsumer.AnnouncedRowIsStored | internal/analytics/service.go:36-82 | round trip: the envelope announcing any row, its fields under their data keys and its id in the subject or the data, leaves exactly that row, an empty status as unknown |
| FactsConsumer.FactsByTopic | internal/analytics/service.go:36-82 | which topics contribute to which table, that all others contribute nothing, and that the subject wins over the id in the data |
| FactsConsumer.OneFactPerPublishedRow | cmd/worker/main.go:62-82 | outbox to fact table: each published row carrying a fact has exactly that fact, and every fact comes from a row |
| WorkflowStore.Store.StartInstance | internal/workflows/temporaldriver/store.go:338-351 | inserts once, conflicts otherwise |
| WorkflowStore.Store.RecordStep | internal/workflows/temporaldriver/store.go:353-374 | writes only while the step guard matches, and then the trace row too |
| WorkflowStore.Store.CompleteInstance | internal/workflows/temporaldriver/store.go:376-391 | seals only from the expected step |
| WorkflowStore.Store.MarkCanceled | internal/workflows/temporaldriver/store.go:393-407 | cancels a live instance, without next run time; any other is left alone |
| WorkflowStore.Store.MarkFailed | internal/workflows/temporaldriver/store.go:409-424 | fails a live instance with the given error; any other is left alone |
| WorkflowStore.Store.Redeliver | internal/workflows/temporaldriver/workflows.go:196-222 | an activity delivered any number of times |
| WorkflowLadder.StartClimbs | internal/workflows/temporaldriver/store.go:338-351 | a started instance stands on the first rung |
| WorkflowLadder.WriteClimbs | internal/workflows/temporaldriver/store.go:166-266 | one delivered write climbs one rung if and only if it matches the current step |
| WorkflowLadder.TraceIsLadderPrefix | internal/workflows/temporaldriver/store.go:353-422 | under arbitrary duplication, delay, reordering and marks the trace is a growing prefix of the ladder |
| WorkflowLadder.CompletedAbsorbs | internal/workflows/temporaldriver/store.go:353-422 | a completed instance never changes |
| WorkflowLadder.MarkSticksIffNoLateWrite | internal/workflows/temporaldriver/store.go:183-186 | a cancel or failure mark lasts if and only if no write for the current step is delivered later |
| WorkflowLadder.LateWriteRevivesCanceled | internal/workflows/temporaldriver/store.go:357-368 | a concrete late write that revives a canceled instance |
| WorkflowMarks.WriteMeets | internal/workflows/temporaldriver/store.go:166-266 | one delivered write leaves status, error, run time and rung as the reference of first marks says, on either store |
| WorkflowMarks.TrafficMeets | internal/workflows/temporaldriver/store.go:353-424 | the same for the whole row under any traffic, in any order |
| WorkflowMarks.FirstMarkDecides | internal/workflows/temporaldriver/store.go:393-424 | an instance that was live ends up canceled if and only if the first mark since its last climbed rung was a cancel, and failed if and only if it was a failure, whose error it then carries; a canceled one has no run time; only failures change the error |
| WorkflowRuns.RedeliveryClimbsOnce | internal/workflows/temporaldriver/store.go:353-374 | any number of copies of one write leaves what a single copy leaves, at most one rung up |
| WorkflowRuns.Perform | internal/workflows/temporaldriver/workflows.go:154-172 | one activity call, with retries, leaves its own instance as one delivered write does and no other instance changed |
| WorkflowRuns.Fail | internal/workflows/temporaldriver/workflows.go:174-181 | a live instance the failure mark reaches is failed with the run's error; any other is left alone; the trace stays |
| WorkflowRuns.CallbackWorkflow | internal/workflows/temporaldriver/workflows.go:63-92 | completes if and only if timer, message, step and seal succeed, then with the full trace and the engine's messages; an interrupted timer whose mark ran ends canceled; any other abort whose mark ran ends failed with its error; how far the trace gets |
| WorkflowRuns.WaitStep | internal/workflows/temporaldriver/workflows.go:135-152 | succeeds if and only if the step is recorded and the timer fires; then the instance waits until now plus the wait; interrupted with its mark run it ends canceled |
| WorkflowRuns.RecordCanceled | internal/workflows/temporaldriver/workflows.go:183-194 | a live instance the cancel mark reaches is canceled with its old error; any other is left alone |
| WorkflowRuns.Escalate | internal/workflows/temporaldriver/workflows.go:120-132 | the last recorded step and the seal of a collections run |
| WorkflowRuns.CollectionsWorkflow | internal/workflows/temporaldriver/workflows.go:94-133 | completes if and only if every message, step, timer and the seal succeed, then with the full trace and the engine's messages and waits; an interrupted timer whose mark ran ends canceled, any other abort whose mark ran failed with its error; how far the trace gets |
| WorkflowLadder.LadderIsEngineTrace | internal/workflows/engine.go:242-318 | an uninterrupted run's trace is the engine's step table iterated until it seals |
| WorkflowLadder.ChainIsEngineChain | internal/workflows/engine.go:250-318 | from every step but the last the driver records the rows the table records and stands where the table stands, which is the end exactly when the table seals |
| WorkflowLadder.BackendsAgree | internal/workflows/temporaldriver/store.go:166-424 | both stores agree on everything but next_run_at, and on that except before the seal |
| TokenBucket.RateLimit.constructor | internal/platform/httpx/middleware.go:111-127 | defaults applied |
| TokenBucket.RateLimit.Allow | internal/platform/httpx/middleware.go:131-160 | refill, charge or deny, evict only when a new key meets a full table |
| TokenBucket.RateLimit.EvictLocked | internal/platform/httpx/middleware.go:168-195 | drops half the table, none of it younger than what stays |
| TokenBucket.SortedByLast | internal/platform/httpx/middleware.go:176-184 | the keys, oldest touch first |
| TokenBucket.OldestGone | internal/platform/httpx/middleware.go:168-195 | removing a prefix of the sorted keys is what the eviction promises |
| TokenBucket.StepBounded | internal/platform/httpx/middleware.go:131-195 | one call keeps the table within its bound |
| TokenBucket.TrackedKeysBounded | internal/platform/httpx/middleware.go:131-195 | in every run the tracked keys never exceed maxBuckets |
| TokenBucket.RatePotential | internal/platform/httpx/middleware.go:131-160 | allowed calls are paid for by what the bucket held and what dripped in |
| TokenBucket.RateBound | internal/platform/httpx/middleware.go:131-160 | in any stretch without eviction of the key: allowed calls at most burst + rate x time |
| TokenBucket.PurseStep | internal/platform/httpx/middleware.go:131-160 | a call takes no more than its token, and the purse then fills at the full rate up to the burst |
| TokenBucket.DenialIsEarned | internal/platform/httpx/middleware.go:131-160 | the converse: since a key came in, a call is denied only if allowing it would have passed burst + rate x time over some stretch ending there |
| TokenBucket.ForgetsOnlyWhenFull | internal/platform/httpx/middleware.go:131-195 | keys are forgotten only to make room for a new key in a full table: exactly half of them, none touched later than one that stays |
| TokenBucket.RetryHint | internal/platform/httpx/middleware.go:152-160 | the hint is the largest nanosecond count not beyond the least sufficient wait; enough if and only if the rate divides the shortfall |
| TokenBucket.EvictionUnobservable | internal/platform/httpx/middleware.go:131-195 | dropping a bucket is unobservable if and only if it would have refilled |
| SlidingWindow.Compact | internal/tools/gateway.go:148-153 | in-place compaction keeps exactly the stamps younger than a minute, in order |
| SlidingWindow.Gateway.Admit | internal/tools/gateway.go:143-163 | admits below the limit, records, and resets to the one key beyond 10000 keys |
| SlidingWindow.RunSpaced | internal/tools/gateway.go:143-163 | any limit + 1 consecutive admissions span a minute, for limits that vary below one bound |
| SlidingWindow.WindowBound | internal/tools/gateway.go:143-163 | any stretch shorter than a minute admits at most limit calls of a key no reset has dropped, the limit being the largest any call asked for |
| SlidingWindow.RefusalIsEarned | internal/tools/gateway.go:154-157 | refused if and only if limit admissions of the last minute stand |
| SlidingWindow.RefusedIffSpent | internal/tools/gateway.go:143-163 | over a whole run a call under a limit of n is refused if and only if the n-th last admission of its key lies within the minute before |
| SlidingWindow.DropsOnlyBeyondBound | internal/tools/gateway.go:143-163 | windows are dropped only by an admission that would leave more than 10000 of them, which keeps its own; with positive limits there are never more |
| ToolGate.Gateway.constructor | internal/tools/gateway.go:68-82 | nothing admitted, audited or executed |
| ToolGate.Gateway.ValidateArgs | internal/tools/gateway.go:166-202 | the per-tool argument schema with its lengths in bytes, refusing unknown tools |
| ToolGate.Gateway.Decide | internal/tools/gateway.go:99-140 | which gate answers, and that only the rate gate and what follows it touch the windows |
| ToolGate.Gateway.Invoke | internal/tools/gateway.go:89-97 | one audit entry per call whatever the verdict; the executor is reached if and only if every gate passed |
| ToolGate.ExecutionsAreAdmissions | internal/tools/gateway.go:99-140 | every execution stands, in order, among the admissions of its key |
| ToolGate.ExecutionsCapped | internal/tools/gateway.go:114-124 | in any stretch shorter than a minute at most cap executions of an agent and tool, whatever policies and tenants |
| ToolGate.PlatformCaps | internal/tools/gateway.go:76-80 | the platform's caps are such bounds while tool names hold no colon |
| ToolGate.BadArgumentsUseTheBudget | internal/tools/gateway.go:114-127 | an admitted call refused for its arguments leaves one admission fewer, whatever the limit and the calls before |
| FixedWindow.Redis.constructor | internal/platform/httpx/limiter_redis.go:130-150 | no counters |
| FixedWindow.Redis.Allow | internal/platform/httpx/limiter_redis.go:161-196 | increment, stamp once, decide on the count; outage policy as configured |
| FixedWindow.HintIsNextBucket | internal/platform/httpx/limiter_redis.go:178-186 | the hint lies in (0, window] if and only if the clock is past the epoch or on a boundary, and in both cases lands on the next bucket's start |
| FixedWindow.OutlivesStep | internal/platform/httpx/limiter_redis.go:171-177 | a TTL never ends inside its own bucket |
| FixedWindow.NeverResetInside | internal/platform/httpx/limiter_redis.go:161-177 | so a counter is never reset by a call of its own bucket |
| FixedWindow.BucketQuota | internal/platform/httpx/limiter_redis.go:161-187 | the calls allowed in a bucket are exactly the smaller of those made in it and what its counter leaves of the limit |
| FixedWindow.BucketBound | internal/platform/httpx/limiter_redis.go:161-203 | per aligned bucket exactly limit of a caller's calls get through, or all if they are fewer, for any number of nodes, other callers and EXPIRE failures |
| FixedWindow.TwoBuckets | internal/platform/httpx/limiter_redis.go:200-203 | an interval no longer than the window touches at most two buckets |
| FixedWindow.IntervalBound | internal/platform/httpx/limiter_redis.go:161-203 | at most twice the limit in any interval no longer than the window |
| FixedWindow.BoundIsTight | internal/platform/httpx/limiter_redis.go:161-203 | for every limit and window, twice the limit is allowed within one nanosecond |
| RingMap.Map.constructor | internal/search/indexer.go:547-556 | capacity at least one, blank ring |
| RingMap.Map.PutIfAbsent | internal/search/indexer.go:560-571 | records a fresh id over the oldest slot, reports a known one |
| RingMap.Map.Put | internal/search/indexer.go:573-585 | updates in place while the old value is non-empty, else takes a slot |
| RingMap.Map.Get | internal/search/indexer.go:587-592 | looks the key up |
| RingMap.Map.EvictSlot | internal/search/indexer.go:596-600 | frees the next slot |
| RingMap.Map.Occupy | internal/search/indexer.go:566-570 | the circular index: dropping the oldest of the rotation, adding a newest |
| RingMap.AddAllTracks | internal/search/indexer.go:560-571 | ring and map refine the list of fresh arrivals of which the last cap count |
| RingMap.ReplayIffRemembered | internal/search/indexer.go:560-571 | a replay is detected if and only if the id is among the last cap fresh arrivals, or empty and seen before |
| RingMap.ReplayWindow | internal/search/indexer.go:560-571 | from its latest fresh arrival, if and only if fewer than cap fresh ids followed |
| RingMap.FreshAgainLate | internal/search/indexer.go:560-600 | two fresh arrivals of one id lie more than cap apart |
| RingMap.SizeBound | internal/search/indexer.go:539-600 | the exact size: the remembered arrivals, plus one if the empty id was recorded and rotated out |
| RingMap.SizeWithinCap | internal/search/indexer.go:539-545 | never above cap for non-empty ids |
| RingMap.OverflowsIff | internal/search/indexer.go:539-600 | the capacity is passed, by exactly one, if and only if the empty id was recorded and has left the last cap arrivals |
| RingMap.SetAllTracks | internal/search/indexer.go:573-585 | put with non-empty keys and values refines the same list |
| RingMap.GetFindsLatest | internal/search/indexer.go:573-592 | a lookup finds exactly the last cap fresh keys, with the latest value |
| RingMap.PutTracksIff | internal/search/indexer.go:573-585 | put keeps to the reference all along if and only if no put finds its key mapped to the empty value, except in a ring of one or, for the empty key, in a blank ring |
| RingMap.SetStep | internal/search/indexer.go:573-585 | the same for a single put |
| RingMap.LookupIsLatest | internal/search/indexer.go:573-592 | a key that is found carries the value last given for it, empty or not |
| RingMap.EmptyValueForgetsEarly | internal/search/indexer.go:573-585 | a witness: after such a put a key is forgotten early |
| Indexer.Consumer.constructor | internal/search/indexer.go:89-110 | empty rings, queue and counters |
| Indexer.Consumer.Handle | internal/search/indexer.go:162-187 | ignore, refuse, dedupe, enqueue or drop; never blocks |
| Indexer.Consumer.ProjectOne | internal/search/indexer.go:202-298 | one write or a skip per topic; a created event teaches its conversation before the write |
| Indexer.Consumer.Write | internal/search/indexer.go:304-338 | exactly one of indexed and failed goes up |
| Indexer.Consumer.RunOnce | internal/search/indexer.go:189-200 | the worker takes the oldest queued event |
| IndexerSafety.StepKeepsInv | internal/search/indexer.go:162-338 | counters, queue order, per-envelope balance, dedupe and learning kept by every step |
| IndexerSafety.Conservation | internal/search/indexer.go:162-338 | accepted = deduped + dropped + offering + queued + in progress + indexed + failed + skipped; the queue never exceeds its size |
| IndexerSafety.ConservationEach | internal/search/indexer.go:162-338 | the same for every single envelope |
| IndexerSafety.ProjectedInOrder | internal/search/indexer.go:189-200 | events are projected in queue order |
| IndexerSafety.OneEffectPerWindow | internal/search/indexer.go:172-187 | k effects of one id, shed or projected, need (k - 1) x (ring + 1) + 1 fresh arrivals |
| IndexerSafety.SpanClosedForm | internal/search/indexer.go:172-187 | that number in closed form |
| IndexerSafety.TouchFollowsCreation | internal/search/indexer.go:268-298 | a touch is written if and only if its interaction's creation was projected among the last ring-size fresh ones, and goes to the conversation named last |
| IndexerMeaning.PlanMeans | internal/search/indexer.go:202-298 | which conversation an event is written to, by the names its data and subject give; what names none is skipped |
| IndexerMeaning.ProjectedIffPlanned | internal/search/indexer.go:445-455 | the topics let through are exactly those that have a projection |
| IndexerMeaning.CreationTeachesTouch | internal/search/indexer.go:230-298 | after a creation is projected, a touch of its interaction goes to its conversation, however either names the interaction |
| IndexerMeaning.OthersTeachNothing | internal/search/indexer.go:202-298 | only a creation naming both interaction and conversation teaches a link |
| IndexerMeaning.CountersMean | internal/search/indexer.go:162-338 | in every run the five counters are the written, dropped, failed, deduped and skipped events |
| IndexerMeaning.ShedOnlyWhenFull | internal/search/indexer.go:177-187 | an event is dropped by an offer to a full queue and by nothing else |
| IndexerMeaning.FewNeverShed | internal/search/indexer.go:162-187 | no more events than the queue holds are never dropped, however slow the worker |
| Interactions.Service.constructor | internal/interactions/service.go:32-40 | no interactions |
| Interactions.Service.Get | internal/interactions/service.go:290-312 | the stored record, not found, or a read failure |
| Interactions.Service.Transition | internal/interactions/service.go:197-258 | row and event change together or not at all, with the code's errors in its order |
| Interactions.Processor.Process | internal/comms/provider_event.go:48-80 | event to status, no-op when already there, otherwise the guarded transition |
| Interactions.NoReturn | internal/interactions/state.go:45-62 | a status once left is never entered again |
| Interactions.EnteredFrom | internal/interactions/state.go:45-62 | what each status may be entered from |
| Interactions.CallEvents | internal/comms/provider_event.go:48-80 | what ringing, connecting, hanging up and wrapping up do to an interaction in each status, and when they are refused |
| Interactions.MessageEvents | internal/comms/provider_event.go:48-80 | the same for sent, delivered and read messages |
| Interactions.FailureEvents | internal/comms/provider_event.go:48-80 | a carrier failure ends any interaction that has not ended, with the carrier's detail as reason |
| Interactions.StepKeepsInv | internal/comms/provider_event.go:48-80 | log, row, times and established statuses agree under interleaved callers and processors |
| Interactions.LogAgreesWithRow | internal/interactions/service.go:197-258 | folding the committed from/to events from pending gives the stored status; at most three of them; completing events are exactly those to completed |
| Interactions.TimesMatchHistory | internal/interactions/service.go:226-243 | an end time if and only if terminal, an answer time if and only if some event made it active; each is that event's time, and the end reason is that of the event that ended it |
| Interactions.ReplayIsHarmless | internal/comms/provider_event.go:68-80 | an event that applied or no-oped never changes the interaction again; its redelivery succeeds if and only if the status still stands |
| Interactions.LateFinishIsHarmless | internal/comms/provider_event.go:70-79 | also when the redelivery had read an older status |
| Interactions.ReplayAfterMoveIsRefused | internal/comms/provider_event.go:68-80 | in every run, once the interaction has moved past a status an event established, the event is refused with a conflict for good |
| LedgerDrain.Gateway.PersistEvent | internal/webhooks/gateway.go:178-206 | one row per provider and derived id; replays are duplicates |
| LedgerDrain.Gateway.MarkProcessed | internal/webhooks/gateway.go:209-212 | marks by event id, or fails silently |
| LedgerDrain.EventConsumer.constructor | internal/comms/consumer.go:104-127 | defaults applied |
| LedgerDrain.EventConsumer.Skipped | internal/comms/consumer.go:238-243 | a row is passed over if and only if Process failed for it maxAttempts times in this process |
| LedgerDrain.EventConsumer.RecordFailure | internal/comms/consumer.go:217-235 | one more attempt for that row |
| LedgerDrain.EventConsumer.ApplyRow | internal/comms/consumer.go:200-211 | decode, then Process |
| LedgerDrain.EventConsumer.HandleRow | internal/comms/consumer.go:166-181 | skip, fail and count, or apply and mark |
| LedgerDrain.EventConsumer.Tick | internal/comms/consumer.go:152-185 | the first batchSize unprocessed rows, in order; returns how many were applied |
| LedgerDrain.StepKeepsInv | internal/comms/consumer.go:152-243 | attempts equal failures and stay within the limit, marks follow successes, keys stay unique |
| LedgerDrain.ProcessedOnlyAfterSuccess | internal/comms/consumer.go:173-181 | processed only after Process succeeded; at most maxAttempts failures between restarts |
| LedgerDrain.TickProgress | internal/comms/consumer.go:152-185 | a tick strictly lowers the remaining attempts if and only if a row among the first batchSize unprocessed has attempts left; otherwise it changes nothing |
| LedgerDrain.DrainSettles | internal/comms/consumer.go:152-243 | after as many ticks as attempts were left every row is processed or failed exactly maxAttempts times, unless batchSize such rows head the ledger |
| LedgerOrder.BatchIsOldest | internal/comms/consumer.go:152-164 | an unprocessed row is in the batch if and only if fewer than batchSize unprocessed rows are older, and its place is their number |
| LedgerOrder.BatchIsFull | internal/comms/consumer.go:152-164 | the batch is as long as it can be |
| LedgerOrder.TickInOrder | internal/comms/consumer.go:166-185 | one tick applies rows of its batch in ledger order, each at most once |
| LedgerOrder.OlderFirst | internal/comms/consumer.go:166-185 | of two rows the older is applied to the interactions first |
| LedgerReach.SuccessReaches | internal/comms/provider_event.go:48-80 | a nil answer means the interaction is where the event wants it |
| LedgerReach.StepBears | internal/comms/consumer.go:152-185 | every success stays borne out by the interactions |
| LedgerReach.ProcessedMeansReached | internal/comms/consumer.go:152-185 | in every run, crashes included, a processed row's interaction is at the event's status or past it |
| Routing.Engine.Match | internal/routing/service.go:76-83 | exactly the required skills the agent has |
| Routing.Engine.List | internal/routing/service.go:92-95 | the matched skills in some order, each once |
| Routing.Engine.Score | internal/routing/service.go:75-101 | the candidate is a function of the request and the set of skills |
| Routing.Engine.Decide | internal/routing/service.go:106-148 | queue filter, stable ranking, first eligible candidate, outcome |
| Routing.RankingIgnoresOrder | internal/routing/service.go:112-124 | for distinct ids the ranking ignores the order of agents and of their skills |
| Routing.SharedIdShowsListOrder | internal/routing/service.go:119-124 | two agents sharing an id are ranked alike in either order if and only if their scores differ or their candidates are equal |
| Routing.AssigneeIsBest | internal/routing/service.go:126-147 | the assignee is eligible and before every other eligible candidate by score, then id; assigned if and only if someone is eligible; no agent if and only if there was nobody at all |
| RoutingOutcome.AssignedIffBest | internal/routing/service.go:106-148 | an agent is assigned if and only if it is available, in the queue and eligible, and scores more than every other such agent, or as much with the smaller id |
| RoutingOutcome.QueuedOrNobody | internal/routing/service.go:126-148 | somebody is assigned if and only if somebody qualifies; no agent if and only if nobody is known at all |
| RoutingOutcome.RankedDescends | internal/routing/service.go:106-124 | the candidates are everybody in the queue, each once, best first |
| RoutingOutcome.CandidateMeans | internal/routing/service.go:75-101 | a candidate's fields: matched skills each once in order of name, the language fit, the availability |
| RoutingOutcome.LessMeans | internal/routing/service.go:119-124 | ids compare as in a dictionary |
| Routing.MoreAgentsStillAssign | internal/routing/service.go:106-148 | more agents never turn an assignment into queueing |
| Routing.UrgentEligibility | internal/routing/service.go:103-136 | at priority 8 and above: available, all skills, and no skill required twice |
| Routing.BestEffortEligibility | internal/routing/service.go:103-136 | below priority 8, with m of n required skills held: eligible if and only if available and 20m + 15n for a fitting language + priority x n reaches 20n; and the case without required skills |
| Routing.ScoreClears | internal/routing/service.go:84-91 | the threshold on the score in whole numbers |
| Routing.FallbackEligibility | internal/routing/service.go:103-136 | its corollary for m = 0: available, fitting language and priority at least 5 |
| Ordering.SortIgnoresOrder | internal/routing/service.go:119-124 | a sort by a deciding strict order depends only on the elements |
| Ordering.AscendingUnique | internal/routing/service.go:119-124 | ascending lists of the same elements are equal |
| Ussd.Adapter.constructor | internal/messaging/adapters/africastalking/ussd.go:314-319 | empty table, default capacity |
| Ussd.Adapter.Begin | internal/messaging/adapters/africastalking/ussd.go:265-279 | started, continued, or the retained answer |
| Ussd.Adapter.Rewind | internal/messaging/adapters/africastalking/ussd.go:283-289 | forgets an open session only |
| Ussd.Adapter.End | internal/messaging/adapters/africastalking/ussd.go:292-299 | retains the final text |
| Ussd.Adapter.EvictLocked | internal/messaging/adapters/africastalking/ussd.go:325-337 | the loop computes the reference sweep |
| Ussd.Adapter.Translate | internal/messaging/adapters/africastalking/ussd.go:117-182 | one callback: table, events, handler runs and answer |
| Ussd.WireSpeaksForItself | internal/messaging/adapters/africastalking/ussd.go:190-204 | the wire text tells whether the session ends, carries the menu text with at most one prefix added, and is a fixed point |
| Ussd.EvictKeepsOpen | internal/messaging/adapters/africastalking/ussd.go:325-337 | eviction never removes an open session nor alters a kept one |
| Ussd.EventsFormRounds | internal/messaging/adapters/africastalking/ussd.go:117-182 | over the adapter's whole life each id's events are started, continued*, ended rounds, unfinished if and only if the session is open |
| Ussd.OpenStaysOpen | internal/messaging/adapters/africastalking/ussd.go:117-182 | an open session is closed only by its own END |
| Ussd.EndIsReplayed | internal/messaging/adapters/africastalking/ussd.go:128-137 | while retained, any later callback gets the identical text, runs no handler and emits nothing |
| Ussd.MenuAnswers | internal/messaging/adapters/africastalking/ussd.go:117-182 | a callback of a session that has not ended runs the menu once and is given its text, prefixed if it has no prefix; a failing or silent menu is a failure without events; any other callback changes nothing |
| Ussd.EvictReachesCapIff | internal/messaging/adapters/africastalking/ussd.go:325-337 | the sweep brings the order within the cap if and only if none of the entries it has to pass is an open session |
| Ussd.EvictSweeps | internal/messaging/adapters/africastalking/ussd.go:325-337 | exactly the oldest entries above the cap are forgotten, up to the first open session, which goes to the back of the order |
| Ussd.SweptTableWithinCap | internal/messaging/adapters/africastalking/ussd.go:265-279 | and then the table is within its cap after a new session |
| Ussd.OpenSessionsOutgrowCap | internal/messaging/adapters/africastalking/ussd.go:325-337 | a witness: open sessions outgrow the cap |
| RoleCache.Resolver.constructor | internal/identity/roles_db.go:37-51 | defaults applied |
| RoleCache.Resolver.EvictLocked | internal/identity/roles_db.go:102-112 | exactly the unexpired entries stay, or none |
| RoleCache.Resolver.Collect | internal/identity/roles_db.go:76-90 | roles and capabilities of the rows, known names only, in canonical order |
| RoleCache.Resolver.Resolve | internal/identity/roles_db.go:56-98 | cached while fresh, otherwise the store's answer, cached; errors change nothing |
| RoleCache.KeysCollideIff | internal/identity/roles_db.go:57 | different pairs share a cache key if and only if one tenant id goes on with a bar where the other ends, the subjects making up for it |
| RoleCache.KeyTells | internal/identity/roles_db.go:57 | so tenant ids without a bar keep all pairs apart |
| RoleCache.BindingMeans | internal/identity/roles_db.go:76-90 | a binding shows a role or capability if and only if the platform knows it and a row grants it, each once in canonical order |
| RoleCache.ForgetsOnlyWhenFull | internal/identity/roles_db.go:92-112 | a cache with room forgets nothing; a full one exactly its expired entries, or all if the others alone would fill it |
| RoleCache.StepKeepsInv | internal/identity/roles_db.go:56-112 | every entry and pending read was true when read, under concurrent calls and store changes |
| RoleCache.AnswersAreRecent | internal/identity/roles_db.go:56-112 | for all pairs: every answer was the stored truth at most ttl plus one query latency earlier, of the pair asked about unless it overlaps another; the cache never exceeds maxEntries |
| RoleCache.RevokedLingers | internal/identity/roles_db.go:59-62 | the ttl is reached by a binding removed right after it was read |
| Jwks.Cache.constructor | internal/identity/jwks.go:46-63 | defaults applied |
| Jwks.Cache.RefreshLocked | internal/identity/jwks.go:101-134 | the attempt is always noted; keys are replaced wholesale by the usable ones, if any |
| Jwks.Cache.LookUp | internal/identity/jwks.go:81-99 | cached while fresh, else refetch unless throttled |
| Jwks.AttemptsBounded | internal/identity/jwks.go:90-95 | at most 1 + T / minRefresh fetches in any stretch of length T |
| Jwks.KeyIsFromLastDocument | internal/identity/jwks.go:81-134 | a returned key is that of the last successful document |
| Jwks.UsableMeans | internal/identity/jwks.go:118-164 | a document's key for an id is that of its last usable RS256 signing entry of that id |
| Jwks.FoundExactlyWhen | internal/identity/jwks.go:81-99 | what a lookup answers: the known key while fresh or throttled, else exactly what the fetched document holds |
| Jwks.StaleExactlyWhenThrottled | internal/identity/jwks.go:86-99 | a key older than the ttl is returned if and only if it is known, expired, and the last attempt is within the throttle |
| Jwks.NeverStaleWhileFetchesSucceed | internal/identity/jwks.go:81-99 | never while fetches succeed and minRefresh is at most ttl |
| Jwks.ExpiredKeyReturnsAfterFailure | internal/identity/jwks.go:86-99 | after a failed refetch: an error, then the expired key |
| Text.FirstBarOf | pkg/pagination/pagination.go:37 | splitting at the first bar recovers a bar-free left part |
| Pagination.DecimalValue | pkg/pagination/pagination.go:69 | decimal digits read back as the number |
| Pagination.AtoiOfPrinted | pkg/pagination/pagination.go:41-48 | parsing inverts printing on all 64-bit numbers |
| Pagination.ParsePair | pkg/pagination/pagination.go:32-51 | what a printed pair parses to, and when it is malformed |
| Pagination.ParseInvertsNextCursor | pkg/pagination/pagination.go:28-70 | the cursor of a full page parses to the next page if and only if its offset is a 64-bit number |
| Pagination.ParsedPageOk | pkg/pagination/pagination.go:26-61 | an accepted page is always within bounds |
| Pagination.ListMeans | internal/cases/service.go:333-363 | the limit+1 lookahead shows the window and a cursor if and only if more follows |
| Pagination.FollowIsChunks | internal/cases/service.go:333-363 | following cursors cuts the list into chunks of the limit |
| Pagination.CursorsCoverTheList | internal/cases/service.go:333-363 | every row once, in order, full pages but the last, and it stops |

## Left out

- A second call of the facts store's Close, which waits for the first and then returns nil even when the first returned an error (`internal/analytics/clickhouse/store.go:657-671`). The wait group is the set of in-flight calls.
- FactsStoreFlusher.Store.Requeue: its zero count is for a flusher with no producer racing it; with racing producers `RequeueUndercounts` covers the count.
- WorkflowRuns.CallbackWorkflow: the texts of the messages are left out, only the channels are modelled; a wait that is already over counts as a timer that fires.
- SingleFlightSafety.WaiterIsServed: says a step is always available to the owner of a slot, not that the scheduler takes it.
- FactsConsumer.Consumer.Handle: a JSON number is an exact real and loses its fraction as in the code; numbers beyond the 64-bit range, whose conversion Go leaves open, are converted exactly.
- OutboxSafety.ParkedForever: rests on the claim statement being one atomic step. `claim` takes no row locks (`internal/platform/outbox/dispatcher.go:82-91`), so on a database that runs its inner select on an older snapshot the update could retake a row acked since; that interleaving is not a step of the model.
- The carrier's wire formats and error tables, retries with backoff inside one post, and delivery reports: finite tables.
- `engine.advance` and its transaction, which no path commits (`internal/workflows/engine.go:242-320`); only its step table is used, as the reference the driver is compared with.
- Real time and scheduling, Postgres isolation, Redis and Temporal servers: atomic steps, a supplied clock and arbitrary failures stand for them. `claim` selects rows without row locks, so a claim step may take any row the statement could select, and steals are steps of their own.
- TokenBucket.RateBound: floating-point tokens are scaled integers, sixty thousand million units to a token, so rounding of floats is not modelled; the clock does not run backwards.
- Routing.AssigneeIsBest: scores are exact reals.
- Ordering.SortIgnoresOrder: strings compare by character, which is Go's byte order for UTF-8 text; the library sort is modelled as a stable insertion sort.
- SlidingWindow.Gateway.Admit: the backing array of one key's window is compacted in place, windows of different keys never share an array.
- ToolGate.Gateway.Invoke: the latency and the reason texts of an outcome are left out.
- Indexer.Consumer.ProjectOne: the document bodies are left out; only which conversation is written matters. The `closed` flag is never set by the code and so is left out.
- IndexerSafety.Conservation: events still queued when the worker quits stay counted as queued, as in the code, which never counts them as dropped.
- LedgerDrain.DrainSettles: rows are listed in the order of the drain query; a row whose receive time sorts before existing rows would be inserted earlier, which no theorem about a drain without arrivals sees.
- LedgerReach.ProcessedMeansReached: rows of two providers with one derived event id are excluded, since a mark goes by event id alone.
- Interactions.TimesMatchHistory: an event's time is the clock of its transaction; the code stamps the event's envelope a moment later.
- Interactions.Processor.Process: whether an id parses as a UUID is a property of the event.
- Creation of interactions beyond its row (conversation lookup, the created event), assignment of agents and listing.
- Ussd.EventsFormRounds: callbacks are taken one at a time; two concurrent callbacks of one session may interleave their events in the code. Delivery of emitted events is best effort and not modelled beyond the emission.
- An outright bound on the USSD table, on its order list or on the send table's order list: there is none while open sessions are requeued or stale entries remain.
- RoleCache.AnswersAreRecent: the bound of one query's latency is a parameter, zero for an atomic Resolve.
- Jwks.Cache.RefreshLocked: decoding of base64 numbers and of the JSON document is a property of the document; HTTP failures are one outcome.
- Pagination.ParseInvertsNextCursor: base64 (section 5 of RFC 4648) is an invertible wrapping, and trimming of spaces around a cursor is left out with it.
- Pagination.CursorsCoverTheList: for lists a 64-bit offset can address, and fixed while the client pages.
- HTTP handlers, sockets, SQL text, configuration, logging, cryptography, token parsing, and the provider registry: plumbing or library behaviour.
