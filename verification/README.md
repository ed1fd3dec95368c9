# rabbitmq-lite: a verified model of the message lifecycle

rabbitmq-lite is a small message broker. Publications are routed through exchanges to queues, stored,
leased to consumers, and end acknowledged or dead-lettered. This project models that lifecycle in Dafny
and proves what the broker promises about it, over all inputs, all interleavings and all reachable states.

`dafny verify dfyconfig.toml` checks everything.

## How it is built

- **Store.** `StoreSpec` gives every operation of the in-memory store as a function on values, and the
  invariant `Inv` of its speed-up index (`order`, `settled`). `StoreInvariant` proves each operation keeps
  it. `StoreRefinement` proves, for every operation sequence, that the store answers like one whose append
  log is never pruned, except about leftovers, and `StoreLeftovers` says from the operation sequence alone
  which messages those are. `Leasing` says on the fields of the records what claims, scans, counts and removals
  do. `MemoryStore.Store` is the class with the source's loops and in-place updates, each method proved equal
  to its function.
- **Dead letters.** `DeadLetterSpec` holds the record book and its paging.
- **Delivery.** `Delivery` is a transition system whose steps are single store transactions of the engine's
  routines, freely interleaved, so decisions may rest on out-of-date snapshots. `Finality` adds what no run
  takes back, `Timing` who may touch a message and when, and `Fifo` the order of delivery. `Publishing`,
  `Settling` and `Reclaiming` treat whole engine calls, `Engine.Engine` is the class that performs them, and
  `EngineRuns` shows every such call, left alone, is a legal run of `Delivery`.
  `Interleaving` cuts the calls into their transactions and shows the same of any number of them at once, and
  `Leases` treats maintenance passes among them.
- **Concurrency.** `Wakeup` models producers, the one-slot signal and any number of dispatch loops of one
  queue; `PoolProtocol` models the hand-off to the bounded worker pool and the stop order.
- **Routing.** `Topic` proves the dynamic-programming matcher against a declarative meaning. `TopologySpec`
  gives the registry on values, `Declaring` what it accepts, `TopologyRuns` its results over all operation
  sequences, and `Registry.Registry` is the class. `Durability` adds what the engine saves of it and restores
  after a restart. The exchange kinds follow sections 3.1.3.1 to 3.1.3.3 of the AMQP 0-9-1 specification.
- **Arithmetic.** `Retry` treats backoff over exact reals with truncation; `MessageId` treats identifiers
  as byte buffers and hexadecimal text.
- `Messages`, `Sequences` and `Ordering` hold the message type, its lifecycle table and shared definitions.

Strings are byte strings, one `char` per byte. Times and durations are unbounded integers and 0 is the zero
time. Go maps are walked in no particular order. Records and messages are values, as the store's cloning
makes them. Inputs from outside are parameters: the clock, generated identifiers, the random draw, schema
verdicts, and the moment a message first failed according to its history.

## Assumptions

- Generated identifiers are new and differ from one another (`Injective`, `Fresh`, `Unused`), and appended
  messages are QUEUED with no attempts, as publishing and replaying make them (`Appendable`). `Append` itself
  only compares with stored identifiers; `AppendKeepsIff` says which batches it can take without losing track.
- In runs a lease does not expire at the zero time, which the store reads as "no lease"; `ClaimKeepsIff` says
  what happens otherwise. A claim limit is not negative, since the source allocates that many slots.
- In `Wakeup` the clock does not run backwards and the store is open when a dispatch loop claims. Each
  subscription starts a loop of its own; a name is free again as soon as it has been given up.
- In `Durability` saving does not fail: the store is open whenever something is declared or bound.

## Findings

Properties that do not hold of the code as one might state them. Each has a lemma showing the failure on a run
from the start and the exact condition under which the property does hold.

- A wake-up can be lost when two dispatch loops serve a queue and the one that received the signal is stopped
  before it claims; the other then sleeps until its 250 ms timer fires. `docs/architecture.md` says the timer
  is not a fallback for lost signals. Two consumers give two loops. So does one consumer that is subscribed
  again while its earlier loop is still being stopped, since `Unsubscribe` and `Shutdown` free the name first.
  Runs over a set of consumers never miss a message if and only if the set is empty, or it holds one consumer
  and its callers wait, before subscribing it again, until the earlier loop has ended.
- A restart forgets non-durable exchanges and queues, as documented, but keeps the bindings between them. It
  changes no later reply if and only if everything declared at that moment is durable. A durable exchange then
  routes to the durable ones among the queues it led to.
- Maintenance can take a lease that is still running, although `docs/architecture.md` says that no other consumer
  can claim a message while its lease holds. A pass first reads which leases have ended and then handles those
  messages one by one, and `Release` only asks whether a message is being processed. If the message was requeued
  and claimed again in between, the pass requeues it under its new consumer. It happens only to a message
  that was claimed again since the pass looked. Maintenance never takes a running lease if and only if nothing
  is claimed while a pass is under way.
- The attempt limit of a queue is copied into its messages and never read. The retry policy's limit decides for
  all queues, although `config/broker.yaml` sets 2 and 5 for some. The queue's limit is the one that holds if and
  only if it equals the policy's.
- `Unbind` does not validate its argument. A specification with a NUL byte can have the key of a different
  binding and remove that one. After every sequence of calls it removes exactly what it names, if and only if
  it is unambiguous.
- Compaction leaves one visible trace. A settled message that a claim trimmed from its queue's index survives
  the deletion of that queue. It can still be read, where the unpruned log would not find it, and operations
  on it are refused with another error. An output differs from the log's if and only if its operation names a
  message that was trimmed in this way before its queue was deleted.
- A negative acknowledgement of a message that is not being processed reports success, and leaves a
  dead-letter record when its attempts are exhausted. Replaying that record queues an acknowledged payload
  again. The record stands for a burial if and only if the message was being processed or has attempts left.
- An identifier's timestamp reads back unchanged exactly when the milliseconds lie between 0 and 2^48 - 1.
  Identifiers sort by time, whatever their random parts, exactly when the 48-bit timestamps are ordered.

## Model

| member | source | states |
|---|---|---|
| StoreInvariant.AcknowledgeKeeps | internal/storage/memory/store.go:255-273 | Acknowledging keeps the store invariant: exact settled counts, duplicate-free indexes, every live message listed by its queue, a lease exactly while PROCESSING, CREATED and FAILED never stored |
| StoreInvariant.RetryKeeps | internal/storage/memory/store.go:275-298 | Scheduling a retry keeps the invariant |
| StoreInvariant.ReleaseKeeps | internal/storage/memory/store.go:300-318 | Releasing keeps the invariant |
| StoreInvariant.MarkKeeps | internal/storage/memory/store.go:320-345 | Dead-lettering keeps the invariant |
| StoreInvariant.AppendKeeps | internal/storage/memory/store.go:179-199 | Appending a batch keeps the invariant, whether it is accepted or refused |
| StoreInvariant.AppendKeepsIff | internal/storage/memory/store.go:179-199 | An accepted batch leaves the store sound if and only if its identifiers differ and every message is waiting |
| StoreInvariant.AppendAllMessages | internal/storage/memory/store.go:179-199 | An append adds exactly the batch and changes no other record |
| StoreInvariant.SettledHeadIsMaximal | internal/storage/memory/store.go:433-445 | The trimmed head holds only settled identifiers and the next one is live |
| StoreInvariant.IndexAfterTrim | internal/storage/memory/store.go:433-445 | Head trimming drops no live identifier, and the counter never goes below zero, so its clamp never fires |
| StoreInvariant.IndexAfterSweep | internal/storage/memory/store.go:447-464 | A sweep drops no live identifier and leaves the index at most live + 63 or 2 * live - 1 long |
| StoreInvariant.CompactKeeps | internal/storage/memory/store.go:433-464 | Compaction keeps the invariant, every message, every other queue's index and the live identifiers in order |
| StoreInvariant.ClaimIdsAreClaimable | internal/storage/memory/store.go:213-253 | A claim picks distinct messages of its own queue that are QUEUED or RETRYING and whose time has come |
| StoreInvariant.ClaimKeeps | internal/storage/memory/store.go:213-253 | Claiming keeps the invariant |
| StoreInvariant.ClaimKeepsIff | internal/storage/memory/store.go:213-253 | A claim leaves the store sound if and only if its leases have an expiry or it leases nothing |
| StoreInvariant.IndexLengthAfterClaim | internal/storage/memory/store.go:213-253 | After every claim the index is at most max(live + 63, 2 * live - 1) long |
| StoreInvariant.PurgeKeeps | internal/storage/memory/store.go:401-431 | Purging keeps the invariant |
| StoreInvariant.DeleteQueueKeeps | internal/storage/memory/store.go:116-134 | Deleting a queue keeps the invariant |
| Leasing.ClaimTakesOnlyTheAvailable | internal/storage/memory/store.go:213-253 | Every message a claim returns was QUEUED or RETRYING in its queue with its available time not after the claim; it becomes PROCESSING with one more attempt, leased to the consumer until the claim time plus the lease; no other record changes |
| Leasing.ClaimTakesTheFirst | internal/storage/memory/store.go:223-252 | They come in index order, and a message with those fields is left out only when the limit is reached, and then it stands behind every one taken |
| Leasing.ScanFindsTheEnded | internal/storage/memory/store.go:347-368 | A scan finds, by increasing identifier and up to a positive limit, exactly the messages that are PROCESSING with a lease not after the given time |
| Leasing.LeaseLasts | internal/storage/memory/store.go:213-253 | After a claim no scan before the end of the lease finds the claimed message |
| Leasing.DepthCounts | internal/storage/memory/store.go:370-399 | The depth is the number of stored messages of the queue that are QUEUED, PROCESSING and RETRYING, and their sum |
| Leasing.AcknowledgeIsExact | internal/storage/memory/store.go:255-273 | Acknowledging succeeds exactly for a PROCESSING message and settles it without a holder; otherwise nothing changes and the error says why |
| Leasing.BurialIsExact | internal/storage/memory/store.go:320-345 | Dead-lettering succeeds exactly for a stored PROCESSING message; otherwise not found or an invalid transition |
| Leasing.PurgeRemovesTheLive | internal/storage/memory/store.go:401-431 | A purge removes exactly the queue's unsettled messages and reports their number |
| Leasing.DeletionRemovesTheQueue | internal/storage/memory/store.go:116-134 | Deleting a queue removes its messages except settled ones it no longer listed, and no other queue's |
| StoreRefinement.StepSim | internal/storage/memory/store.go:179-464 | One operation, reads by identifier included, on the compacting store and on the unpruned log: they stay alike, and outputs are equal unless the operation names a leftover; then the log does not find it and the pruned store shows a settled message or refuses differently |
| StoreRefinement.PruningIsInvisible | docs/benchmarks.md:138-145 | For every operation sequence from alike stores, each output is equal, or its operation names a leftover and shows it |
| StoreRefinement.EveryRunRefinesTheLog | docs/benchmarks.md:138-145 | The same from the empty store, with the invariant at the end |
| StoreRefinement.LeftoversShow | internal/storage/memory/store.go:116-134 | A run after which the pruned store still shows a settled message and refuses it with a state mismatch, while the log does not find it |
| StoreLeftovers.StepLeaves | internal/storage/memory/store.go:116-134 | One operation makes a message a leftover exactly when it deletes the queue of a message that is stored but no longer listed |
| StoreLeftovers.TrimmedIsSettled | internal/storage/memory/store.go:433-464 | A message that a claim trims from an index was settled, belongs to that queue and stays stored as it was |
| StoreLeftovers.LeftoverIff | internal/storage/memory/store.go:116-134 | After any run a message is a leftover if and only if a claim trimmed it and its queue was deleted afterwards |
| StoreLeftovers.OutputDiffersIff | docs/benchmarks.md:138-145 | In every run an output differs from the log's if and only if its operation names such a message |
| MemoryStore.Store.constructor | internal/storage/memory/store.go:36-47 | A new store is empty and sound |
| MemoryStore.Store.Close | internal/storage/memory/store.go:49-56 | Closing changes nothing but the flag |
| MemoryStore.Store.SaveQueue | internal/storage/memory/store.go:87-99 | Equal to its value-level function, invariant kept |
| MemoryStore.Store.DeleteQueue | internal/storage/memory/store.go:116-134 | The deleting loop removes exactly the listed messages, with the index and counter |
| MemoryStore.Store.Append | internal/storage/memory/store.go:179-199 | For any batch: all of it is stored and listed in order, or nothing on a closed store or a taken identifier; the invariant holds afterwards exactly when the batch was refused or storable |
| MemoryStore.Store.Message | internal/storage/memory/store.go:201-211 | The stored message, or not found |
| MemoryStore.Store.Claim | internal/storage/memory/store.go:213-253 | Compacts, then leases exactly the first `limit` available messages in append order; never fails on an open store; the invariant holds afterwards exactly when the leases have an expiry or there are none |
| MemoryStore.Store.ClaimScan | internal/storage/memory/store.go:223-252 | The scanning loop claims exactly that prefix and returns the leased messages |
| MemoryStore.Store.Lease | internal/storage/memory/store.go:235-247 | Both lifecycle moves of a claim always succeed, so no batch is half claimed |
| MemoryStore.Store.CompactLocked | internal/storage/memory/store.go:433-464 | The in-place compaction equals trimming then sweeping |
| MemoryStore.Store.TrimHead | internal/storage/memory/store.go:433-445 | The head loop finds the maximal settled head; the decremented counter is never negative |
| MemoryStore.Store.SweepSettled | internal/storage/memory/store.go:447-464 | The retained list has exactly the allocated capacity, which is never negative |
| MemoryStore.Store.IsSettled | internal/storage/memory/store.go:466-469 | Settled means unknown or terminal |
| MemoryStore.Store.LeasedRecord | internal/storage/memory/store.go:471-486 | The record if it is being processed; otherwise not found or a state mismatch naming the state |
| MemoryStore.Store.Acknowledge | internal/storage/memory/store.go:255-273 | Equal to its function through the checked lifecycle move, which cannot fail |
| MemoryStore.Store.ScheduleRetry | internal/storage/memory/store.go:275-298 | Equal to its function through FAILED to RETRYING, neither of which can fail |
| MemoryStore.Store.Release | internal/storage/memory/store.go:300-318 | Equal to its function; the message is available at the given time |
| MemoryStore.Store.MarkDeadLettered | internal/storage/memory/store.go:320-345 | Equal to its function; refused by the lifecycle table outside PROCESSING |
| MemoryStore.Store.ExpiredLeases | internal/storage/memory/store.go:347-368 | From an unordered walk: the expired leases with the smallest identifiers, sorted, up to the limit |
| MemoryStore.Store.Depth | internal/storage/memory/store.go:370-399 | The counts of ready, in-flight and scheduled messages in the index |
| MemoryStore.Store.Purge | internal/storage/memory/store.go:401-431 | Removes exactly the live messages of the queue, reports their number, keeps settled identifiers |
| MemoryStore.Store.PurgeScan | internal/storage/memory/store.go:410-426 | The loop's effect on the map, the kept identifiers and the count |
| MemoryStore.Store.SaveDeadLetter | internal/storage/memory/deadletter.go:11-32 | Stored last under its own or the generated identifier; refused when closed or taken |
| MemoryStore.Store.DeadLetters | internal/storage/memory/deadletter.go:34-67 | The backwards loop returns exactly the requested page of the newest-first listing |
| MemoryStore.Store.DeadLetter | internal/storage/memory/deadletter.go:69-81 | The record, or not found |
| MemoryStore.Store.MarkDeadLetterReplayed | internal/storage/memory/deadletter.go:83-97 | Marks and counts the replay on that record only |
| MemoryStore.Store.DeleteDeadLetter | internal/storage/memory/deadletter.go:99-117 | Removes the record from the map and its one place in the order |
| MemoryStore.Store.PlaceOf | internal/storage/memory/deadletter.go:109-114 | The first place of a listed identifier |
| MemoryStore.Store.CountDeadLetters | internal/storage/memory/deadletter.go:119-132 | The number of selected records, equal to the length of the newest-first listing |
| DeadLetterSpec.Normalise | internal/storage/store.go:118-128 | Limits from 1 to 500 stay and others become 50, negative offsets become 0 |
| DeadLetterSpec.PagesArePrefixes | internal/storage/memory/deadletter.go:34-67 | Consecutive pages put together are a prefix of the newest-first listing |
| DeadLetterSpec.PagesCoverTheBook | internal/storage/memory/deadletter.go:34-67 | Enough pages show every selected record exactly once, as many as are counted |
| DeadLetterSpec.ListingIsSelected | internal/storage/memory/deadletter.go:34-67 | The listing is duplicate-free and lists exactly the selected records |
| DeadLetterSpec.SaveKeeps | internal/storage/memory/deadletter.go:11-32 | Saving keeps the order a duplicate-free listing of the book |
| DeadLetterSpec.SavedComesFirst | internal/storage/memory/deadletter.go:11-67 | A saved record comes first in each listing that selects it; the rest is unchanged |
| DeadLetterSpec.DeleteKeeps | internal/storage/memory/deadletter.go:99-117 | Deleting keeps the order a duplicate-free listing of the book |
| Messages.Terminal | internal/message/state.go:72-74 | Exactly ACKNOWLEDGED and DEAD_LETTERED have no way out in the table |
| Delivery.ClaimIsExact | internal/storage/memory/store.go:213-253 | A claim leases exactly the messages it returns, by field; they were waiting in its queue and available, and no other record changes |
| Delivery.StepKeeps | internal/engine/dispatcher.go:134-290 | Every transaction of every routine, decided on any earlier snapshot, keeps the protocol invariant |
| Delivery.RunKeeps | internal/engine/dispatcher.go:134-290 | So does every run |
| Delivery.NoMessageIsLost | internal/engine/deadletter.go:30-63 | In every interleaved run each published message is exactly one of: live and listed once by its own queue only, acknowledged, dead-lettered with a saved record of the same content, or removed with its queue; its content never changes |
| Delivery.AttemptsAreConservedAndBounded | internal/engine/dispatcher.go:245-290 | Attempts equal claims equal acks + retries + releases + burials + one if processing; they are at most the policy's maximum plus the ungranted returns; backoff adds up to at most one maximal wait per return |
| Delivery.RunCounts | internal/engine/dispatcher.go:245-290 | What the tallies count: an ungranted return is a requeue, a release of an undispatched message, or a retry or reclaim decided on another attempt; without one, and without a burial for a permanent cause, the counts stay |
| Delivery.NotBuriedEarly | internal/engine/dispatcher.go:245-251 | In every interleaved run without a burial of it for a permanent cause a message is dead-lettered only with at least the policy's attempts used, and with exactly those if no return was ungranted |
| Delivery.NoPoisonLoop | internal/engine/maintenance.go:55-69 | In every run without ungranted returns of it a message is claimed at most the policy's maximum, then is being processed or settled; total backoff is at most (maximum - 1) maximal waits |
| Finality.StepIsLater | internal/message/state.go:27-35 | No step changes a settled record, lowers an attempt count, changes a lease within one attempt, or takes back a publication, record or removal |
| Finality.SettledIsFinal | internal/message/state.go:72-74 | The same for every continuation of every run: acknowledged and dead-lettered are final |
| Timing.StepFollowsTheLifecycle | internal/storage/memory/store.go:213-345 | Every step leaves a message alone, removes it, or moves it between exactly the two states its kind stands for |
| Timing.LifecycleIsAllowed | internal/message/state.go:27-35 | Each such move is one, or two in a row, of the lifecycle table |
| Timing.WaysInto | internal/message/state.go:27-35 | For each state exactly which states lead to it |
| Timing.LeftAlone | internal/storage/memory/store.go:213-345 | In every run a waiting message stays as it is, or goes with its queue, until a claim at or after its time, and a leased one until its delivery is answered |
| Timing.RetryWaitsItsTurn | internal/engine/dispatcher.go:254-262 | After a retry no claim before the end of the jittered backoff takes the message, whatever else happens in between |
| Timing.DeliveryIsExclusive | docs/architecture.md:196-201 | Until a delivery is answered its record does not change, no claim takes it at any time, and no scan finds it before its lease ends |
| Fifo.RunKeepsOrder | internal/storage/memory/store.go:433-464 | In every run, compaction and removals included, listed messages keep their order |
| Fifo.PublishedLast | internal/storage/memory/store.go:179-199 | A published message stands behind everything its queue listed before |
| Fifo.FirstInFirstOut | docs/architecture.md:222-224 | If one message stood before another at some moment, any later claim that takes the second takes the first before it, unless the first is gone, settled, being processed or not yet available |
| Publishing.RoutedQueues | internal/broker/broker.go:157-177 | A publication is routed to exactly the queues some matching binding leads to, each once, by increasing name |
| Publishing.DeliveryIsExact | internal/engine/engine.go:266-291 | Each hit queue's index gains at its end one QUEUED message with no attempts, the publication's exchange, key, payload and headers, its schema or else the queue's, the queue's limit, available at once and held by nobody; other indexes are unchanged |
| Publishing.PublishSucceedsIff | internal/engine/engine.go:251-291 | Publishing succeeds if and only if the exchange leads somewhere, every such queue's schema accepts, the store is open and the identifiers are unused; otherwise no message is stored and the outcome says why |
| Publishing.PublishIsExact | internal/engine/engine.go:251-311 | The whole effect of success: one message per hit queue, receipts sorted by queue, nothing else changed |
| Publishing.RejectionIsParked | internal/engine/validation.go:14-65 | A payload is rejected if and only if some hit queue refuses it; one record is kept, given by field, for the first refusing queue by name, with the schema's reason |
| Settling.FailureIsSettled | internal/engine/dispatcher.go:245-290 | A failed delivery of a leased message ends RETRYING until the jittered backoff is over exactly while its attempts are below the policy's maximum and the cause is not permanent, and otherwise DEAD_LETTERED under one new record, given by field |
| Settling.BuryKeeps | internal/engine/deadletter.go:30-63 | Saving then marking keeps both the store and the book sound |
| Settling.NackRecordsABurialIff | internal/engine/pull.go:106-142 | Without requeueing the call always reports success; the record it adds stands for a burial if and only if the message was being processed or has attempts left |
| Settling.NackRequeues | internal/engine/pull.go:116-134 | With requeueing the call succeeds exactly for a PROCESSING message, which is QUEUED again and available at once; otherwise nothing changes and the error says why |
| EngineRuns.OwnLimitIsIgnored | internal/engine/dispatcher.go:245-251 | For every policy and every other limit a run from the start after which a failure of a message with that limit is treated otherwise than the limit says |
| Settling.OwnLimitDecidesIff | internal/engine/dispatcher.go:245-251 | A message's own limit decides about its retries if and only if it equals the policy's |
| Settling.AcknowledgedYetReplayed | internal/engine/pull.go:106-142 | For every acknowledged message out of attempts: a negative acknowledgement and a replay queue its payload again |
| Settling.ReplayIsExact | internal/engine/deadletter.go:128-192 | A replay succeeds exactly when record, queue, open store and unused identifier allow it; it adds one QUEUED message, given by field, with the recorded content and both headers, and marks and counts the replay on the record; otherwise nothing changes and the outcome says why |
| Reclaiming.PassIsExact | internal/engine/maintenance.go:41-72 | One pass moves exactly the PROCESSING messages whose lease is not after its time, smallest identifiers first and at most 256: QUEUED and available at once while attempts are left, otherwise DEAD_LETTERED with a new record of their own; no running lease is touched |
| Reclaiming.PassSparesTheClaimed | internal/engine/maintenance.go:41-72 | A pass before the end of a lease leaves the claimed message exactly as the claim made it |
| Reclaiming.ProgressTwice | internal/engine/maintenance.go:41-72 | Two stretches of reclaiming do together what they do one after the other |
| Reclaiming.PassesAreExact | internal/engine/maintenance.go:41-72 | After k passes at one moment exactly the first 256 * k expired leases have moved, each burial over all passes under its own new record; old records, indexes, queues and all other messages are unchanged |
| Reclaiming.BacklogDrainsIff | internal/engine/maintenance.go:41-72 | The backlog is gone if and only if it was at most 256 * k; then each expired lease was handled once, the book grew by exactly the buried ones and nothing else changed |
| Engine.Engine.constructor | internal/engine/engine.go:83-98 | The engine holds the given parts |
| Engine.Engine.Save | internal/storage/memory/deadletter.go:11-32 | A record is kept unless the store is closed or the identifier taken |
| Engine.Engine.Publish | internal/engine/engine.go:251-311 | The loop over routed queues, validation and the append have exactly the effect and outcome of the value-level publication |
| Engine.Engine.DeadLetterMessage | internal/engine/deadletter.go:30-63 | Save then mark; nothing is marked when saving fails |
| Engine.Engine.Fail | internal/engine/dispatcher.go:245-269 | Retry or burial, as the policy and the cause say |
| Engine.Engine.Nack | internal/engine/pull.go:106-142 | Requeue, or failure of the current snapshot; not found otherwise |
| Engine.Engine.ReplayDeadLetter | internal/engine/deadletter.go:128-192 | The new message carries the record's content and both headers; the record is marked |
| Engine.Engine.ReclaimMessage | internal/engine/maintenance.go:55-69 | One expired lease requeued or buried |
| Engine.Engine.Reclaim | internal/engine/maintenance.go:41-72 | A pass equals its value-level function, and every message that became claimable belongs to a queue that will be signalled |
| EngineRuns.BuryIsRun | internal/engine/deadletter.go:30-63 | Burying is a legal run of the delivery protocol |
| EngineRuns.FailIsRun | internal/engine/dispatcher.go:245-269 | So is a handler's failure |
| EngineRuns.PassIsRun | internal/engine/maintenance.go:41-72 | So is a maintenance pass |
| EngineRuns.NackIsRun | internal/engine/pull.go:106-142 | So is a negative acknowledgement |
| EngineRuns.PublishIsRun | internal/engine/engine.go:251-291 | So is a publication, accepted, unrouted or rejected |
| EngineRuns.ReplayIsRun | internal/engine/deadletter.go:128-192 | So is a replay |
| Interleaving.FailingAlone | internal/engine/dispatcher.go:245-269 | The transactions of a failed delivery, uninterrupted, have exactly the effect of the call |
| Interleaving.ExpiringAlone | internal/engine/maintenance.go:55-69 | So do those of one expired lease |
| Interleaving.EventKeeps | internal/engine/deadletter.go:30-63 | Whatever other calls have done since, each call's next transaction is one the protocol allows, and every open call stays so |
| Interleaving.EveryUseIsARun | internal/engine/dispatcher.go:134-290 | Any interleaving of any number of engine calls is a legal run of the delivery protocol, ending in the same state |
| Interleaving.NothingIsLost | internal/engine/deadletter.go:30-63 | So under concurrent calls each published message is exactly one of live, acknowledged, dead-lettered with a record of its content, or removed |
| Leases.TakenEarlyMeansClaimedAgain | internal/engine/maintenance.go:41-89 | In every concurrent use maintenance is about to move a message whose lease still runs only if it was claimed again since the pass looked |
| Leases.RunningLeaseIsTaken | internal/engine/maintenance.go:41-89 | A run from the start in which that happens, for every policy and message; with attempts left the message is queued under its consumer's hands |
| Leases.NeverEarlyIff | internal/engine/maintenance.go:41-89 | Maintenance never takes a running lease if and only if nothing is claimed while a pass is under way |
| EngineRuns.AcknowledgedAtLast | internal/engine/pull.go:81-142 | For every policy and message a run from the start after which it is acknowledged with no attempts left |
| EngineRuns.AcknowledgedCanComeBack | internal/engine/pull.go:106-142 | For every policy, declared queue and payload a run from the start after which the message is acknowledged and its payload waits again |
| Wakeup.EmptyClaimMeansNothingAvailable | internal/engine/dispatcher.go:134-158 | A claim that comes back empty proves no queued message was available at the time it used |
| Wakeup.StepKeeps | internal/engine/dispatcher.go:16-197 | Every subscription, clock read, transaction, signal operation and stop keeps every announced message covered by a signal or a coming claim, unless a loop stopped since another last woke; a message that a failed release leaves queued stays announced |
| Wakeup.RunKeeps | internal/engine/dispatcher.go:16-197 | So does every run |
| Wakeup.SignalStays | internal/engine/dispatcher.go:123-132 | A set signal stays set until a dispatch loop wakes up on it; the timer leaves it |
| Wakeup.NoLostWakeup | internal/engine/dispatcher.go:292-320 | Whenever all dispatch loops of a queue are blocked, no queued message of it has been announced, unless a loop stopped since another last woke |
| Wakeup.SoloDispatcherMissesNothing | internal/engine/dispatcher.go:98-132 | With one dispatch loop at a time a wake-up is never lost, whatever is cancelled and when |
| Wakeup.StoppedDispatcherTakesTheSignalAlong | internal/engine/dispatcher.go:123-132 | From any state with two waiting loops and a message about to be announced, four steps leave one that was not cancelled blocked on it |
| Wakeup.TwoLoopsCanMissAMessage | internal/engine/dispatcher.go:16-132 | A run from the start ends so, for any queue and message: with two consumers, even if their callers wait for stopped loops, and with one consumer subscribed again before its earlier loop has ended |
| Wakeup.NeverMissesIff | internal/engine/dispatcher.go:16-132 | Runs in which only the given consumers subscribe never miss a message if and only if there are none, or there is one and callers subscribe it only when no given-up loop still runs |
| PoolProtocol.StepKeeps | internal/worker/pool.go:69-117 | Every step of the hand-off, the workers and the stop keeps tasks and counters in balance |
| PoolProtocol.RunKeeps | internal/worker/pool.go:69-117 | So does every run |
| PoolProtocol.HandOffIsSafe | internal/engine/dispatcher.go:160-197 | In every run no send meets a closed channel, no hand-off meets a stopped pool or fails, every claimed message is accepted, released or held, and in-flight work never exceeds the pool size |
| PoolProtocol.StoppedMeansDrained | internal/engine/consumer.go:119-125 | When stopping has returned every accepted task ran exactly once, the other claimed messages were released, and both counters are zero |
| PoolProtocol.CancelledRunsEnd | internal/engine/consumer.go:119-125 | After cancellation every run is bounded by a computable number of steps |
| PoolProtocol.StoppingNeverSticks | internal/engine/consumer.go:119-125 | Until stopping returns some step is always possible |
| PoolProtocol.UnorderedStopPanics | internal/worker/pool.go:78-117 | A run from the start, without the stop order, that ends with a send on the closed channel |
| PoolProtocol.NeverPanicsIff | internal/engine/consumer.go:119-125 | No run panics if and only if the stop order is kept or nothing is ever prefetched |
| Topic.AcceptsIffMatches | internal/broker/topic.go:19-43 | The recurrence holds exactly when the key can be cut into consecutive pieces, one per pattern word |
| Topic.MatchSegments | internal/broker/topic.go:19-43 | The backward table computes exactly that |
| Topic.MatchTopic | internal/broker/topic.go:11-17 | Matching dotted strings, the lone-`#` shortcut included, equals matching their words |
| Topic.MultiMatchesAll | internal/broker/topic.go:11-17 | A lone `#` matches every key, so the shortcut agrees with the table |
| Topic.JoinSplit | internal/broker/topic.go:11-17 | Joining what was split at dots gives the string back |
| Topic.SplitInjective | internal/broker/topic.go:11-17 | Different strings split differently |
| Topic.WithoutWildcardsTopicIsDirect | internal/broker/binding.go:44-55 | For a pattern without wildcards topic matching is string equality |
| Topic.WideningEnlarges | internal/broker/topic.go:19-43 | Replacing a literal by `*`, or `*` by `#`, only enlarges the matched set |
| TopologySpec.DeclareKeeps | internal/broker/broker.go:77-98 | Declaring keeps the registry invariant: valid names, bindings pairwise distinct, valid for their exchange's kind and between declared ends |
| TopologySpec.BindKeeps | internal/broker/broker.go:45-54 | Binding keeps it |
| TopologySpec.UnbindKeeps | internal/broker/broker.go:56-61 | Unbinding anything keeps it |
| TopologySpec.DeleteQueueKeeps | internal/broker/broker.go:140-155 | Deleting an unreferenced queue keeps it |
| Declaring.DeclareQueueIsExact | internal/broker/broker.go:77-98 | A queue is declared exactly with a good name and schema, at least one attempt and a positive lease, with three attempts and thirty seconds left out; again only with the same settings and without effect |
| Declaring.DeclareExchangeIsExact | internal/broker/routing.go:20-37 | An exchange is declared exactly with a good name and a known kind; again only with the same settings and without effect |
| Declaring.BindIsExact | internal/broker/routing.go:59-79 | A binding between declared ends is added last exactly when its key suits the kind; the same again changes nothing and returns the first |
| Declaring.DeleteQueueIsExact | internal/broker/broker.go:140-155 | A queue is deleted exactly when it is declared and no binding of any exchange leads to it |
| TopologyRuns.KeyInjective | internal/broker/binding.go:40-42 | Keys of specifications without NUL in exchange and queue are injective |
| TopologyRuns.UnbindIsExactIff | internal/broker/routing.go:81-92 | After every sequence of calls on a new registry unbinding removes exactly the named binding, if and only if the specification is unambiguous |
| TopologyRuns.TrapSprings | internal/broker/routing.go:81-92 | For every ambiguous specification a sound registry in which it removes another binding |
| TopologyRuns.TrapIsReached | internal/broker/broker.go:45-98 | Three calls on an empty registry lead there |
| TopologyRuns.RouteIsExact | internal/broker/routing.go:125-162 | Routing returns, strictly sorted, exactly the queues of the bindings that match: all of a fanout exchange, those with the same key of a direct one, those whose words match of a topic one; the deliverable filter drops nothing |
| TopologyRuns.FanoutIgnoresTheKey | internal/broker/routing.go:151-154 | A fanout exchange routes every key alike |
| TopologyRuns.MatchesByKind | internal/broker/routing.go:151-162 | What a binding matches, by the kind of its exchange |
| TopologyRuns.PatternPassesIff | internal/broker/binding.go:57-77 | A topic pattern is accepted if and only if it has 1 to 255 bytes and every word is a wildcard standing alone or a non-empty literal |
| TopologyRuns.DirectRoutesAsTopic | internal/broker/routing.go:151-162 | A direct exchange routes every key as a topic exchange with the same accepted bindings would |
| TopologyRuns.StepKeeps | internal/broker/broker.go:45-155 | Every operation keeps the registry invariant |
| TopologyRuns.RunKeeps | internal/broker/broker.go:45-155 | So does every sequence of operations |
| TopologyRuns.RestoreRoundTrip | internal/broker/broker.go:179-196 | A fresh registry restored from the listings is the same up to binding order, and sound |
| TopologyRuns.RunsStaySame | internal/broker/broker.go:45-177 | Registries that differ only in binding order give the same replies for ever |
| TopologyRuns.RestoreIsInvisible | internal/broker/broker.go:179-196 | After any history, restoring from the listings changes no reply to any later sequence of operations |
| Durability.RunMirrors | internal/engine/engine.go:184-249 | After every sequence of calls the store holds exactly the durable exchanges and queues and all bindings |
| Durability.RestartTables | internal/engine/engine.go:157-182 | A restart brings back exactly the saved declarations and the bindings of every exchange, declared or not |
| Durability.RestartRoutes | internal/engine/engine.go:157-182 | After a restart a durable exchange routes each key to exactly the durable queues it led to, or nowhere |
| Durability.RestartIsInvisibleIff | internal/engine/engine.go:157-249 | After any calls, a restart changes no reply to any later calls if and only if everything declared is durable |
| Registry.Registry.constructor | internal/broker/broker.go:15-21 | A new registry is empty and sound |
| Registry.Registry.DeclareExchange | internal/broker/routing.go:20-37 | Equal to its value-level function, invariant kept |
| Registry.Registry.DeclareQueue | internal/broker/broker.go:77-98 | Equal to its value-level function with defaults applied |
| Registry.Registry.Exchanges | internal/broker/routing.go:48-57 | An unordered walk, sorted: the listing by name |
| Registry.Registry.Queues | internal/broker/broker.go:112-124 | An unordered walk, sorted: the listing by name |
| Registry.Registry.Position | internal/broker/routing.go:59-92 | The loop finds the first binding with the key |
| Registry.Registry.Bind | internal/broker/broker.go:45-54 | Idempotent by key; checks in the source's order |
| Registry.Registry.Unbind | internal/broker/routing.go:81-92 | Cuts the first binding with the key, or reports none |
| Registry.Registry.AllBindings | internal/broker/routing.go:98-109 | Every binding of every exchange, sorted by key |
| Registry.Registry.QueueReferences | internal/broker/routing.go:111-123 | The number of bindings that lead to the queue |
| Registry.Registry.DeleteQueue | internal/broker/broker.go:140-155 | Deletes exactly when declared and unreferenced |
| Registry.Registry.RouteNames | internal/broker/routing.go:125-149 | The accumulating loop with its seen-set yields the sorted targets without repetition |
| Registry.Registry.Route | internal/broker/broker.go:157-177 | The routed queues, or exchange not found, or unroutable |
| Registry.Registry.MatchBinding | internal/broker/routing.go:151-162 | Fanout matches everything, direct the same key, topic the words of the key, an unknown kind nothing |
| Registry.Registry.Restore | internal/broker/broker.go:179-196 | The three loops overwrite declarations and append bindings unchecked |
| Retry.BackoffIsMonotoneAndBounded | internal/retry/policy.go:87-98 | For every valid policy backoff grows with the attempt and lies between the initial and the maximal interval |
| Retry.FirstWait | internal/retry/policy.go:87-98 | The first wait is the initial interval |
| Retry.BackoffMultiplies | internal/retry/policy.go:87-98 | Below the cap each wait is the multiplier times the one before, up to truncation |
| Retry.WholeBackoffMultiplies | internal/retry/policy.go:87-98 | With a whole multiplier it is exactly that until the cap |
| Retry.BackoffSaturates | internal/retry/policy.go:87-98 | With a multiplier above one it reaches the maximum and stays there |
| Retry.ReachesCapIff | internal/retry/policy.go:87-98 | It ever reaches the maximum if and only if the multiplier exceeds one or the interval starts there |
| Retry.JitterStaysInBounds | internal/retry/policy.go:100-124 | A jittered wait lies between zero and the maximum and within the jitter fraction of the base, up to truncation |
| Retry.JitterAtTheEnds | internal/retry/policy.go:100-124 | The lowest draw takes the whole spread off, the middle one leaves the base, the highest adds the spread up to the cap |
| Retry.JitterGrows | internal/retry/policy.go:100-124 | A higher draw never means a shorter wait |
| MessageId.PutWord | internal/message/id.go:27-33 | Eight bytes are overwritten with the big-endian number, the rest of the buffer stays |
| MessageId.Word | internal/message/id.go:43-46 | The number eight bytes spell |
| MessageId.NewIdAt | internal/message/id.go:23-35 | The buffers hold the low six timestamp bytes and the random ten, or the clock's eight when the random source fails |
| MessageId.TimestampOf | internal/message/id.go:37-47 | The timestamp of a well-formed identifier, or none |
| MessageId.DecodeEncode | internal/message/id.go:34-38 | Hexadecimal decoding undoes encoding |
| MessageId.WellFormedIff | internal/message/id.go:37-41 | Accepted exactly when 32 hexadecimal digits of either case |
| MessageId.TimestampRoundTrips | internal/message/id.go:23-47 | What is read back is the time modulo 2^48, so the time itself if and only if it lies in that range |
| MessageId.IdentifiersSortByTimeIff | internal/message/id.go:23-35 | Whatever the random parts, identifiers are ordered exactly when the 48-bit timestamps are |

## Left out

- The SQLite driver, its transactions and its claim order, which differs from the in-memory one.
- HTTP, configuration, wiring, logging, metrics and deployment: they decode requests, read settings, connect the parts and report, and decide nothing about a message.
- The ERP simulation: a producer and handlers that use the broker from outside.
- JSON Schema itself: a verdict on schema name and payload is a parameter.
- Message history: only the first failure time taken from it is used, as a parameter. The history is not a complete path of transitions in the code, although the architecture notes say so.
- `Pull`, `Ack` and the defaults of pull requests, consumers, pools and policies: one store call each, or field defaults.
- `Pool.TrySubmit`, consumer status, `Registry.Bindings` of one exchange and the plain getters: a non-blocking submission that no routine uses, and reads of single fields.
- Engine start, and shutdown beyond freeing names, cancelling loops and the stop order of one consumer: its drain timeout is not modelled.
- Floating-point rounding in backoff: exact reals, truncated where the source converts to durations.
- Randomness: freshness of identifiers is assumed, and the jitter draw is any real in [0, 1).
- Locks: one store or registry call is one atomic step, as its mutex makes it.
- Dispatch loops, the signal and the worker pool are transition systems on values, not objects: goroutines, channels and contexts have no form here.
- The error that a failed claim gives a dispatch loop: in `Wakeup` claims do not fail.
- Aliasing of stored messages: the store clones on the way in and out, so records are values.
- Time-zone and monotonic-clock parts of timestamps: times are integers.
- Engine.Engine.constructor: only stores its parts; the policy's defaults and validation, the clock, timers, logger and metrics are not modelled.
- MemoryStore.Store.SaveQueue: keeps the queue's name and not its definition, because only the listing of stored queues reads the definition; the saved definitions, exchanges and bindings are in `Durability`, on values.
