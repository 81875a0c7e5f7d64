# Depot node: verified model

The depot node captures documents while offline and hands them to a central DMS later. This project models the four
parts of it that decide whether a document, an event or a migration is lost, duplicated or overtaken, and proves what
they keep over whole runs.

- **Documents and the sync engine.** The in-memory store (`MemoryStore.dfy`) and the Postgres store
  (`DocumentTable.dfy`, `PostgresStore.dfy`) as classes; the engine's sweep as methods over the memory store
  (`Engine.dfy`); the node as a step system in which captures, sweeps, retry requests, crashes, lost acknowledgements
  and the clock interleave (`NodeProtocol.dfy`). A claim is split into locking rows and committing, so
  `FOR UPDATE SKIP LOCKED` is modelled and not assumed. On top of it: who holds a document (`Exclusivity.dfy`), what a
  crash leaves behind (`Orphans.dfy`), what is never lost (`Replay.dfy`), what every row and request can be traced back to
  (`Provenance.dfy`), how often things happen (`Ledger.dfy`), capture once per reference (`CaptureOnce.dfy`), fairness (`Overtaking.dfy`), and the two stores compared
  (`StoreRelation.dfy`, `StoreSimulation.dfy`, `StoreClients.dfy`). The engine's sweep is shown to be a run of the step
  system (`SweepRefinement.dfy`).
- **Events.** The CloudEvents envelope as a JSON value and the direct and the outbox path of one event (`Bus.dfy`), the
  outbox store, the bus and one drain of the publisher as classes (`Outbox.dfy`), racing drains as a step system
  (`OutboxProtocol.dfy`), how often a row reaches the topic (`OutboxLedger.dfy`), and the drain as a run of that step
  system (`DrainRefinement.dfy`).
- **Migrations.** Loading, sorting and one undisturbed run (`Migrate.dfy`), and any number of nodes running the same
  files from stale snapshots (`MigrateProtocol.dfy`).
- **Retry delays.** The 64-bit arithmetic engine and outbox share (`Backoff.dfy`).

Times are counts of nanoseconds. Whatever comes from outside is a parameter: clock readings, fresh ids, answers of the
central DMS, whether a statement committed and whether its acknowledgement arrived, the order in which a database
returns the rows it chose, the checksum function, and the value of a float-to-integer conversion out of range.

## Where the code and its comments differ

The model follows the code.

- The store's interface says a claim's lease re-releases a document after a crash (`internal/store/store.go:39-41`). It
  does not: claims select only `buffered` and `failed` rows, so a document left `syncing` without a holder stays as it
  is until somebody retries it (`Orphans.OrphanEndsIff`, `Orphans.OrphanIsReachable`). The outbox's lease does release
  its rows (`OutboxProtocol.HeldRowIsReleased`).
- Retrying puts a document of any status back, even one a sweep is working on. That is exactly what lets two sweeps hold
  one document (`Exclusivity.ResetExclusiveIff`, `Exclusivity.ResetWhileHeldBreaksExclusivity`).
- The configured maximum number of attempts only writes a log line (`internal/sync/engine.go:118-120`); the setting is
  not part of this model.
- The retry delay is meant to grow to a ceiling. From the 34th attempt on it may wrap to a negative number, which
  schedules the retry in the past (`Backoff.RetryInPastIff`, `Overtaking.FailureOvertakesIff`).
- The memory store never asks whether a document is due; its claim is one Postgres could make exactly when a full batch
  of the backlog is due or all of it is (`StoreRelation.ClaimIsLegalIff`, `StoreRelation.MemoryClaimsEarly`).

## Model

| member | source | states |
|---|---|---|
| Backoff.DelayExact | internal/sync/engine.go:197-206 | up to 33 attempts the delay is the smaller of 2^attempts seconds and the ceiling, and positive |
| Backoff.DelayDoubles | internal/sync/engine.go:197-206 | the first delay is two seconds, each of the next 32 the double of the one before, and the ceiling cuts them off |
| Backoff.DelayMonotone | internal/outbox/outbox.go:154-163 | up to 33 attempts more attempts never mean a shorter delay |
| Backoff.WrappedProduct | internal/sync/engine.go:201 | for 34 to 62 attempts the 64-bit product is zero, at most -2^43 or at least 2^43, decided by one bit of 5^9 |
| Backoff.DelaySign | internal/sync/engine.go:197-206 | up to 62 attempts the delay is negative exactly for 34 to 54 attempts with that bit set, and zero exactly from 55 on |
| Backoff.DelayPastRange | internal/outbox/outbox.go:154-163 | at the five-minute ceiling, 34 to 54 attempts give the ceiling or a negative delay, 55 to 62 give none |
| Backoff.FirstNegativeDelay | internal/sync/engine.go:197-206 | the 34th failure is the first one rescheduled into the past, under any ceiling |
| Backoff.DelayAtMostCeiling | internal/outbox/outbox.go:159-161 | no attempt count, in range or not, exceeds the ceiling |
| Backoff.IntervalExact | internal/store/postgres.go:165 | the stored interval is the delay exactly when that is whole milliseconds, and never longer than a positive delay |
| Backoff.IntervalTruncates | internal/store/postgres.go:165 | the stored interval is whole milliseconds, toward zero, less than a millisecond from the delay |
| Backoff.RetryInPastIff | internal/sync/engine.go:121 | a retry is stored for an instant already past exactly after 34 to 54 attempts whose sign bit is set, or beyond 62 when the platform's conversion wraps below zero; the ceiling plays no part |
| Backoff.DelayIsWholeMilliseconds | internal/store/postgres.go:165 | up to 33 attempts nothing is lost by storing milliseconds |
| Backoff.WholeMillisecondsIff | internal/store/postgres.go:165 | up to 62 attempts and under any whole-millisecond ceiling, a delay is stored unchanged exactly when the product does not wrap, vanishes, or is cut off at the ceiling |
| Documents.CountsPartition | internal/store/memory.go:162-187 | the four counts add up to the depot's documents, buffered and failed to its backlog |
| Documents.SameCapturesStayUnique | db/migrations/0001_initial.sql:36-38 | updates that leave captures alone keep reference triples unique |
| Upstream.RequestRoundTrip | internal/dmsclient/client.go:78-98 | the central DMS reads from the request exactly what was captured, under the document's id |
| Upstream.RequestDeterminesCapture | internal/dmsclient/client.go:61-98 | two documents give the same request and key exactly when they are the same capture; omitting empty fields loses nothing |
| DocumentTable.SelectionExists | internal/store/postgres.go:111-120 | whatever others lock, a claim always has a legal choice of rows |
| DocumentTable.InsertKeepsConsistent | internal/store/postgres.go:28-35 | the insert with its conflict clause keeps ids and reference triples unique |
| PostgresStore.Postgres.CreateDocument | internal/store/postgres.go:22-48 | a new row with the request's fields, an empty payload as the empty object, buffered, never tried and due at once; or the row that already has depot, type and reference; or a duplicate-key error; created says which |
| PostgresStore.Postgres.GetByReference | internal/store/postgres.go:71-80 | a stored row with the requested triple, or not found exactly when there is none |
| PostgresStore.Postgres.GetDocument | internal/store/postgres.go:62-69 | the row with this id, or not found |
| PostgresStore.Postgres.ListDocuments | internal/store/postgres.go:82-105 | all listed rows pass the filter by its text, none twice, newest first, at most 100 when the limit is outside 1 to 500; a row is left out only when the listing is full of newer ones |
| PostgresStore.Postgres.ClaimPending | internal/store/postgres.go:107-143 | every returned document was buffered or failed, due and of the depot, is syncing with one more attempt, all else kept, and leased; one is left out only when the batch is full of earlier ones; no other row changed |
| PostgresStore.Postgres.MarkSynced | internal/store/postgres.go:145-158 | synced now with the upstream id, error cleared; attempts, capture, availability and other rows untouched |
| PostgresStore.Postgres.MarkFailed | internal/store/postgres.go:160-173 | failed with the error, available after the delay in milliseconds; the rest untouched |
| PostgresStore.Postgres.ResetForRetry | internal/store/postgres.go:175-188 | buffered and due at once from any status; attempts, upstream id and time of sync kept; other rows untouched |
| PostgresStore.Postgres.Stats | internal/store/postgres.go:190-228 | the grouped query's rows, however ordered, give the number of the depot's documents in each status; the last sweep, or that there was none |
| StoreSimulation.StoredStateReadsBack | internal/store/postgres.go:230-253 | whatever statements a run executes in between, a depot's state reads back from the database as it was last recorded, and as never synced when it never was |
| PostgresStore.Postgres.SetSyncState | internal/store/postgres.go:242-253 | replaces the depot's state and no other |
| MemoryBuffer.OldestPendingUnique | internal/store/memory.go:89-113 | the order by update time and insertion position leaves one possible batch |
| MemoryBuffer.ScanIsOldest | internal/store/memory.go:95-111 | scanning the sorted buffer up to the limit yields exactly its oldest pending documents of the depot |
| MemoryBuffer.CreatedValidIff | internal/store/memory.go:30-51 | a capture keeps order a duplicate-free enumeration with unique triples exactly when it is a replay or its id is new |
| StoreSimulation.RunKeepsValid | internal/store/memory.go:30-200 | over any run of operations whose captures are replays or bring fresh ids, order stays a duplicate-free enumeration of the documents with unique triples |
| MemoryBuffer.ClaimMovesCounts | internal/store/memory.go:95-111 | a claim moves exactly its documents from pending to syncing; the other counts and the total stay |
| MemoryBuffer.MarksMove | internal/store/memory.go:115-160 | each mark and each retry moves exactly its document to synced, failed or buffered; every other document and the depot's total stay |
| MemoryBuffer.MoveCounts | internal/store/memory.go:162-187 | such a move takes one from the count the document was in and adds one to the count it goes to |
| MemoryStore.Memory.CreateDocument | internal/store/memory.go:30-51 | the document with this depot, type and reference is returned as it is, otherwise one with the request's fields, an empty payload as the empty object, is appended, buffered now |
| StoreSimulation.CapturedIsFound | internal/store/memory.go:53-61 | over any run whose captures are replays or bring fresh ids, a captured document stays found under its id and with its capture |
| MemoryStore.Memory.ListDocuments | internal/store/memory.go:63-80 | documents in the status named, last captured first, at most 100 when the limit is outside 1 to 500; one is left out only when the listing is full of later ones |
| MemoryStore.Memory.ClaimPending | internal/store/memory.go:82-113 | the depot's buffered and failed documents by update time, then by capture, each syncing with one more attempt; one is left out only when the batch is full of earlier ones; all others untouched |
| MemoryStore.Memory.DrainOrder | internal/store/memory.go:90-93 | the sorted copy of the ids is one whose scan gives the oldest pending documents |
| MemoryStore.Memory.TakePending | internal/store/memory.go:94-112 | the bounded loop takes what a scan of the sorted ids takes, and updates those documents only |
| MemoryStore.Memory.MarkSynced | internal/store/memory.go:115-130 | the document is synced now with the upstream id, error cleared, all else kept, or not found and nothing changes |
| MemoryStore.Memory.MarkFailed | internal/store/memory.go:132-145 | the document is failed with the error and moved back in drain order by the delay, all else kept |
| MemoryStore.Memory.ResetForRetry | internal/store/memory.go:147-160 | the document is buffered from any status, with its attempts, upstream id and time of sync |
| MemoryStore.Memory.Stats | internal/store/memory.go:162-187 | the counting loop gives the number of the depot's documents in each status |
| StoreSimulation.StateReadsBack | internal/store/memory.go:189-200 | whatever a run on memory does in between, a depot's state reads back as it was last recorded, and as never synced when it never was |
| MemoryStore.SortStable | internal/store/memory.go:91-93 | in place, a permutation ordered by update time, insertion order breaking ties |
| StoreSimulation.OpMatchesIff | internal/store/memory.go:30-200 | the database may give memory's answer to an operation, with the same effect, exactly when a new id is fresh, a stored duration is whole milliseconds, enough of a claimed backlog is due, and no listed document is older than one captured before it |
| StoreSimulation.RunsAgree | internal/store/postgres.go:22-253 | any run of such operations on memory, claims and listings included, is a run of the database's with the same replies and the same final state |
| StoreSimulation.SteadyRunsAgree | internal/store/store.go:31-51 | when captures read a clock that never goes back, the same holds with no condition on listings |
| StoreClients.OnMemory | internal/store/memory.go:30-200 | what the memory store's methods reply and leave is what the comparison says of memory |
| StoreClients.OnPostgres | internal/store/postgres.go:22-253 | what the durable store's methods reply and leave is what the comparison says of the database |
| StoreClients.OnBoth | internal/store/store.go:31-51 | a usable operation called on two agreeing stores gets one reply from both and leaves them in agreement |
| StoreSimulation.CreateMatchesIff | internal/store/memory.go:48-49 | a capture has the same reply and effect in both stores exactly when it is a replay or its id is new |
| StoreRelation.FailAgreesIff | internal/store/memory.go:142 | the stores stay in agreement after a failure exactly when its delay is whole milliseconds |
| StoreRelation.RetryDelayAgreesIff | internal/sync/engine.go:121 | for the engine's own delays after up to 62 attempts, under any whole-millisecond ceiling, that is exactly when the product does not wrap, vanishes, or is cut off at the ceiling |
| StoreRelation.ClaimIsLegalIff | internal/store/memory.go:95-111 | memory's batch is one Postgres may select exactly when, before the claim, a full batch of the depot's backlog is due or all of it is |
| StoreRelation.MemoryClaimsEarly | internal/store/memory.go:103 | a failed document still waiting for its retry, alone in the buffer, is claimed by memory and may not be selected by Postgres |
| StoreRelation.ClaimAgrees | internal/store/postgres.go:121-125 | after the same claim, with a lease in whole milliseconds, the stores agree |
| StoreRelation.ListingIsLegalIff | internal/store/memory.go:70-79 | memory's listing is an answer the ordered query may give exactly when none of the documents it shows was created before one captured earlier |
| StoreRelation.ListingAgrees | internal/store/postgres.go:87-91 | agreeing stores admit the same listings |
| SweepEffects.LastFailureIs | internal/sync/engine.go:111-123 | the remembered error is that of the last document that failed, and there is none exactly when none failed |
| SweepEffects.SweepMovesAccepted | internal/sync/engine.go:100-135 | a sweep takes out of the backlog exactly the documents the central DMS accepted |
| SweepEffects.AcceptingSweep | internal/sync/engine.go:100-135 | with an accepting DMS the backlog P falls by min(P, batch) and the synced count rises by as much |
| SweepEffects.EmptyAfter | internal/sync/engine.go:89-93 | the backlog is gone after s sweeps exactly when s is at least P / batch, rounded up |
| SweepEffects.AcceptingSweepsDrain | internal/sync/engine.go:100-135 | the same count for the effects of accepting sweeps on any sequence of buffers |
| SyncEngine.Engine.constructor | internal/sync/engine.go:40-57 | settings that are not positive fall back to 25 documents, five minutes and two minutes |
| SyncEngine.Engine.RunOnce | internal/sync/engine.go:100-135 | the batch is the oldest of the depot's backlog; each document is synced under the id assigned exactly when its own request was answered with a 2xx, and failed with that request's error and delay otherwise; the recorded state says when, whether all went well, and the last error; each 2xx is announced once, in order, with the document's fields |
| SweepRefinement.SweepIsRun | internal/sync/engine.go:101-135 | from a table that holds what memory holds, locking, committing, posting, marking and publishing the same batch is a run of the step system that ends in a table holding what the sweep leaves in memory |
| SweepRefinement.RunOnceAsRun | internal/sync/engine.go:100-135 | whatever RunOnce leaves in memory, some run of the step system leaves in the table |
| SyncEngine.Engine.PostOne | internal/sync/engine.go:114-129 | the stored document, even if changed since it was claimed, is synced after a 2xx answer and failed with the error after anything else; only then a found one is announced; no other changes |
| SyncEngine.Engine.RecordState | internal/sync/engine.go:137-146 | the depot's state says when, that all went well exactly when there was no error, and the error; other depots' states stay |
| SyncEngine.Engine.OnTick | internal/sync/engine.go:89-93 | a full batch is followed by one more sweep, a smaller one by none; an accepted backlog falls as by two sweeps either way |
| SyncEngine.Engine.Run | internal/sync/engine.go:74-96 | after t ticks of the drain loop an accepted backlog P is what 2t sweeps leave, and empty exactly when 2t is at least P / batch, rounded up; without an upstream nothing changes |
| SyncEngine.Engine.RunTimes | internal/handlers/handlers.go:159-170 | s requested sweeps in a row empty an accepted backlog P exactly when s is at least P / batch, rounded up |
| NodeProtocol.StepInv | internal/store/postgres.go:107-188 | in any interleaving, rows locked by a claim stay pending, no row is locked twice, and a sweep's documents exist with their captures |
| NodeProtocol.StepTable | internal/store/postgres.go:22-188 | no step drops a row or changes a capture, and only the insert adds one |
| NodeProtocol.RunInv | internal/handlers/handlers.go:135-170 | the same over whole runs, ticker sweeps and requested sweeps alike |
| Exclusivity.ResetExclusiveIff | internal/handlers/handlers.go:135-147 | a retry request keeps every document with one holder exactly when no live sweep holds the one it resets |
| Exclusivity.StepExclusive | internal/store/postgres.go:111-128 | every other step keeps: held means syncing, and held by one sweep |
| Exclusivity.RunExclusive | internal/store/postgres.go:107-173 | exclusivity over every run whose retries hit documents nobody holds |
| Exclusivity.HeldByOne | internal/sync/engine.go:100-130 | in every state such a run reaches, two sweeps that hold a document are one sweep, and the document is syncing |
| Exclusivity.ResetWhileHeldBreaksExclusivity | internal/handlers/handlers.go:135-147 | from any state in which a held document is reset, some continuation puts it in a second sweep's hands |
| Exclusivity.StatusStep | internal/store/postgres.go:121-163 | without a reset, a document moves only from pending to syncing and from syncing to synced or failed |
| Exclusivity.TraceIsLifecycle | internal/models/document.go:11-16 | over a whole run each document's statuses form a path of that lifecycle |
| Exclusivity.SyncedLeftIff | internal/store/postgres.go:160-188 | a synced document leaves synced exactly by a reset or by a failure mark of a sweep that still has it in hand |
| Exclusivity.SyncedIsForever | internal/store/postgres.go:145-158 | over any run whose retries hit unheld documents, and without a retry of this one, a synced document stays synced |
| Orphans.AbandonedIsOrphan | internal/sync/engine.go:121-127 | losing the sweep that holds a document, or the mark it makes, leaves the document syncing with no holder |
| Orphans.OrphanEndsIff | internal/store/postgres.go:114-116 | a step ends that exactly when it is a retry request for the document, which makes it pending and due; any other leaves its row as it is |
| Orphans.OrphanStays | internal/store/store.go:39-41 | over any run without such a request the row stays unchanged, whatever the clock |
| Orphans.OrphanIsReachable | internal/store/store.go:39-41 | on a fresh node, capturing any document, claiming it and losing the sweep leaves it so for good |
| Replay.NothingIsLost | internal/store/postgres.go:121-187 | no run loses a captured document or changes its capture |
| Replay.ReplayIsConsistent | internal/dmsclient/client.go:78-98 | two requests of one run have the same idempotency key exactly when they are the same request |
| Replay.SyncedWasAccepted | internal/sync/engine.go:113-129 | every synced document got a 2xx answer to a request about it, and carries the id that answer assigned |
| Replay.MarkCarriesAnswer | internal/sync/engine.go:114-129 | a stored mark leaves the row as the answer of its own request says: synced after a 2xx, failed with error and delay after anything else; no other row changes |
| Replay.BecomesSyncedIff | internal/dmsclient/client.go:109-112 | a document becomes synced exactly when a sweep stores the mark of a 2xx answer about it |
| Provenance.RowsCarryRequests | internal/store/postgres.go:22-48 | over every run, each row was inserted by exactly one capture request, carries its depot, type, reference, outlet, capturer and payload, and was taken in after it |
| Provenance.PostsCarryRequests | internal/dmsclient/client.go:78-98 | over every run, each request to the central DMS carries what the capture request behind it carried, under its id; empty fields are left out |
| Provenance.RepliesAnswerRequests | internal/handlers/handlers.go:70-109 | each reply names a row with its request's depot, type and reference, and when it says created, the very row the request asked for |
| Ledger.CountingChain | internal/sync/engine.go:113-129 | for each document: synced events, at most marks, at most acceptances, at most claims, which are its attempts; buffered events at most inserts, which are one for a stored row |
| Ledger.EventsAreCounted | internal/sync/engine.go:100-159 | what is on record of a document is how often it happened in the run: inserts, claims, 2xx answers, stored marks and delivered events, no more and no less |
| Ledger.PostsAreCounted | internal/sync/engine.go:113-114 | the requests made for a document are one for each time a sweep sent it |
| Ledger.AttemptsNeverDecrease | internal/store/postgres.go:122-123 | attempts never go down, whatever is reset or lost |
| Ledger.AttemptsStep | internal/store/postgres.go:121-128 | only a committed claim counts an attempt, one for each document it returns |
| CaptureOnce.ReadNeverMisses | internal/store/postgres.go:36-47 | the select that follows an insert finds a row with the request's triple |
| CaptureOnce.CaptureIsIdempotent | internal/store/postgres.go:28-47 | however captures of one reference race, all replies name one row, and created is said exactly to the request that inserted it |
| CaptureOnce.CreatedOnce | db/migrations/0001_initial.sql:36-38 | no two replies for one reference say created |
| CaptureOnce.EveryReadSucceeds | internal/store/postgres.go:71-80 | over whole runs the follow-up select never comes back empty |
| CaptureOnce.ReadIsAnswered | internal/store/postgres.go:36-47 | every read-back that finds a row is answered with that row |
| Overtaking.OvertakingStep | internal/store/postgres.go:111-128 | what a claim takes while it passes a due document over comes out of the documents ahead of it; only rows given back and failures stored in the past join those |
| Overtaking.BoundedOvertaking | internal/store/postgres.go:111-128 | claims that pass a due document over ask in total for no more than the documents ahead at the start, the rows crashes give back and the failures whose retry is stored in the past |
| Overtaking.SelectedWithin | internal/store/postgres.go:111-128 | with k ahead, batches of B, and r counting rows given back and failures stored in the past, one of any floor((k + r) / B) + 1 claims selects the document |
| Overtaking.FailureOvertakesIff | internal/sync/engine.go:121 | a failed document gets ahead of a due one exactly when its retry is stored for an instant not after that one's; it is counted as joining exactly when that instant is already past |
| Envelopes.EnvelopeRoundTrip | internal/events/bus.go:72-78 | decoding an encoded envelope gives it back |
| Envelopes.DecodeReads | internal/events/bus.go:115-118 | a stored payload is read exactly when it is null or an object whose named members are text, null or absent; absent and null members are empty |
| Envelopes.PublishedMessage | internal/events/bus.go:83-105 | a published event's message is the JSON object with specversion 1.0, the fresh id, the node as source, its type and its data; its key is the given one or the id, and the headers repeat type and source |
| Envelopes.OutboxPathAgrees | internal/events/bus.go:83-136 | an event published through the outbox reaches the topic as the message direct publishing writes, whatever id a redelivery draws |
| Envelopes.RedispatchCompletes | internal/events/bus.go:119-135 | what decodes is dispatched with its own id, source, version, type and data where it has them, and with a fresh id, the node, 1.0 and the row's type where it does not |
| Envelopes.RedeliveryStableIff | internal/events/bus.go:119-121 | two deliveries of a row agree exactly when its envelope was stored with an id |
| Envelopes.RequiredAttributes | internal/events/bus.go:116-127 | every dispatched message has a non-empty id, source, version and key, the type if row or envelope names one, and headers that repeat them |
| Outbox.OutboxStore.Enqueue | internal/outbox/outbox.go:35-47 | a new row under a new id, due at once, or an error and no row |
| Outbox.OutboxStore.ClaimBatch | internal/outbox/outbox.go:49-81 | undispatched, available rows, each with one more attempt and the lease, returned as they then are; one is left out only when the batch is full of smaller ids; no other row changes |
| Outbox.OutboxStore.MarkDispatched | internal/outbox/outbox.go:83-87 | the row is dispatched now with its error cleared; its event, attempts and availability and every other row stay |
| Outbox.OutboxStore.MarkFailed | internal/outbox/outbox.go:89-95 | the row carries the error and is due after the delay; whether it was dispatched, its event and its attempts stay, as does every other row |
| Outbox.Bus.constructor | internal/events/bus.go:40-54 | the bus is enabled, with a writer, exactly when configured so and given a broker |
| Outbox.Bus.Publish | internal/events/bus.go:83-108 | disabled: nothing; with an outbox: one row with the envelope, due at once, and success even if the insert fails; without: the event's message unless the write was refused, and an error unless it was acknowledged |
| Outbox.Bus.DispatchOutbox | internal/events/bus.go:111-136 | without a writer success and nothing written; an undecodable payload is an error and nothing written; otherwise success exactly when the write was acknowledged, with the completed message on the topic unless it was refused |
| Outbox.Bus.WriteEnvelope | internal/events/bus.go:138-155 | the message is on the topic unless the write was refused; success means it was acknowledged |
| Outbox.Publisher.constructor | internal/outbox/outbox.go:111-113 | batches of 32 and a five-minute ceiling |
| Outbox.Publisher.DrainOnce | internal/outbox/outbox.go:138-152 | a claimed row ends dispatched exactly when its mark was stored and there is no writer, or its payload decodes and the write was acknowledged; otherwise it carries the error and its delay, or its lease when the mark is lost; no other row changes; the topic grows by the written messages in order |
| DrainRefinement.DrainIsRun | internal/outbox/outbox.go:138-152 | claiming, dispatching and marking a batch row by row is a run of the step system that leaves the rows and messages the drain leaves |
| DrainRefinement.DrainOnceAsRun | internal/outbox/outbox.go:138-152 | whatever DrainOnce leaves in the store and on the topic, some run of the step system leaves too |
| OutboxProtocol.StepInv | internal/outbox/outbox.go:49-152 | with racing drains and crashes: dispatched rows were accepted, messages are those of their rows, undispatched rows come due within five minutes, and nothing is taken back |
| OutboxProtocol.DispatchedWasAccepted | internal/outbox/outbox.go:143-150 | with a writer, a dispatched row had a write that was acknowledged and is on the topic; without one nothing is |
| OutboxProtocol.WriteAnswers | internal/outbox/outbox.go:143-144 | a write reports success exactly when it was acknowledged or there is no writer, and adds the row's message to the topic unless it was refused |
| OutboxProtocol.MarkLeaves | internal/outbox/outbox.go:83-95 | a stored mark leaves the row dispatched now, or due again after the delay with the error and dispatched as it was; no other row changes |
| OutboxProtocol.TopicCarriesEvents | internal/events/bus.go:83-136 | every message on the topic is that of an event some request of the run published |
| OutboxProtocol.RedeliveriesAgree | internal/events/bus.go:111-136 | all copies of one row on the topic are the same message, the one direct publishing would have written |
| OutboxProtocol.DispatchedAfterIff | internal/outbox/outbox.go:83-95 | a step leaves a row dispatched exactly when it was, or the step stores the mark of an accepted write; a late failure mark undoes nothing |
| OutboxProtocol.DispatchedForever | internal/outbox/outbox.go:55-56 | a dispatched row stays so over any run and no claim returns it again |
| OutboxProtocol.HeldRowIsReleased | internal/outbox/outbox.go:62-63 | from any reachable state, an undispatched row that nobody claims or marks is due again within five minutes, whoever held it |
| OutboxProtocol.LeaseProtects | internal/outbox/outbox.go:61-63 | until its mark is stored, no other drain gets a claimed row within the second of its lease |
| OutboxProtocol.AttemptsCountClaims | internal/outbox/outbox.go:62 | over any run a row's attempts grow by the number of claims that returned it |
| OutboxLedger.DeliveriesBounded | internal/outbox/outbox.go:138-152 | over every run, with racing drains and crashes, the topic holds at most as many copies of a row as its attempts, and at least one once it is dispatched with a writer |
| OutboxProtocol.ClaimTakesIff | internal/outbox/outbox.go:54-60 | a claim takes a due row exactly when it is not locked and fewer than 32 due, unlocked rows have smaller ids |
| MigrationFiles.NameOrderDiffersIff | internal/migrate/migrate.go:83 | sorting by version and by file name differ for two migrations exactly when one version continues the other with something below the suffix |
| MigrationFiles.AscendingUnique | internal/migrate/migrate.go:83 | the same files always load as the same list, however the directory lists them |
| MigrationFiles.LessIff | internal/migrate/migrate.go:83 | a version is below another exactly when, where they first part, it has ended or has the smaller character |
| MigrationFiles.SortByVersion | internal/migrate/migrate.go:83 | in place, a permutation in which no version is above a later one as text, character by character |
| MigrationFiles.Load | internal/migrate/migrate.go:61-85 | one migration for each file named with the suffix, with its version, body and checksum, strictly ascending as text; or the error of the first unreadable one |
| MigrationRun.RecordingOwn | internal/migrate/migrate.go:119-121 | recording a list leaves each migration with its own checksum unless it had one already |
| MigrationRun.Database.LoadApplied | internal/migrate/migrate.go:92-107 | the snapshot equals the table, whatever order its rows come in |
| MigrationRun.Database.Apply | internal/migrate/migrate.go:109-127 | commits the body and its record together, once per version; a conflict or failure leaves no trace |
| MigrationRun.Database.Up | internal/migrate/migrate.go:32-59 | what takes effect was missing, in ascending order, each with its own file's checksum, and nothing above a file that is missing or drifted; success exactly when every file is readable and each is recorded with its checksum or commits, and then every file is recorded with its own |
| MigrateProtocol.StepInv | internal/migrate/migrate.go:44-58 | whatever other runs do, a run that got past a migration finds it recorded with its own checksum, and the commits are a prefix of what was missing |
| MigrateProtocol.CommitIsNext | internal/migrate/migrate.go:109-127 | the version a run commits is the next missing one, even from a stale snapshot |
| MigrateProtocol.CommitsInOrder | internal/migrate/migrate.go:44-58 | over any history and from any applied set, bodies take effect in ascending order as text, without a gap among the missing versions, each once |
| MigrateProtocol.AppliedStaysPrefix | internal/migrate/migrate.go:32-59 | an applied set that starts as a prefix of the sorted files always is one, and the commits are the files that follow |
| MigrateProtocol.ResumedEqualsOneRun | internal/migrate/migrate.go:44-58 | once a run has succeeded, commits and checksums are those of one undisturbed run, and every file has its own checksum |
| MigrateProtocol.LaterRunsApplyNothing | internal/migrate/migrate.go:47-57 | after a success nothing is committed any more; runs started later apply and reject nothing and return nothing |
| MigrateProtocol.SuccessIffNoDrift | internal/migrate/migrate.go:54-55 | some history ends in success exactly when no file differs from its recorded checksum |

## Left out

- HTTP routing, request binding, authentication, configuration, logging, tracing and probes: they carry no state of the core.
- The heartbeat and the reachability probe: only another writer of the online flag.
- The precedence by which an id is read from the central DMS's answer: the id is an arbitrary string.
- JSON text: envelopes are JSON values, payloads of documents are strings; the database's normalisation of stored JSON and case-insensitive field names are not modelled.
- Checksums are an arbitrary function of the body; nothing is assumed about collisions.
- Mutexes: each method of the memory store is one atomic operation.
- Integer columns: attempts and row ids are unbounded.
- Errors of the database inside the Postgres, outbox and migration classes beyond those named in a row: the step systems have them, as statements that do not commit or whose acknowledgement is lost.
- A row that changes between a claim's snapshot and its lock: locking is one step that sees the current rows.
- The memory store's listing order for equal creation instants is its own; the query's is any.
- The publisher's ticker around a drain: it only repeats it.
- SyncEngine.Engine.RunOnce: over the memory store, without interference; sweeps that race are in the step system.
- SweepRefinement.SweepIsRun: for a clock that never goes back, enough of the backlog due and delays in whole milliseconds, the exact conditions under which the claim and each mark agree.
- Outbox.Publisher.DrainOnce: one drain without interference; racing drains are in the step system.
- StoreSimulation.RunsAgree: for usable operations; `StoreSimulation.OpMatchesIff` is the exact condition for each.
- SweepEffects.AcceptingSweepsDrain: about effects on values; `SyncEngine.Engine.RunTimes` and `SyncEngine.Engine.Run` repeat the sweep itself.
- Exclusivity.RunExclusive: for runs whose retries hit documents nobody holds, which is the exact condition for each retry.
