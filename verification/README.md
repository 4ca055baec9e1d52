# DukaPOS: verified model of its stateful core

A Dafny model of the parts of DukaPOS that change state step by step and have to survive failures:
how a till's sales reach the cloud, how sales and goods received change stock, the procurement
workflow, the exact money and quantity arithmetic, and the four pieces of state that are pruned or
folded as time passes. What the program promises about them is proved for every input, every run or
every reachable state.

`dafny verify dfyconfig.toml` checks the whole project.

## What is modelled

**Sync.** `CloudIngest` is the cloud's transaction endpoint: look a record up by number, skip or
insert it, roll the whole session back when an insert fails, carry on. `OutboxProtocol` is the till,
the network and the cloud as a state machine in which any batch ever posted may arrive again at any
time, replies may be lost, the mark call may fail and the agent may crash. `OutboxStarvation` is the
same protocol while every mark is refused. `SyncAgent` is the agent's cycle as a program, drained retry
queue included, proved to be a run of that protocol, and `AgentRuns` its calls one after another, with
what becomes of each batch that goes unanswered. `RetryQueue` is the persistent queue with its
dead-letter table, one durable statement at a time. `Checkpoint` is the timestamp checkpoint of product
and customer sync, `ProductIngest` the product upsert in the cloud, `ProductSync` the two together, and
`Backoff` the delay between failed cycles.

**Stock.** `StockLedger` is the ledger and its replay. `SaleLifecycle` has the handlers that write
stock as atomic transactions, as a class and as a step function. `RowLocks` runs sales and goods
postings interleaved, one row lock at a time, and `SerialOrder` proves that each interleaving ends
where the atomic handlers of `SaleLifecycle` would, run one after another.

**Procurement.** Orders, notes, the totals on each order line and the status derived from them.

**Arithmetic.** `SaleTotals` (sale money in cents, VAT, the tax invoice) and `BaseUnits` (purchase
units to base units).

**State that is pruned or folded.** `RateLimiter`, `TokenRevocation`, `Subscription`: each proved
against the full history that the program does not keep. `RefreshInterleaving` has token refreshes and
logouts that run at the same time.

In every module a function (`Apply`, or `Ingest`, `Upserts`, ...) says what one step does to a value;
the methods of the class change fields step by step as the source does and are proved to end in
exactly that state, and to leave what the source promises in the fields themselves; the theorems are
about runs of that function. A table is a map or a sequence, a
database transaction is atomic with an explicit `commitOk`, and everything the outside world decides
(faults, lost messages, clock readings, random draws) is a parameter, so that the theorems hold for
all of it. `CHECK (stock_quantity >= 0)` and the unique `txn_number` are commit guards.

## Where the code and its own documentation disagree

The model follows the code. Each item but the last, which is about constraints outside the model, names
the lemma with the exact condition under which the promise holds and one with a concrete input on which
it fails.

- `sync-agent/src/syncLoop.js:247-249` promises that no completed sale is silently dropped and that
  each is retried until the cloud has it. Two things break it. The code acts on any 200, so if its mark
  works a sale can leave the outbox without being in the cloud: exactly when the reply lists an error
  and does not skip the whole batch (`OutboxProtocol.MarkingIsSafeIff`,
  `OutboxProtocol.UncleanAnswerLosesASale`). And as shipped the mark never works: the call
  (`sync-agent/src/syncLoop.js:339`) needs a cashier login (`backend/app/routers/transactions.py:361`)
  that the agent does not send (`sync-agent/src/cloudApi.js:24-28`), so the oldest batch is sent for ever
  and no sale behind it leaves the till: an answered cycle shrinks the outbox exactly when its mark
  works (`OutboxStarvation.OutboxShrinksIff`, `OutboxStarvation.RefusedMarksStarve`,
  `OutboxStarvation.SecondSaleNeverLeaves`). The call also goes to the cloud's address; the model lets a
  mark that works reach the till's table.
- `sync-agent/src/syncLoop.js:11-12` says a batch leaves the retry queue only on 200 with `synced > 0`.
  The code clears it on any 200, and `synced > 0` would not be the right check
  (`CloudIngest.CleanReplyIff`, `CloudIngest.SyncedCountIsNoConfirmation`).
- `sync-agent/src/retryQueue.js:9-10` says nothing queued is dropped. A dead letter is, when another
  batch under its key is promoted (`RetryQueue.StepLosesBatchIff`, `RetryQueue.DeadLetterIsReplaced`).
- `sync-agent/src/retryQueue.js:67-70` says a key pushed again is updated; its payload is not
  (`RetryQueue.PushStoresPayloadIff`, `RetryQueue.RepushKeepsOldPayload`).
- `backend/app/routers/sync.py:303` promises the cached reply for a repeated request;
  `x_idempotency_key` is never read, and a repeat gets the first reply only if that inserted nothing
  (`CloudIngest.SameReplyIff`, `CloudIngest.RepeatedReplyDiffers`). Repeats are harmless because of the
  number lookup alone.
- `sync-agent/src/syncLoop.js:17` says a checkpoint waits for a confirmed write. It moves on any 200,
  and a failed commit in the cloud is answered with 200 (`ProductIngest.BatchIsInCloudIff`,
  `ProductSync.FailedCommitSkipsProduct`). It is also cut to milliseconds, which can skip rows at a tie
  (`Checkpoint.CycleCoversIff`, `Checkpoint.TieAtCutSkipsARow`) and can hold an entity in place
  (`Checkpoint.CheckpointAdvancesIff`, `Checkpoint.BurstHoldsCheckpoint`).
- `backend/app/routers/sync.py:93-95` says the cloud wins on catalogue fields; the code overwrites
  them with the record that came from the till (`ProductIngest.CloudPriceWinsIff`,
  `ProductIngest.IncomingPriceOverwrites`).
- `backend/app/services/procurement.py:208` says fractional units are rounded up; the code rounds to
  nearest (`BaseUnits.RoundsUpIff`, `BaseUnits.SplitMayBookNothing`).
- `backend/app/services/procurement.py:400-431` does not check that a received line refers to a line
  of its own order (`Procurement.PostingKeepsEarlyOrdersIff`, `Procurement.ForeignLinkReceivesOnDraft`).
- `backend/app/services/etims.py:50-59` reads a line total as including VAT, while
  `backend/app/routers/transactions.py:102-104` adds VAT on top of it, on exempt lines too. The VAT
  reported on a line is the VAT charged on it only up to three cents on exempt and zero-rated lines, and
  on a few amounts up to 40 cents on standard ones (`SaleTotals.LineAgreesIff`,
  `SaleTotals.ShortfallOnOneLine`); `SaleTotals.InvoiceShortfall` says how far they are apart on a sale.
- `backend/app/main.py:153-156` logs one failed sale and goes on; its rollback also undoes the restores
  made earlier in the same call, and those sales stay pending until the next start
  (`SaleLifecycle.CleanupVoidsExactly`, `SaleLifecycle.CleanupUndoesRestore`).
- `backend/app/routers/auth.py:161` rotates refresh tokens, with no lock between decoding and revoking:
  a token is redeemed once unless another request decodes it in between
  (`RefreshInterleaving.OverlapRedeemsOnceIff`, `RefreshInterleaving.OneTokenRedeemedTwice`).
- `backend/app/core/security.py:47` says a revoked token can never be replayed. Decoder and blocklist
  read the clock one after the other, and the token passes both when it expires in between
  (`TokenRevocation.RevokedTokenPassesIff`, `TokenRevocation.RevokedTokenPasses`).
- `backend/alembic/versions/0003_constraints_and_indexes.py:76-80` would reject the movement types that
  posting a goods-received note and the M-PESA cleanup write, and the zero changes of the former; those
  two CHECKs are not in the model.

## Model

| member | source | states |
|---|---|---|
| CloudIngest.CloudDb.SyncTransactions | backend/app/routers/sync.py:291-396 | The endpoint's loop over uncommitted rows and three counters, rollback included, leaves exactly the committed rows and the reply that the record-by-record function gives; a failed commit leaves the rows as they were and answers with synced 0 and one error, and otherwise the counters add up to the batch size |
| CloudIngest.DurableExactly | backend/app/routers/sync.py:314-382 | The rows a request adds are exactly the records not yet present after the last record that failed, the first of each number; nothing before that failure survives |
| CloudIngest.NumbersStayUnique | backend/app/routers/sync.py:320-324 | The lookup before each insert, with the rows flushed so far in view, keeps at most one row per number whatever the batch repeats |
| CloudIngest.CountsCoverTheBatch | backend/app/routers/sync.py:310-379 | synced + skipped + errors is the batch size; synced can only overcount what is durable, and is exact when there are no errors |
| CloudIngest.HeldAreSkipped | backend/app/routers/sync.py:320-324 | A batch of numbered records that the cloud already has, repeated numbers included, is skipped whole and without error, whatever its inserts would have raised |
| CloudIngest.AllSkippedMeansHeld | backend/app/routers/sync.py:320-324 | A reply that skips as many records as were sent proves every one of them was in the cloud before |
| CloudIngest.CleanReplyIff | backend/app/routers/sync.py:314-396 | For any batch of distinct numbers, any failing inserts and either commit outcome: the whole batch is in the cloud afterwards if and only if the reply lists no error or skips everything |
| CloudIngest.RepeatedNumberRecovers | backend/app/routers/sync.py:314-379 | Why distinct numbers: a number sent twice whose first insert fails is in the cloud although the reply lists an error |
| CloudIngest.ErrorFreeBatchIsDurable | backend/app/routers/sync.py:380-396 | For any batch, repeated numbers included: without errors the whole batch is durable, synced + skipped is its size and synced is the number of new rows |
| CloudIngest.ReplayIsNoop | backend/app/routers/sync.py:299-301 | After an error-free answer to any batch, sending it again under any faults leaves the rows alone and skips every record |
| CloudIngest.SyncedCountIsNoConfirmation | sync-agent/src/syncLoop.js:11-12 | Concrete batches: synced > 0 with nothing durable, and synced = 0 with everything durable |
| CloudIngest.SameReplyIff | backend/app/routers/sync.py:302-304 | After an error-free answer to any batch, a repeat of the request gets the same reply if and only if the first inserted nothing and the repeat commits |
| CloudIngest.RepeatedReplyDiffers | backend/app/routers/sync.py:302-304 | One new sale sent twice is counted as synced, then as skipped |
| OutboxProtocol.NoSaleIsLost | sync-agent/src/syncLoop.js:236-343 | Over every run with lost, late and repeated requests and replies, failed marks and crashes, in which the answers acted on are clean: each completed sale is in the outbox or in the cloud, SYNCED implies in the cloud, the cloud has one row per number, only the till's own sales and none that is still pending, and never changes a row |
| OutboxProtocol.EveryCleanRunIsSafe | sync-agent/src/syncLoop.js:236-343 | The same on every such run of a new till |
| OutboxProtocol.StepKeepsInv | sync-agent/src/syncLoop.js:251-343 | Each single step of till, agent, network or cloud keeps the protocol invariant, only appends cloud rows and keeps every sale's number and content |
| OutboxProtocol.DeliverKeepsInv | backend/app/routers/sync.py:314-396 | A delivery, first or repeated, with any faults and commit outcome, keeps the invariant and only appends to the cloud |
| OutboxProtocol.BatchIsGood | sync-agent/src/syncLoop.js:259-298 | What the outbox query sends is a set of distinct, numbered sales of the till, none of them pending |
| OutboxProtocol.AgentSteps | sync-agent/src/syncLoop.js:259-343 | A read starts a post of the first BATCH_SIZE rows of the outbox, an answer to that post may be acted on, a mark sets SYNCED on exactly the batch's sales, and giving up or crashing leaves the till's table as it is |
| OutboxProtocol.TillSteps | backend/app/routers/transactions.py:261-358 | A new number is added, a completion moves exactly the pending sale of its number, a void exactly the sale of its number, and nothing else of the till, the agent or the cloud changes |
| OutboxProtocol.OldestComesFirst | sync-agent/src/syncLoop.js:262-268 | The newest sale comes last in the outbox, and is in it exactly when it is completed and pending or failed in sync |
| OutboxProtocol.MarkingIsSafeIff | sync-agent/src/syncLoop.js:305-341 | For one post, answer and mark: SYNCED still means "in the cloud" afterwards if and only if the answer is clean, a check the agent does not make |
| OutboxProtocol.UncleanAnswerLosesASale | sync-agent/src/syncLoop.js:247-249 | A five-step run that ends with a completed sale neither in the outbox nor in the cloud; its last step is a mark that works, which the agent as shipped cannot obtain |
| OutboxProtocol.QuietCycleDrains | sync-agent/src/syncLoop.js:251-343 | If the mark works too, a cycle in which nothing fails moves exactly the oldest BATCH_SIZE outbox sales into the cloud and out of the outbox |
| OutboxProtocol.OutboxDrains | sync-agent/src/syncLoop.js:247-249 | As many such cycles, marks included, as the outbox needs leave it empty |
| OutboxStarvation.RefusedMarksStarve | sync-agent/src/syncLoop.js:336-342 | With every mark refused and nothing voided, over every run of sales, completions, reads, deliveries, answers, losses and crashes: a number never sent, with a full batch of outbox sales in front of it, never reaches the cloud, and every sale in the outbox stays there |
| OutboxStarvation.SaleOutsideBatchIsStuck | sync-agent/src/syncLoop.js:262-268 | In particular each unsent outbox sale that the query does not select now is never selected, never in the cloud and never leaves the outbox |
| OutboxStarvation.LaterSaleIsStuck | sync-agent/src/syncLoop.js:247-249 | So is every sale rung up once a full batch waits |
| OutboxStarvation.OutboxShrinksIff | sync-agent/src/syncLoop.js:305-342 | Whatever the cloud does with the batch, an answered cycle takes it out of the outbox if and only if its mark works; otherwise the next cycle reads the same batch |
| OutboxStarvation.RefusedCyclesChangeNothing | sync-agent/src/syncLoop.js:251-343 | After any number of otherwise quiet cycles with the mark refused, the till is as it was and nothing but the first batch was sent |
| OutboxStarvation.AgentCallIsRefusedRun | sync-agent/src/cloudApi.js:15-29 | Every step of the agent's call, replays included, is such a step when its mark is refused |
| OutboxStarvation.SecondSaleNeverLeaves | backend/app/routers/transactions.py:361 | Two sales and a batch size of one: the second never reaches the cloud, however the run goes on |
| SyncAgent.PosDb.MarkSynced | backend/app/routers/transactions.py:361-375 | Marks every sale whose number is listed and no other |
| SyncAgent.Agent.Post | sync-agent/src/cloudApi.js:31-45 | A post that the HTTP client repeats is a series of deliveries; the reply is the cloud's answer to the last |
| SyncAgent.Agent.OnAnswer | sync-agent/src/syncLoop.js:333-343 | After any answer, the steps taken are receive and mark, the batch's sales are marked when the mark works, and failure count and backoff time are reset to zero |
| SyncAgent.Agent.OnFailure | sync-agent/src/syncLoop.js:315-331 | After a failed post, the batch is pushed once under its key, marked nowhere, and the timer counts one failure and waits the delay for it |
| SyncAgent.Agent.ReplayOne | sync-agent/src/syncLoop.js:86-108 | One queued row: below the limit its batch is delivered again and the row cleared or counted; at the limit it is promoted without a delivery |
| SyncAgent.Agent.DrainRetryQueue | sync-agent/src/syncLoop.js:80-110 | Draining is a run of deliveries of batches posted before, and leaves in the queue tables what the drain events leave |
| SyncAgent.Agent.SyncOutbox | sync-agent/src/syncLoop.js:259-343 | Reading, posting and marking or giving up is exactly the protocol run of one cycle; the batch is pushed under its key exactly when it is not empty and went unanswered; failures are then old + 1, zero after an answer, and as they were with nothing to send; a queued payload is always a batch posted before |
| SyncAgent.Agent.SyncTransactions | sync-agent/src/syncLoop.js:251-343 | Nothing at all while backed off. Otherwise the whole call is a protocol run, drain first and outbox second; the queue tables are the drained ones, followed by one push of the stringified batch under the call's key exactly when a batch went unanswered; failures and backoff time are counted up, reset or left alone |
| SyncAgent.ReplaysKeepPhase | sync-agent/src/syncLoop.js:86-108 | Replaying any queue of batches posted before keeps the protocol invariant, the sales and the agent's position |
| SyncAgent.CycleIsSafeIff | sync-agent/src/syncLoop.js:305-341 | A whole answered cycle, its post repeated any number of times: SYNCED still means "in the cloud" if and only if the last answer was clean |
| AgentRuns.RunSchedule | sync-agent/src/index.js:38-69 | Calls made one after another leave till, cloud, queue tables, failure count and backoff time exactly as the calls' steps do |
| AgentRuns.CallsRunQueue | sync-agent/src/syncLoop.js:251-331 | Over any sequence of calls the queue tables go through exactly the drains of the calls not backed off and a push for each batch that went unanswered |
| AgentRuns.UnansweredBatchIsStoredIff | sync-agent/src/syncLoop.js:315-331 | A call whose batch went unanswered and whose queue write worked leaves the batch stored if and only if it was stored or its key was free after the drain |
| AgentRuns.StoredBatchStays | sync-agent/src/retryQueue.js:9-10 | Over any further calls a stored batch stays stored until a replay of it is answered 200 or another batch under its key is promoted in its place |
| AgentRuns.UnansweredBatchIsKept | sync-agent/src/syncLoop.js:315-331 | On every schedule of a new agent: each unanswered batch that was written under a free key is stored, and after any further calls still is, or was answered, or was replaced as a dead letter |
| RetryQueue.RetryStore.Push | sync-agent/src/retryQueue.js:71-85 | A push whose write works adds one row with no attempts at the end, unless some row has the key; in every other case nothing changes |
| RetryQueue.RetryStore.PromoteToDeadLetter | sync-agent/src/retryQueue.js:134-158 | Copies the row to the dead-letter table, replacing an earlier copy of its key, then cuts it out of the queue and leaves the others in order; either statement may be the last one done |
| RetryQueue.RetryStore.DrainOne | sync-agent/src/syncLoop.js:86-108 | Below ten attempts an answered row is cut out and an unanswered one counted once more, if the write works; from ten on it is promoted; other rows keep their place and contents |
| RetryQueue.NewestIsLast | sync-agent/src/retryQueue.js:87-104 | The rows of an entity are replayed in the order they were pushed in |
| RetryQueue.RetryStore.Drain | sync-agent/src/syncLoop.js:80-110 | Each row of the snapshot is promoted, cleared or counted, in order, according to its attempts and its outcome |
| RetryQueue.NoBatchDisappears | sync-agent/src/retryQueue.js:9-10 | Over every run, with failed writes and a crash between any two statements, a stored batch (entity, key and payload) stays stored until a replay of it is answered 200 or another batch under its key is promoted in its place |
| RetryQueue.StepLosesBatchIff | sync-agent/src/retryQueue.js:106-158 | A step loses a stored batch if and only if it clears its answered row, of which there is no dead letter, or promotes another batch under its key |
| RetryQueue.FixedKeyKeepsBatch | sync-agent/src/syncLoop.js:298-303 | Where each push under a key carries one batch, a stored batch stays until it is answered |
| RetryQueue.DeadLetterIsReplaced | sync-agent/src/retryQueue.js:140-149 | A run of pushes and drains in which a batch never answered is replaced among the dead letters by another one of its key |
| RetryQueue.NoKeyDisappears | sync-agent/src/retryQueue.js:71-158 | The key of a stored batch stays in one of the tables until a replay under it is answered 200 |
| RetryQueue.PromotionLosesIff | sync-agent/src/retryQueue.js:134-158 | A promotion, cut off at any point, loses a stored batch if and only if it promotes another batch of the same key past the insert |
| RetryQueue.PromotionKeepsKey | sync-agent/src/retryQueue.js:134-158 | A promotion cut off at any point leaves each key in at least one of the two tables |
| RetryQueue.PushedIsKeptIff | sync-agent/src/retryQueue.js:71-85 | A push whose write succeeds leaves the batch stored if and only if it was stored or the queue did not have its key |
| RetryQueue.PushedIsKept | sync-agent/src/retryQueue.js:71-85 | A push whose write succeeds leaves its key stored |
| RetryQueue.PushStoresPayloadIff | sync-agent/src/retryQueue.js:67-80 | What was just pushed is what a replay sends if and only if the key was not queued with another payload |
| RetryQueue.RepushKeepsOldPayload | sync-agent/src/retryQueue.js:71-80 | A key pushed twice with different payloads: the queue has the first |
| RetryQueue.AtMostTenFailures | sync-agent/src/syncLoop.js:86-95 | On every run the drain loop can cause, a row suffers at most ten recorded failed replays, and attempts is exactly that number while the row lives, since pushing its key again keeps the count |
| RetryQueue.DrainIsLegal | sync-agent/src/syncLoop.js:80-110 | A drain over a snapshot replays only rows below the limit and promotes only rows at it, and touches no row outside the snapshot |
| RetryQueue.DrainExtendsLegalRun | sync-agent/src/syncLoop.js:80-110 | Any drain run as one block after any such run gives such a run |
| RetryQueue.InterleavedDrainsAreLegal | sync-agent/src/index.js:67-78 | However pushes and the turns of drains of several entities come between each other, each turn finds its row as its drain saw it, so replays stay below the limit and promotions at it |
| RetryQueue.AtMostTenFailuresInterleaved | sync-agent/src/index.js:38-78 | So the bound of ten failed replays holds with all entities draining at once |
| RetryQueue.DrainKeepsPayloads | sync-agent/src/retryQueue.js:106-158 | Draining adds no row and changes no row's entity, key or payload |
| Backoff.Timer.RecordFailure | sync-agent/src/syncLoop.js:46-53 | One more failure, and no cycle until the delay for that many failures is over |
| Backoff.DelayTable | sync-agent/src/syncLoop.js:42-53 | 5, 10, 20, 40, 80 and 160 seconds after one to six failures, 300 from the seventh on, plus up to two seconds of jitter |
| Backoff.DelayBounds | sync-agent/src/syncLoop.js:42-53 | Every delay lies in [5000, 302000) ms; before jitter it never shrinks as failures repeat and is the maximum exactly from the seventh on |
| Checkpoint.CheckpointStore.SaveCheckpoint | sync-agent/src/checkpoint.js:92-100 | The value in memory changes even when the write fails; the file is the old one or the whole new one |
| Checkpoint.CheckpointStore.AtomicWrite | sync-agent/src/checkpoint.js:41-45 | Whatever the point of failure, the file holds its old contents or all of the new ones |
| Checkpoint.EntitySync.SyncEntity | sync-agent/src/syncLoop.js:113-176 | One call after its query is exactly the read step and the answered or failed step; only after a 200 does the entity's checkpoint become the last row's stamp cut to milliseconds, in memory and, if the write works, on disk |
| Checkpoint.EntitySync.RestartAgent | sync-agent/src/checkpoint.js:61-76 | A restart is exactly the restart step: what was in flight is forgotten, the file is read again or, unreadable, nothing |
| Checkpoint.NothingBelowCheckpointSkipped | sync-agent/src/syncLoop.js:113-176 | Over every run with failed posts and writes, replays and restarts, if no tie straddles a batch cut and rows are stamped later than any read: each row at or below the checkpoint, in memory and on disk, was in a batch answered 200 |
| Checkpoint.EveryOrderlyRunCovers | sync-agent/src/syncLoop.js:113-176 | The same on every orderly run of a new agent |
| Checkpoint.CycleCoversIff | sync-agent/src/syncLoop.js:172-174 | One answered cycle keeps that promise if and only if no row left out shares the batch's last stamp on a whole millisecond |
| Checkpoint.TieAtCutSkipsARow | sync-agent/src/syncLoop.js:172-174 | Two rows with one stamp and a batch size of one: the second is skipped |
| Checkpoint.CheckpointAdvancesIff | sync-agent/src/syncLoop.js:172-174 | An answered cycle moves the checkpoint if and only if its last row lies in a later millisecond; otherwise the next query may return the same batch |
| Checkpoint.BurstHoldsCheckpoint | sync-agent/src/syncLoop.js:172-174 | Two rows within one millisecond and a batch size of one: after any number of cycles the first is read again and the second never was |
| Checkpoint.CheckpointMonotone | sync-agent/src/checkpoint.js:92-100 | While the file stays readable its value never decreases and never exceeds the one in memory, which never decreases between restarts |
| ProductIngest.CloudCatalogue.Upsert | backend/app/routers/sync.py:111-158 | One record updates the row its lookup finds, value by value and never its stock, reporting both prices exactly when it changes the stored one, or adds an insert that no later lookup of the batch sees |
| ProductIngest.CloudCatalogue.SyncProducts | backend/app/routers/sync.py:88-182 | The loop over unflushed inserts leaves what the records say one after the other, with that reply, synced being the number of records that name a SKU; a batch that repeats a new SKU, or any other failed commit, changes nothing and is answered with one error |
| ProductIngest.CloudCatalogue.Commit | backend/app/routers/sync.py:166-180 | The inserts become rows together, and not at all when two have one SKU |
| ProductIngest.SessionIsUpserts | backend/app/database.py:46 | Without a repeated new SKU, updates at once and inserts at the end give what record-by-record upserts give |
| ProductIngest.DuplicateIff | backend/app/models/product.py:56 | The unique constraint fails exactly for batches that name a new SKU twice |
| ProductIngest.RepeatedNewSkuLosesBatch | backend/app/routers/sync.py:114-158 | A new SKU named twice takes the other products of its batch down with it |
| ProductIngest.LastGivenValueWins | backend/app/routers/sync.py:127-135 | After a batch each value of a stored product, cost included, is that of the last record that gives it, else the stored one, and its stock is untouched whatever the records say |
| ProductIngest.StoredIsLastGiven | backend/app/routers/sync.py:127-135 | By position: a price, cost or field that record j gives and no later record of the product gives is what is stored |
| ProductIngest.NewProductIsItsRecord | backend/app/routers/sync.py:137-158 | A new product of a batch that commits has the stock and values of its one record, price zero, no cost and the default of each field where it gives none |
| ProductIngest.CloudPriceWinsIff | backend/app/routers/sync.py:93-129 | The cloud's price survives a batch if and only if no record of the product gives one, or the last that does gives the same |
| ProductIngest.BatchIsInCloudIff | sync-agent/src/syncLoop.js:172-174 | When the checkpoint moves past a batch, the cloud has every value of it if and only if the reply reports no failed commit or the batch brought nothing new |
| ProductIngest.FailedCommitLosesNewProduct | backend/app/routers/sync.py:177-180 | A new product whose commit fails is answered with 200 and is not in the cloud |
| ProductIngest.IncomingPriceOverwrites | backend/app/routers/sync.py:117-129 | A record from the till replaces the stored price and leaves the stock |
| ProductIngest.ReplayIsNoop | backend/app/routers/sync.py:105-158 | Sending any batch twice in a row is sending it once, also when it names a product repeatedly with different values, and whether or not the second commit works |
| ProductIngest.HeldBatchIsNoop | backend/app/routers/sync.py:114-135 | A batch whose values are all stored changes nothing and reports no conflict |
| ProductIngest.LateReplayIsHarmlessIff | sync-agent/src/syncLoop.js:99-104 | A batch replayed late leaves the catalogue alone if and only if the newer state already has all its values |
| ProductIngest.LateReplayRevertsPrice | backend/app/routers/sync.py:127-129 | An old price comes back when its batch is replayed after a newer one |
| ProductSync.CheckpointMeansListed | sync-agent/src/syncLoop.js:113-176 | Till and cloud together, over every run on an orderly table in which no answer acted on reports a failed commit: each product row at or below the checkpoint, in memory and on disk, is in the catalogue |
| ProductSync.EveryGoodRunIsListed | sync-agent/src/syncLoop.js:113-176 | The same on every such run of a new till and an empty catalogue |
| ProductSync.SyncListsIff | backend/app/routers/sync.py:105-182 | A request never removes a product, and lists its whole batch if and only if it was committed or the batch was listed before |
| ProductSync.FailedCommitSkipsProduct | sync-agent/src/syncLoop.js:172-174 | One new product and one failed commit: the checkpoint passes a product the cloud lacks |
| StockLedger.ReplayGivesStock | backend/app/routers/products.py:62-80 | Replaying a product's chained ledger rows as max(0, q + delta) gives the balance the ledger states |
| StockLedger.DeepestDeficit | backend/app/routers/products.py:66-67 | The clamped quantity is the plain sum minus the lowest value the plain sum ever took when that is negative: cache and sum differ by exactly the deepest deficit |
| StockLedger.ClampedKeepsBook | backend/app/routers/products.py:62-80 | A clamped movement keeps rows chained and the cached stock equal to the last row |
| StockLedger.MoveKeepsBook | backend/app/services/procurement.py:136-158 | So does a plain movement that does not go below zero |
| SaleLifecycle.Database.AddMovement | backend/app/services/procurement.py:136-158 | Changes one product's stock and appends the one row that records the quantities before and after |
| SaleLifecycle.Database.CheckStock | backend/app/routers/transactions.py:85-94 | Accepts a cart exactly when each line's product exists and has at least that line's quantity |
| SaleLifecycle.Database.CreateTransaction | backend/app/routers/transactions.py:67-194 | A known number changes nothing. A sale is recorded if and only if its number is new, each line fits the stock alone, the summed lines fit, and the commit works; then exactly one row is appended with the requested number, lines and time, PENDING if it is M-PESA and COMPLETED otherwise, each product falls by its lines, and each line leaves one chained ledger row |
| SaleLifecycle.Database.RestoreItems | backend/app/routers/transactions.py:276-290 | Puts back each line whose product still exists, one row each |
| SaleLifecycle.Database.VoidTransaction | backend/app/routers/transactions.py:261-305 | Succeeds exactly for a sale that is not voided; then that sale alone becomes VOIDED, each product rises by its lines, and each line of a known product leaves one chained restore row |
| SaleLifecycle.Database.ConfirmPayment | backend/app/routers/transactions.py:312-358 | Completes exactly the named sale, exactly when it is pending, and changes no other |
| SaleLifecycle.Database.CleanupStaleMpesa | backend/app/main.py:92-165 | The cleanup loop, in which a failure rolls back everything since the start of the call and the loop goes on; without failures it voids exactly the M-PESA sales pending since before the cutoff; it books M-PESA restores and nothing else |
| SaleLifecycle.Database.AdjustStock | backend/app/routers/products.py:308-341 | Changes one product's stock to old + change, or zero when that is negative, and appends the one row that records the requested change |
| SaleLifecycle.Database.ReceiveOne | backend/app/services/procurement.py:493-529 | Accepted units enter stock with one row; damaged and rejected ones leave a row each that changes nothing |
| SaleLifecycle.Database.PostGrn | backend/app/services/procurement.py:465-529 | A note posts if and only if it is not posted, not empty, all its products are known and the commit works; then it is appended and each product rises by its accepted units, otherwise nothing changes |
| SaleLifecycle.StockIsConserved | backend/app/routers/transactions.py:67-305 | Over every run of the handlers: stock is never negative, stock plus units on sales not voided is opening stock plus the accepted units of the posted notes, each counted once, plus effective adjustments; each sale is deducted once, and restored once if voided and never otherwise |
| SaleLifecycle.EveryRunConserves | backend/app/services/procurement.py:481-515 | The same for every opening stock and every run of requests from there |
| SaleLifecycle.StockIsReplay | backend/app/routers/products.py:62-80 | In every reachable state the cached stock is the replay of the product's rows and differs from their plain sum by exactly the deepest clamped deficit |
| SaleLifecycle.VoidedIsTerminal | backend/app/routers/mpesa.py:182-205 | Over every run VOIDED stays VOIDED, a completed sale never becomes pending again, and no sale changes its number or lines |
| SaleLifecycle.DeductEffect | backend/app/routers/transactions.py:150-163 | A sale lowers each product by the sum of its lines, repeated products included, and books exactly that under its own number |
| SaleLifecycle.RestoreEffect | backend/app/main.py:124-144 | A restore raises each product by the sum of the sale's lines and books exactly that as restored for that sale |
| SaleLifecycle.ReceiveEffect | backend/app/services/procurement.py:482-515 | A posting raises each product by its accepted units and by nothing else |
| SaleLifecycle.CreateKeepsShop | backend/app/routers/transactions.py:67-178 | A sale, accepted, refused or rolled back, keeps conservation and the books of every other sale; the stock CHECK is what stops a product named twice from going negative |
| SaleLifecycle.VoidKeepsShop | backend/app/routers/transactions.py:272-299 | Voiding a sale that is not voided keeps conservation and books its restore once |
| SaleLifecycle.CleanupKeepsShop | backend/app/main.py:121-155 | So does the cleanup with any set of failing sales, whatever its rollbacks undo |
| SaleLifecycle.CleanupVoidsExactly | backend/app/main.py:101-158 | A cleanup voids exactly the stale pending M-PESA sales after the last one that failed, and changes no other sale |
| SaleLifecycle.CleanupUndoesRestore | backend/app/main.py:153-156 | Two stale sales of which the second fails: the call changes nothing |
| SaleLifecycle.PendingMeansMpesa | backend/app/routers/transactions.py:165-170 | Over every run only M-PESA sales are ever pending |
| RowLocks.NoLostUpdate | backend/app/routers/transactions.py:67-178 | Under every interleaving of sales and postings, lock by lock and with aborts anywhere: committed stock is initial stock plus the effects of the committed tasks, never negative, each sale number commits once and each note posts once |
| RowLocks.CommitKeepsInv | backend/app/services/procurement.py:465-561 | What a transaction writes back at commit is the committed quantity plus its own effect, since nobody else could read or write the rows it holds |
| RowLocks.StepKeepsInv | backend/app/routers/transactions.py:85-94 | Every quantity a running transaction has read stays the committed one until it ends |
| RowLocks.CommitRecordsIff | backend/app/services/procurement.py:481-561 | A transaction that has claimed its row and read all its lines commits if and only if no product would go below zero: its task is recorded, each product changes by its lines, and its locks are released either way |
| RowLocks.PostingAloneCommitsIff | backend/app/routers/procurement.py:285 | From every reachable state, a posting that runs alone with its rows free is recorded, and its products rise by its lines, if and only if its note is new, has lines, and all its products are known; otherwise nothing changes |
| RowLocks.SaleAloneCommitsIff | backend/app/routers/transactions.py:85-178 | A sale that runs alone with its rows free is recorded, and its products fall by its lines, if and only if its number is new, its products are known and its summed quantities fit the stock; otherwise nothing changes |
| RowLocks.PostingOfFive | backend/app/services/procurement.py:482-491 | Ten in stock and a posting of five make fifteen |
| RowLocks.SaleOfEleven | backend/app/routers/transactions.py:85-94 | A sale of six and five out of ten, each line fitting alone, is not recorded |
| SerialOrder.InterleavingIsSerial | backend/app/routers/transactions.py:67-178 | After every interleaved run, stock, recorded sales and posted notes are what the atomic handlers leave when the committed tasks run alone in commit order, and those handlers accept each of them |
| SerialOrder.SaleCommitsAsHandler | backend/app/routers/transactions.py:85-163 | A sale that commits under locks has the effect the whole handler would have in that state, and passes its stock check there |
| SerialOrder.PostingCommitsAsHandler | backend/app/services/procurement.py:481-529 | So has a posting |
| Procurement.Service.CreateOrder | backend/app/services/procurement.py:229-273 | A new draft order, with one line for each requested quantity on which nothing was received, and every other line as it was |
| Procurement.Service.UpdateOrder | backend/app/services/procurement.py:276-316 | Only a draft's lines are replaced, the new ones start from zero, and every other order's lines stay |
| Procurement.Service.SubmitOrder | backend/app/services/procurement.py:319-328 | Exactly a draft with lines can be submitted, and only its status changes |
| Procurement.Service.ApproveOrder | backend/app/services/procurement.py:331-340 | Exactly a submitted order can be approved, and only its status changes |
| Procurement.Service.CancelOrder | backend/app/services/procurement.py:343-352 | Every order but a fully received, closed or cancelled one can be cancelled, and only its status changes |
| Procurement.Service.CreateNote | backend/app/services/procurement.py:375-442 | A note is refused when its order is not receiving, a line damages and rejects more than it received, or a line refers to an order line that does not exist; otherwise it is a draft |
| Procurement.Service.PostNote | backend/app/services/procurement.py:445-569 | Exactly a draft note with lines posts: each order line grows by what the note's lines that refer to it add up to, and the note becomes posted. Its order, unless cancelled or closed, becomes fully received when it has lines and each received at least what was ordered, partially received when some line received and not all are complete; no other order's status changes |
| Procurement.Service.CancelNote | backend/app/services/procurement.py:572-586 | Exactly a draft note can be cancelled |
| Procurement.PostedOrderStatus | backend/app/services/procurement.py:110-133 | In every reachable state, after a note is posted its order is FULLY_RECEIVED if and only if it has lines and each received at least what was ordered, PARTIALLY_RECEIVED if and only if some line received and not all are complete, and otherwise as it was |
| Procurement.StatusChangesHaveCauses | backend/app/services/procurement.py:319-352 | In every reachable state a step changes an order's status only if it is a submit, approve or cancel request for that order with that result, or posts one of its notes |
| Procurement.CancelledOnlyByRequest | backend/app/services/procurement.py:343-352 | Over every run an order that became CANCELLED was cancelled by a request of its own |
| Procurement.EveryRunAddsUp | backend/app/services/procurement.py:518-541 | On every run from the start, links to other orders' lines included: each order line's received, damaged and rejected totals are the sums over all posted notes |
| Procurement.EveryRunIsSound | backend/app/services/procurement.py:110-133 | On every run from the start, whatever the notes refer to: an order past draft has lines unless cancelled, PARTIALLY_RECEIVED implies something received, FULLY_RECEIVED implies complete, and damaged plus rejected never exceed received |
| Procurement.TotalsAndStatusAgree | backend/app/services/procurement.py:110-133 | Over every run whose notes refer to their own order's lines: totals are those sums, PARTIALLY_RECEIVED holds exactly when some line is received and not all are complete, FULLY_RECEIVED implies complete, and earlier statuses imply nothing received |
| Procurement.EveryOwnRunAgrees | backend/app/services/procurement.py:110-133 | The same on every such run from the start |
| Procurement.PostingNeverReverts | backend/app/services/procurement.py:126-133 | In every reachable state, whatever notes refer to, the branch back to APPROVED is dead, and a posting leaves FULLY_RECEIVED alone |
| Procurement.FullyReceivedIsFinal | backend/app/services/procurement.py:343-348 | Over every run, whatever notes refer to, a fully received order stays fully received |
| Procurement.StepFollowsLifecycle | backend/app/services/procurement.py:319-352 | In every reachable state every request, accepted or refused, moves each order along the edges draft, submitted, approved, partially received, fully received, with approved to fully received allowed, or to cancelled from all but the last |
| Procurement.StatusOnlyAdvances | backend/app/models/procurement.py:37-44 | Over every run, whatever notes refer to, an order never moves back, and cancelled is the end |
| Procurement.NotesAreFinal | backend/app/services/procurement.py:465-477 | A posted or cancelled note never changes, so no note is counted twice |
| Procurement.AcceptedNeverClamped | backend/app/models/procurement.py:181-183 | In every reachable state, whatever notes refer to, accepted is received minus damaged minus rejected, for note lines and order lines: the max(0, ...) never bites |
| Procurement.PostingKeepsEarlyOrdersIff | backend/app/services/procurement.py:400-431 | Without the assumption on links: a posting keeps orders that are draft, submitted or approved free of receipts if and only if no line with a quantity refers to such an order other than the note's own |
| Procurement.ForeignLinkReceivesOnDraft | backend/app/services/procurement.py:518-529 | A three-step run that receives, damages and rejects units on a draft order |
| SaleTotals.ComputeTotals | backend/app/routers/transactions.py:81-147 | The stored subtotal is the sum of price times quantity less the sum of line discounts less the order discount, and each line's VAT is 16% of its price times quantity less its discount within 0.48 cents. Cash is declined exactly when missing or below the exact total; otherwise stored total = stored subtotal + stored VAT and tendered = total + change with change >= 0, to the cent, for every cart in whole cents |
| SaleTotals.SumLinesSplits | backend/app/routers/transactions.py:95-99 | The line totals add up to the sum of price times quantity less the sum of the discounts |
| SaleTotals.RaisedDiscountLowersTotal | backend/app/routers/transactions.py:95-104 | Raising any one line's discount by d lowers the exact total by 1.16 d, and the stored total by that within 0.96 cents |
| SaleTotals.VatNeverTies | backend/app/routers/transactions.py:101-103 | At 16% no whole number of cents rounds at a tie, neither the VAT nor the total, and the VAT is within 0.48 cents of exact |
| SaleTotals.TotalIsSubtotalPlusVat | backend/app/routers/transactions.py:120-123 | Three separate roundings agree to the cent |
| SaleTotals.ChangeIsExact | backend/app/routers/transactions.py:106-112 | Accepted cash splits exactly into total and change, and change is never negative |
| SaleTotals.FractionalTotalWithinOneCent | backend/app/routers/transactions.py:120-123 | With a discount of any precision the three stored amounts disagree by at most one cent |
| SaleTotals.FractionalTotalAgreesIff | backend/app/routers/transactions.py:120-123 | With s and v the rounded subtotal and VAT, the stored total is s + v if and only if the errors of the two roundings add up to less than half a cent, or to half a cent with s + v even |
| SaleTotals.FractionalTotalMayDisagree | backend/app/routers/transactions.py:120-123 | Half a cent of subtotal makes them disagree |
| SaleTotals.FractionalChangeSplitsIff | backend/app/routers/transactions.py:106-112 | With a discount of any precision, accepted whole-cent cash is stored total plus change if and only if the total does not round at a tie or the cash is even; change is never negative |
| SaleTotals.FractionalChangeMayLose | backend/app/schemas/transaction.py:29-35 | A subtotal of 12.5 cents and 15 cents of cash store 14 and 0 |
| SaleTotals.LineVatsAgainstInvoice | backend/app/routers/transactions.py:99-147 | For n lines and an order discount D: 100 times the line VATs minus 100 times the invoice VAT minus 16 D is within 48 (n + 1) cents |
| SaleTotals.SplitIsExact | backend/app/services/etims.py:38-59 | Taxable plus tax is the line total exactly, the division by 1.16 never ties, tax is 16% of taxable within 0.56 cents; a line carries no tax if and only if it is exempt, zero-rated or a standard one from -3 to 3 cents |
| SaleTotals.InvoiceShortfall | backend/app/services/etims.py:45-59 | Over any sale, exempt and zero-rated lines included, the VAT reported falls short of the VAT on its lines by 16/725 of the standard line totals and 16% of the others, within 0.97 cents a line |
| SaleTotals.ChargedShortfall | backend/app/routers/transactions.py:99-104 | Against the VAT charged on the sale, order discount D included, it falls short by that less 16% of D, within 0.49 cents a line and for the sale |
| SaleTotals.LineAgreesIff | backend/app/services/etims.py:45-59 | A line's reported VAT is the VAT charged on it if and only if it is at most three cents and exempt or zero-rated, or standard and one of a few amounts up to 40 cents; from 0 up it is never more |
| SaleTotals.ShortfallOnOneLine | backend/app/services/etims.py:45-59 | On 100.00, 16.00 is charged; 13.79 is reported for a standard line and nothing for an exempt one |
| BaseUnits.SplitStaysNear | backend/app/services/procurement.py:223-224 | Packaging received in k deliveries books within (k + 1)/2 base units of what was ordered |
| BaseUnits.WholeSplitIsExact | backend/app/services/procurement.py:223-224 | When each delivery is a whole number of base units nothing is gained or lost |
| BaseUnits.UnitSplitOnlyLoses | backend/app/services/procurement.py:211-212 | Plain units never book more in parts than whole, and less than one unit a delivery less |
| BaseUnits.ResolveIsMonotone | backend/app/services/procurement.py:211-224 | More packages never resolve to fewer units |
| BaseUnits.RoundsUpIff | backend/app/services/procurement.py:207-224 | Fractions are rounded up, as documented, if and only if the quantity is whole or, for packaging, its fraction is at least a half |
| BaseUnits.SplitMayBookNothing | backend/app/services/procurement.py:208-224 | Three deliveries that make up one unit may book none at all |
| RateLimiter.InProcessLimiter.IsAllowed | backend/app/core/deps.py:53-61 | With clock readings that do not go back, a call is allowed exactly when fewer than max_calls allowed calls of the whole history lie in the window that ends now, and other keys are not affected |
| RateLimiter.RedisKey.IsAllowed | backend/app/core/deps.py:67-79 | The sorted set, pruned and expiring, decides as the set of all members ever added |
| RateLimiter.NoWindowExceeds | backend/app/core/deps.py:53-61 | For any calls in clock order no window (x, x + window], wherever it starts, holds more than max_calls allowed ones |
| RateLimiter.RedisMakesTheSameDecisions | backend/app/core/deps.py:67-79 | With distinct members the script allows exactly the calls the rule allows |
| RateLimiter.LiveCountsIff | backend/app/core/deps.py:74-76 | The set never holds more than the window's allowed calls, and holds as many if and only if no two of them drew the same member |
| RateLimiter.EqualMembersAllPass | backend/app/core/deps.py:76 | Any number of calls that draw one and the same member all pass a limit of two or more; limits of zero and one are kept |
| RateLimiter.SwitchingAtMostDoubles | backend/app/core/deps.py:97-106 | However calls switch between the script and the fallback on one clock, if the calls Redis answers draw distinct members no window holds more than 2 max_calls |
| RateLimiter.SwitchingExceedsIff | backend/app/core/deps.py:70-78 | After any run within the limits, a burst of max_calls or more fresh members each way exceeds 2 max_calls if and only if two allowed calls of that window drew the same member |
| RateLimiter.EqualMembersExceedDouble | backend/app/core/deps.py:76 | Five calls of one moment that draw one member all pass a limit of two |
| RateLimiter.SwitchingReachesDouble | backend/app/core/deps.py:97-106 | The factor two is reached with distinct members |
| TokenRevocation.Authority.PruneRevoked | backend/app/core/security.py:36-41 | Drops exactly the entries whose expiry has passed |
| TokenRevocation.Authority.RevokeToken | backend/app/core/security.py:44-54 | Prunes, then lists the token until its own expiry |
| TokenRevocation.Authority.IsTokenRevoked | backend/app/core/security.py:57-69 | Answers from the entry unless it has expired, and drops it then |
| TokenRevocation.Authority.Decode | backend/app/core/security.py:108-135 | Accepts exactly a genuine token that the blocklist does not hold |
| TokenRevocation.Authority.HandleRefresh | backend/app/routers/auth.py:126-168 | Succeeds exactly for an accepted token of an active employee; then the token is revoked until its expiry and no longer accepted, and exactly one successor is issued, new, of the same login and with its own expiry; otherwise nothing is issued, redeemed or revoked |
| TokenRevocation.Authority.HandleLogout | backend/app/routers/auth.py:173-188 | Revokes an accepted token until its expiry, issues nothing, and leaves the token unaccepted in every case |
| TokenRevocation.BlocklistAnswersAsFullSet | backend/app/core/security.py:33-69 | For every token that has not expired, the pruned blocklist answers as the set of all tokens ever revoked |
| TokenRevocation.RotationIsSafe | backend/app/routers/auth.py:126-188 | Over every run of logins, refreshes and logouts, each handler one step: that answer, each refresh token redeemed at most once, and at most one accepted refresh token per login at any moment |
| TokenRevocation.LoginIssuesOne | backend/app/routers/auth.py:68-105 | A login issues one token of a login of its own, accepted exactly until it expires |
| TokenRevocation.RefreshHandsOver | backend/app/routers/auth.py:126-168 | In every reachable state, refreshing an accepted token leaves its holder with exactly one successor, accepted exactly until it expires, while the token itself never is again |
| TokenRevocation.RevokedTokenPassesIff | backend/app/core/security.py:65-69 | With two clock readings, a revoked token passes both checks if and only if its expiry lies between them |
| TokenRevocation.RevokedTokenPasses | backend/app/core/security.py:47-69 | A token logged out at 1 that expires at 100 passes at 100 and 101 |
| RefreshInterleaving.InterleavedRotationIsSafe | backend/app/routers/auth.py:143-168 | With decoding and revoking as separate steps of concurrent requests: on every run in which no token is decoded while another request holds it decoded, each token is redeemed at most once and at most one per login is accepted |
| RefreshInterleaving.RequestsEnd | backend/app/routers/auth.py:143-188 | Whatever came in between, a rotation issues one successor and ends the token's acceptance, a logout ends it too, and a refresh of an inactive employee changes nothing |
| RefreshInterleaving.DecodeHoldsIff | backend/app/core/security.py:108-135 | A request holds its token decoded from then on exactly when the token was accepted |
| RefreshInterleaving.OverlapRedeemsOnceIff | backend/app/routers/auth.py:143-168 | The condition is exact: of two refreshes that overlap, every token is redeemed once if and only if they decoded different tokens, and otherwise the login has two unrevoked refresh tokens |
| RefreshInterleaving.OneTokenRedeemedTwice | backend/app/routers/auth.py:143-168 | A login and two overlapping refreshes of its token, from the start: the token is redeemed twice |
| Subscription.Store.Activate | backend/app/routers/subscription.py:286-306 | The expiry becomes the current one if it lies ahead, otherwise now, plus 2,592,000 seconds (30 days) a month; the plan and status are set, and the stored expiry stays what the whole history of activations gives |
| Subscription.Payment.OnCallback | backend/app/routers/subscription.py:254-271 | A pending payment is confirmed and extends the store once; a confirmed one changes nothing |
| Subscription.RepeatedCallbacks | backend/app/routers/subscription.py:254-271 | Any number of callbacks for one payment extend the store once, from the first one's moment |
| Subscription.ExpiryIsGreatestCandidate | backend/app/routers/platform.py:161-166 | The expiry is the maximum of opening expiry plus all durations and, over all activations, its moment plus the durations from it on |
| Subscription.NoPaidTimeLost | backend/app/routers/platform.py:161-166 | The expiry is never before any activation's moment plus everything paid from then on, nor before the opening expiry plus everything |
| Subscription.ExpiryMovesByPaidPlusLapsed | backend/app/routers/subscription.py:301-305 | The expiry moves by exactly what was paid plus the time the store was lapsed |

## Left out

- HTTP, routing, ORM session internals (autoflush, stale collections), database drivers, Redis transport.
- M-PESA and KRA network calls, signatures, password hashing, JWT encoding: tokens are records and the verdict of the signature and expiry check is a parameter.
- Binary floating point in the tax invoice and in the invoice-match variance: amounts are exact cents. Decimals with more digits than the arithmetic context keeps.
- `sync_customers`, the product and customer feeds to the till (`pullCloudUpdates`), the sync log.
- Convergence of products when queued batches are replayed out of order: it is false, and `ProductIngest.LateReplayIsHarmlessIff` says when a late replay is harmless.
- Barcode, category and unit of a product inserted by sync; SKUs of other stores, which the lookup does not tell apart; a session that a database error inside the product loop leaves unusable: that is one way the commit fails.
- ProductSync.CheckpointMeansListed: says that the catalogue has each product, not that it has the latest values, because a late replay may bring back older ones.
- Columns of a sale that change after it is completed (tax invoice number and flags): a record's `body` stands for the ones that do not.
- Sales received by sync deduct no stock in the receiving database, so they are not handlers of `SaleLifecycle`; nor are the direct stock write of `update_product`, opening stock from sync inserts and seed data.
- `adjust_stock` takes no row lock and `void_transaction` and `mpesa_confirm` do not lock the sale: they are atomic steps in `SaleLifecycle` and not in `RowLocks`. The M-PESA callback shares `ConfirmPayment`.
- `RowLocks` has a sale's lines and a posting's accepted units; damaged and rejected rows, prices and statuses are in `SaleLifecycle` and `Procurement`.
- SaleTotals.FractionalChangeSplitsIff: takes the cash in whole cents; the database's own rounding of a finer amount is not modelled.
- CHECKs on money columns, the unique receipt number and every other reason for a failed commit are folded into `commitOk`.
- The agent's overlap guard (`sync-agent/src/index.js:38-52`) is the precondition that a cycle starts between cycles; the till's own writes interleave with a cycle in `OutboxProtocol`, not inside `SyncAgent.Agent.SyncTransactions`.
- `Checkpoint.EntitySync.SyncEntity` starts after the drain of the retry queue, which is the event `Replayed`; pushing its failed batch is `RetryQueue`'s `Push`.
- Purchase-order money totals, supplier checks, invoice matching, cost-price updates, packaging records.
- TokenRevocation.RotationIsSafe: takes each handler as one step; `RefreshInterleaving` splits them, and takes the revocation itself and the query that finds the employee as one step.
- Two callbacks for one subscription payment at the same moment: its row is not locked, and the model takes callbacks one at a time. A payment whose store was deleted.
- Per-worker multiplicity of the in-process limiter and blocklist; WebSocket tickets and registry; access tokens.
- Roles, cross-store access, audit-trail text, reports, the browser's offline queue, metrics and all UI.
- Sale statuses REFUNDED and SUSPENDED and the order status CLOSED, which no handler writes.
