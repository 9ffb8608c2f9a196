# Verification of the order outbox and the account state

A Dafny model of what decides whether orders, fills, positions and account state can be trusted:
the order-reconciliation outbox, the two exchange adapters, the position ledger, the mode-switch
guard, the risk-limit compare-and-swap, the audit log and the risk engine. `dafny verify
dfyconfig.toml` checks all of it.

## How the model is laid out

The outbox is modelled three times, each layer tied to the next.

* `Ledger` says what every transaction does to the tables, as a function of the tables. `Database`
  and `OutboxWorker` carry out the same transactions statement by statement, with loops and in-place
  updates, and are proved equal to those functions (`Store`, `Worker`).
* `Outbox` is the concurrent protocol. Claim, hydrate, adapter call, commit and mark are separate
  steps of any number of workers. Lease expiry and re-claim, crashes, failing reads, dropped marks,
  noticed aborts, commits whose reply is lost and, where a statement ignores its error, aborts taken
  for success are steps as well. A run is any sequence of events; an event that is not enabled
  changes nothing.
* `Drain` proves that a pass of the sequential worker is a run of that protocol, so what holds of all
  runs holds of the worker.

`OutboxSafety` and `OutboxTheorems` hold the invariant and its preservation. `Guarantees`,
`Conservation`, `PositionHistory`, `Quiescence`, `Orphans`, `LiveLedger`, `LivePricing`,
`PaperFills`, `Leases` and `ModeSwitch` state what follows over whole runs; `DispatchOutcomes`,
`CatchUp` and `BookPrices` what single stages and passes leave, in the fields of the rows. `Pricing`
and `Positions` are about the arithmetic of prices and positions over whole histories. `Account`,
`RiskLimits`, `RiskEngine` and `CorrelationGroups` are the account side.

## Conventions

* Quantities, prices and equity are integers in units of 10^-10, the scale of the `NUMERIC(30,10)`
  columns; quote amounts are integers in units of 10^-20, so products are exact. Prices are rounded
  once, to the stored scale. The risk engine computes on exact reals.
* `Schema.closeCheck` says whether `CHECK (quantity > 0)` binds closed position rows. It does in
  `crates/server/migrations/0001_schema.sql:63`, while the statement that closes a position writes 0
  (`crates/server/src/db.rs:646`). With the CHECK every full close aborts its pass, which is then
  retried for ever; without it the code does what it was written to do. Results hold for both
  values unless they name one.
* `Config.serialPositions` is the single worker loop of `crates/server/src/main.rs:119-128`. The
  position row is read without a lock and written as an absolute value, so position conservation
  needs that loop; everything said per order holds for any number of workers, where a racing pass
  may act on any stale position and leave any rows for its own account and symbol.
* Transactions that lock the order row are atomic steps. Clocks, the book's quotes, exchange
  responses, new ids and the batch order that `UPDATE ... RETURNING` produces are inputs.
* No route enqueues `cancel_order`. The environment does (`RequestCancel`), with any key and with the
  order's own mode.
* Each of the source's text trade ids is a value of three components; `TradeIdText` proves that the
  text identifies them.

## What turned out not to hold

* Leases are not exclusive and `delivered` is not final: marks do not look at who holds the lease
  (`Leases.LateRequeueBreaksLease`, `Leases.DeliveredIsNotFinal`). Exactly a requeue by some task
  makes such a row claimable again (`Leases.ClaimableAgainExactlyWhenRequeued`). The ledger survives
  this.
* Without a single worker, a delta is added correctly exactly when the position read is still, or
  again, the stored one (`Positions.StaleWriteExactly`); two passes that read the same position
  always lose one delta when both commit (`Positions.SameReadLosesUpdate`).
* A failing row lock is escalated like a missing order, and errors of the event inserts of
  `persist_reconcile_result` are ignored, so that its abort can be taken for a success. The first can
  leave an order without any command that would move it on (`Orphans.LockErrorOrphans`), the second a
  CancelRequested order (`Orphans.SilentAbortOrphans`), but never a Pending one
  (`Quiescence.SubmitsNoticeAborts`). A dropped mark or a redelivery may still repair it;
  `Quiescence.PaperQuiescence` says exactly which orders have lost their command.
* A live answer to an unchanged status word drops what was executed since
  (`BinanceAdapter.AnswerCatchesUpExactly`). Quantity executed on an order that the exchange itself
  cancels, expires or, after a partial fill, rejects is escalated and never recorded, because the
  status change is illegal (`Orphans.ExchangeCancelOrphans`). `CatchUp.PassCatchesUpExactly` says
  exactly when a whole pass catches up. Reconciles are enqueued once, so once they are delivered or
  escalated the order stays as it is until somebody requests its cancellation
  (`Quiescence.IdleOrderIsFrozen`).
* Very small quote increments are booked at the submitted price (`Pricing.SmallIncrementMisprices`);
  `Pricing.AccurateExactlyWhenAllFit` gives the exact condition.
* The first exchange config of an account skips the mode guard
  (`ModeSwitch.FirstConfigIsUnguarded`); `ModeSwitch.ModesAgreeExactly` says which runs are harmed.
* With the CHECK as deployed a paper reconcile that closes a position fully is retried for ever
  (`Drain.FullCloseRetriesForever`). As long as quotes are positive nothing else is retried
  (`Drain.RetriesExactly`); `crates/exchange/src/binance/rest.rs:199` drops quotes whose bid is not.
* The equity and percentage columns round, while the audit events carry what was requested
  (`Account.StoredExactlyWhenRepresentable`, `RiskLimits.StoredPctExact` say exactly when they agree).

Where code and documentation disagree, the code is modelled. `docs/PHASE2_STATUS.md:87-90` says that
a shrink resets the entry price; the code keeps it (`Positions.EntryPriceHistory`).
`docs/ARCHITECTURE.md:92` speaks of retrying with backoff; the code only counts attempts.

## Model

| member | source | states |
|---|---|---|
| Guarantees.ExactlyOnceLedger | crates/server/src/outbox_worker.rs:213-297 | In every reachable state, with any number of workers and all faults: filled quantity = sum of the order's fill rows, between 0 and its quantity; trade ids are exactly the ordinals 0..n-1; at most quantity/10^-10 fills |
| Guarantees.TradeIdsNeverRepeat | crates/server/migrations/0007_order_fills.sql:16 | No trade id is recorded twice, across all orders and accounts |
| Guarantees.NoAba | crates/server/src/outbox_worker.rs:231-260 | If the staleness test on (filled sum, status) passes, the stored fills are the snapshot's fills and the new trade id is unused |
| Guarantees.EscalatedExactly | crates/server/src/outbox_worker.rs:242-289 | A commit step of any worker, over whatever positions it read, ends in an escalation iff its snapshot is up to date, the tables would take its fill and its status is illegal from the locked one; the "every trade id already exists" escalation is unreachable |
| Guarantees.StatusWritesAreLegal | crates/server/src/outbox_worker.rs:276-289 | Every status any step writes is a legal transition from the status the locked row holds at that moment |
| Guarantees.Lifecycle | crates/exchange/src/order_state.rs:9-34 | Over any continuation of any run: identity kept, status follows a path of legal transitions, no way back to Pending or Submitted, fills only appended, terminal orders frozen |
| Guarantees.FollowUps | crates/server/src/outbox_worker.rs:340-421 | In every run, however often submit and cancel are redelivered: idempotency keys never repeat, the submit is there, a Pending order has no reconcile row, and an order that left Pending has one unless some step took it straight from Pending to Rejected after a permanent rejection |
| Guarantees.OnlyRejectionSkipsFollowUp | crates/server/src/outbox_worker.rs:87-121 | The only step that takes an order out of Pending without a follow-up is the permanent-rejection path, and it takes it to Rejected |
| Guarantees.PaperAgreement | crates/exchange/src/paper/mod.rs:66-145 | Every reachable paper order: Filled iff filled = quantity, by one fill; otherwise nothing filled; never PartiallyFilled or Rejected; limit fills at the limit or better |
| PaperFills.PaperFillsAreQuoted | crates/exchange/src/paper/matching_engine.rs:14-58 | In every run each recorded paper fill is at a price that was a fresh quote when a pass at that order was given it, and within the limit |
| BookPrices.PaperFillsExactly | crates/exchange/src/paper/mod.rs:66-145 | The fill rows that dispatching a paper reconcile adds, in full: one fill of the whole quantity at the book's ask for a buy and bid for a sell, iff the order is Submitted, that quote is fresh and touches the limit, and the CHECK does not refuse the close |
| OutboxWorker.PassAddsAtBook | crates/exchange/src/paper/mod.rs:93-117 | Every fill that a pass adds, over any number of commands, is at its order's side of the book of that pass, fresh and within the limit |
| Guarantees.PaperNeverEscalates | crates/server/src/outbox_worker.rs:276-289 | No commit step of a paper pass, of any number of workers, ends in the illegal-transition escalation or any other: it is done or retried |
| DispatchOutcomes.HydrationExactly | crates/server/src/outbox_worker.rs:53-73 | No adapter, a failing lock or a missing order escalates, any other read error retries, and otherwise the snapshot is the order's stored row and fills |
| DispatchOutcomes.AdvanceExactly | crates/server/src/outbox_worker.rs:315-351 | An accepted submit moves the order from Pending only, an accepted cancel from Pending, Submitted or PartiallyFilled; the follow-up row is there once; nothing else changes |
| DispatchOutcomes.RefusalExactly | crates/server/src/outbox_worker.rs:151-159 | A refused submit or reconcile rejects the command for good iff the error is one of the three incurable ones; a refused cancel is always retried |
| DispatchOutcomes.UnknownWordIsRetried | crates/exchange/src/binance/reconcile.rs:48-65 | A reconcile answered by no status word or an unknown one is retried and changes nothing |
| DispatchOutcomes.MarkExactly | crates/server/src/db.rs:551-591 | The stored status of a marked row for each outcome; only a requeue counts an attempt |
| DispatchOutcomes.RejectStepExactly | crates/server/src/outbox_worker.rs:87-121 | An undropped rejection makes the order Rejected iff it is Pending or Submitted; every other row and field stays |
| DispatchOutcomes.RefusedSubmit | crates/server/src/outbox_worker.rs:87-121 | A whole run from the empty database, for each error: the order ends Rejected under a permanently rejected command iff the error is incurable, otherwise Pending with its command queued again |
| Outbox.FaultsExactly | crates/server/src/outbox_worker.rs:291-297 | A lost reply does the whole commit and reports a retry, both aborts do nothing of it, and a transaction that fails by itself is the same under every fault |
| OutboxSafety.FreshMeansSameFills | crates/server/src/outbox_worker.rs:231-240 | Equal filled sums of a past and the present fill list mean equal lists, so every ordinal from the count on is free, for any account and venue |
| OutboxSafety.PersistExactly | crates/server/src/outbox_worker.rs:213-297 | The whole pass, loops and early returns, equals one case distinction on staleness, fill price, positions, legality and range |
| OutboxSafety.PersistCases | crates/server/src/outbox_worker.rs:213-297 | What a committed pass leaves in the tables and what it required, and the only reasons for which a pass is retried or escalated |
| OutboxTheorems.StepKeeps | crates/server/src/outbox_worker.rs:37-139 | Each step of each worker, and each fault, keeps the whole protocol invariant and evolves rows only forwards |
| OutboxTheorems.ReachedOk | crates/server/src/outbox_worker.rs:37-139 | Every reachable world satisfies the protocol invariant |
| Types.PrefixDeterminedBySum | crates/server/src/outbox_worker.rs:237-240 | Among the prefixes of a list of positive fills the sum determines the prefix, both ways: what makes the sum a safe version stamp |
| Types.SumsIgnoreOrder | crates/server/src/db.rs:428-451 | Fills read back in any order give the same quantity and quote sums |
| OrderState.LegalExactly | crates/exchange/src/order_state.rs:9-34 | The legal single transitions, characterised from the reachability relation |
| OrderState.ReachesIsClosure | crates/exchange/src/order_state.rs:9-34 | The reachability relation is exactly the reflexive transitive closure of the transition table |
| OrderState.NoWayBack | crates/exchange/src/order_state.rs:9-34 | No path leaves a terminal status, returns to Pending, or returns to Submitted |
| Conservation.PositionConservation | crates/server/src/db.rs:600-684 | In every reachable state of a single-worker run, through crashes, re-claims and lost replies: at most one open row per account and symbol, positive, its signed quantity = total bought - total sold |
| Conservation.PassConserves | crates/server/src/outbox_worker.rs:266-274 | One committed pass records a fill and moves the position by the same signed amount, and balances every other account and symbol |
| Conservation.TotalsIgnoreOrder | crates/server/src/db.rs:600-684 | The totals bought and sold do not depend on the order of the fills |
| Conservation.NetIgnoresArrivalOrder | crates/server/src/db.rs:600-684 | Two single-worker runs over the same orders that recorded the same fills in any order end at the same signed position everywhere |
| Positions.DeltaIsAddition | crates/server/src/db.rs:600-684 | Opening, growing, shrinking, flipping and closing are one law: net' = net + delta, validity kept, nothing else touched |
| Positions.RefusedExactlyWhen | crates/server/migrations/0001_schema.sql:58-73 | A delta is refused iff it closes fully under the CHECK or would open or flip at a negative price |
| Positions.ClosedExactly | crates/server/src/db.rs:644-652 | A delta closes a row iff it cancels that row's signed quantity; the closed row has quantity zero and is never touched again |
| Positions.FullCloseIsStuck | crates/server/migrations/0001_schema.sql:63 | With the CHECK as deployed a full close is always refused; without it, it goes through |
| Positions.StaleWriteExactly | crates/server/src/db.rs:611-682 | However stale the read: a committed write adds its delta iff the open row and its signed quantity are those that were read |
| Positions.SameReadLosesUpdate | crates/server/src/db.rs:611-682 | Two deltas computed from the same read: the second never leaves net + both |
| Positions.EntryStep | crates/server/src/db.rs:644-682 | One delta either keeps sign and entry price of the open position or sets the entry price to its own |
| Positions.EntryPriceHistory | crates/server/src/db.rs:638-682 | After any sequence of deltas the entry price is that of the last delta that opened the position from flat or flipped it |
| PositionHistory.PositionsReplayFills | crates/server/src/db.rs:600-684 | In every single-worker run the positions table is exactly what the recorded fills, one delta each in the order of the rows, make of an empty one |
| PositionHistory.ReachedEntryPrice | crates/server/src/db.rs:638-682 | In every reachable state of a single-worker run an open position carries the price of the recorded fill that last opened or flipped it |
| PaperAdapter.MeetsContract | crates/exchange/src/paper/mod.rs:66-145 | The paper answer is nothing, a confirmed cancel, or one fill of the whole remainder within the limit; it meets the contract persisting relies on |
| PaperAdapter.FillsExactlyWhenMatchable | crates/exchange/src/paper/matching_engine.rs:14-58 | A pass fills an open order iff something remains and the quote is fresh and touches the limit; the fill is at that quote |
| MatchingEngine.TryFill | crates/exchange/src/paper/matching_engine.rs:14-58 | A fill requires a fresh estimate, and a limit fill a limit price that the fill price meets |
| BinanceAdapter.MapStatusInvertsWords | crates/exchange/src/binance/reconcile.rs:53-65 | A word maps to a status iff it is one of that status's words; any other word is an error |
| BinanceAdapter.MeetsContract | crates/exchange/src/binance/reconcile.rs:67-164 | Every live answer has at most one positive fill with the next ordinal, the matching delta, and a status whenever there is a fill; a terminal order is left alone |
| BinanceAdapter.ReportsTheWord | crates/exchange/src/binance/reconcile.rs:53-69 | For an open order and any word of the exchange: the answer reports exactly the status whose word it is, unless that is the order's own, with and without a fill |
| BinanceAdapter.AnswerCatchesUpExactly | crates/exchange/src/binance/reconcile.rs:67-77 | For every known status word: recorded plus what the answer adds equals executed iff they were equal before, or more was executed, the order is open and the word has changed |
| CatchUp.PassCatchesUpExactly | crates/server/src/outbox_worker.rs:213-297 | For a whole pass of any worker over an up-to-date snapshot and a known word: filled equals executed afterwards iff it did before, or more was executed but not more than the quantity, the status change is legal and no repetition, and fill price and positions pass the tables' CHECKs |
| CatchUp.FillRecordedExactly | crates/server/src/outbox_worker.rs:246-289 | A pass with a fill commits, and adds exactly that fill, iff price, range, legality and positions allow it; otherwise the filled quantity stays |
| CatchUp.PassLeavesExactly | crates/server/src/outbox_worker.rs:213-297 | The order row after a whole up-to-date pass, for every word: the new status alone if nothing new was executed and the change is legal, status and executed quantity if the units are recordable, else the old row |
| Pricing.OnePass | crates/exchange/src/binance/reconcile.rs:91-111 | A pass leaves the recorded total within half a unit of its own fill iff the quote exceeds what was recorded or the fallback price happens to fit; earlier rounding never matters |
| Pricing.NoDrift | crates/exchange/src/binance/reconcile.rs:91-111 | Over any number of passes the sum of q*p and the latest cumulative quote differ by at most half a price unit on the last fill, given increments that exceed the previous residual |
| Pricing.AccurateExactlyWhenAllFit | crates/exchange/src/binance/reconcile.rs:91-111 | Without that proviso: a run stays within the bound all along iff each recorded pass has a quote above what was recorded, or a submitted price that fits |
| Pricing.SmallIncrementMisprices | crates/exchange/src/binance/reconcile.rs:107-111 | Without that proviso the bound fails: a concrete two-pass run |
| Pricing.SteadyRunsFit | crates/exchange/src/binance/reconcile.rs:91-111 | Quote increments that exceed half a unit on the fill before always fit |
| LivePricing.FillsAreReplayed | crates/exchange/src/binance/reconcile.rs:91-131 | In every run of the outbox a live order's stored fills are exactly what the pricing makes of the responses behind its committed passes, one fill each |
| LivePricing.LivePricingDoesNotDrift | crates/exchange/src/binance/reconcile.rs:91-111 | The bound for every reached live order: its recorded quote is within half a price unit, on its last fill, of the cumulative quote reported for that fill, if the responses fit |
| LiveLedger.NeverAhead | crates/exchange/src/binance/reconcile.rs:67-77 | With an exchange whose answers may be late or incomplete but never exceed what it has executed: over all interleavings of workers holding responses of different ages, recorded <= executed |
| LiveLedger.CommitRecordsTheLarger | crates/exchange/src/binance/reconcile.rs:67-80 | In any run, whatever the exchange reports: a pass that commits a status change leaves that status and, as recorded quantity, the larger of what it read and what was recorded |
| LiveLedger.CommitCatchesUp | crates/exchange/src/binance/reconcile.rs:67-80 | With an exchange that reports its executed quantity of the moment, that is exactly the quantity the pass read |
| Quiescence.PaperQuiescence | crates/server/src/outbox_worker.rs:304-424 | In every run, all faults included: a Pending paper order has its submit unfinished iff that row is not reconciliation_required; a CancelRequested one its post-cancel reconcile iff that row is not, and was not last marked by a task whose abort went unnoticed; and neither happens unless a failing hydration or such an abort struck that very command |
| Quiescence.PaperRests | crates/server/src/outbox_worker.rs:304-424 | With no command unfinished, every paper order struck by no such fault is Submitted, Filled or Cancelled |
| Quiescence.SubmitsNoticeAborts | crates/server/src/outbox_worker.rs:305-352 | No abort of a submit is taken for success in any run |
| Quiescence.IdleOrderIsFrozen | crates/server/src/outbox_worker.rs:340-349 | An order whose commands are all finished, with no worker at one, keeps row and fills in every run in which nobody requests its cancellation |
| Orphans.LockErrorOrphans | crates/server/src/outbox_worker.rs:179-181 | One failing row lock leaves a Pending order with no unfinished command |
| Orphans.SilentAbortOrphans | crates/server/src/outbox_worker.rs:291-296 | A whole run from the empty database: the event insert of a confirmed cancel fails, and the order stays CancelRequested with only delivered commands |
| Orphans.ExchangeCancelOrphans | crates/exchange/src/binance/reconcile.rs:53-65 | A whole run from the empty database: the exchange executes five of ten units and cancels; the pass is escalated, and the order stays Submitted with nothing filled and no unfinished command |
| Leases.ClaimableAgainExactlyWhenRequeued | crates/server/src/db.rs:551-591 | Over any run that ends before the row's lease, if it has one: a row that is not pending becomes claimable iff some task requeues it; all other marks are harmless. For a leased row this is what the lease is worth, for a finished row what its status is worth |
| Leases.ClaimLeases | crates/server/src/outbox_worker.rs:43 | A claim succeeds iff the row is claimable, and the row is claimable again exactly more than 30 seconds later |
| Leases.TwoClaimsReached | crates/server/src/db.rs:522-532 | Two workers can hold the same command after a lease expired |
| Leases.LateRequeueBreaksLease | crates/server/src/db.rs:572-581 | A slow worker's requeue lets a third claim the row while the second one's lease has 30 seconds left |
| Leases.DeliveredIsNotFinal | crates/server/src/db.rs:551-581 | A reachable run in which one worker delivers a submit and a slow one puts it back into the queue |
| Database.ClaimTakesOldest | crates/server/src/db.rs:517-549 | The claim takes claimable rows only, each once, oldest first, and fewer than the limit only if it takes them all |
| Database.Store.ClaimPendingCommands | crates/server/src/db.rs:517-549 | The loop claims exactly that batch and leases exactly those rows |
| Database.Store.UpdateOrderStatus | crates/server/src/db.rs:384-402 | Sets status and filled quantity of that order only, and only inside the table's range CHECKs |
| Database.Store.LoadFillsForOrder | crates/server/src/db.rs:428-451 | All recorded fills of that order and no others |
| Database.Store.InsertFill | crates/server/src/db.rs:455-478 | Appends unless a CHECK or the unique trade id forbids it, and says which |
| Database.Store.InsertExchangeCommand | crates/server/src/db.rs:482-503 | Appends a pending command unless the idempotency key is taken |
| Database.Store.MarkCommand | crates/server/src/db.rs:551-591 | Writes the outcome's own status to that row whoever holds its lease |
| Database.Store.FindOpenPosition | crates/server/src/db.rs:611-618 | Finds the open row of account and symbol if there is one |
| Database.Store.ApplyPositionDelta | crates/server/src/db.rs:600-684 | Does to the table what the position law says, or nothing on a CHECK violation; a row that it closes keeps all but its quantity, which becomes zero |
| Database.Store.PlaceOrder | crates/server/src/routes_orders.rs:74-141 | An approved intent leaves its order and its submit command together; a rejected one leaves neither |
| OutboxWorker.Worker.HydrateSnapshot | crates/server/src/outbox_worker.rs:171-208 | The locked row and all of the order's fills |
| OutboxWorker.Worker.InsertAll | crates/server/src/outbox_worker.rs:246-254 | Inserts the fills in order, collecting those that were new |
| OutboxWorker.Worker.ApplyAll | crates/server/src/outbox_worker.rs:266-274 | Applies all deltas in order, or reports the failure |
| OutboxWorker.Worker.PersistStatements | crates/server/src/outbox_worker.rs:220-289 | The statements in order, ending in the outcome of the atomic transaction |
| OutboxWorker.Worker.PersistReconcileResult | crates/server/src/outbox_worker.rs:213-297 | Everything or nothing: the statement sequence equals the atomic transaction, including each early return |
| OutboxWorker.Worker.Advance | crates/server/src/outbox_worker.rs:315-351 | Status change if legal, follow-up command either way, in one transaction |
| OutboxWorker.Worker.DispatchCommand | crates/server/src/outbox_worker.rs:299-427 | The three dispatch branches with the paper adapter |
| OutboxWorker.Worker.RejectOrder | crates/server/src/outbox_worker.rs:92-110 | A Pending or Submitted order becomes Rejected; any other order, and every other table, stays |
| OutboxWorker.Worker.HandleCommand | crates/server/src/outbox_worker.rs:51-137 | Resolve, dispatch, mark, and reject the order after a permanent rejection |
| OutboxWorker.Worker.RunOnce | crates/server/src/outbox_worker.rs:37-139 | A pass claims the oldest batch, handles each command in turn and returns how many; the new tables are a function of the old ones, the book and the time; orders keep their identity, and every added fill is at its order's side of that book |
| Drain.PassRefinesProtocol | crates/server/src/outbox_worker.rs:37-139 | Whatever a pass does to the tables, some run of single protocol steps does |
| Drain.ClaimIsBatch | crates/server/src/db.rs:517-549 | The claim query meets the batch condition under which the refinement and the drain are proved |
| Drain.PaperReconcileOutcome | crates/server/src/outbox_worker.rs:353-363 | A paper reconcile at positive quotes is delivered, and is retried exactly when it would close a position fully under the CHECK |
| Drain.PassProgresses | crates/server/src/outbox_worker.rs:37-139 | A pass without a refused full close retries nothing and takes at least one unit of work off the queue per claimed command |
| Drain.RetriesExactly | crates/server/src/outbox_worker.rs:37-139 | For either schema, at positive quotes: a pass raises no attempt count iff none of its dispatches is a full close that the CHECK refuses |
| Drain.PassesDrain | crates/server/src/outbox_worker.rs:37-139 | Any batch size >= 1: as many passes as the queue weighs (submit 2, cancel 2, reconcile 1) leave nothing pending or leased, with no attempt count raised; without the CHECK always, with it as long as no claimed reconcile closes fully |
| Drain.ReachedDrains | crates/server/src/main.rs:119-128 | The same from every state a single-worker run, faults included, can reach |
| Drain.FullCloseIsRetried | crates/server/src/db.rs:644-652 | With the CHECK as deployed a dispatch of a reconcile is retried iff it closes fully, and the retry changes only its command row |
| Drain.FullCloseRetriesForever | crates/server/src/db.rs:644-652 | With the CHECK as deployed, after any number of passes at quotes that make it a full close: the same tables but for the attempt count, the command still pending |
| ModeSwitch.Frozen | crates/server/src/db.rs:226-246 | Once an account has no open order, no step but a new order changes that or opens a position |
| ModeSwitch.OpenOrdersHaveConfiguredMode | crates/server/src/routes_exchange.rs:81-204 | For every account whose orders are all placed when it has a config row, in all runs of orders, workers and puts from any initial configs, the empty database included: every open order has the configured mode |
| ModeSwitch.ModesAgreeExactly | crates/server/src/routes_exchange.rs:108-125 | For every account and run: open orders have the configured mode throughout iff no first config row goes in as live while the account has open orders |
| ModeSwitch.SwitchLeavesNothingOpen | crates/server/migrations/0008_exchange_configs.sql:34-64 | After a committed switch, although its counts race with fills, every order of the account is Filled, Cancelled or Rejected and no row of it is open with a positive quantity, on either side |
| ModeSwitch.SwitchFindsFlat | crates/server/src/routes_exchange.rs:116-125 | With a single worker the account is then flat: its signed position is zero in every symbol, and what it bought is what it sold |
| ModeSwitch.FirstConfigIsUnguarded | crates/server/src/routes_exchange.rs:110-125 | After a first config the open orders' modes are right iff it is paper or nothing is open |
| ModeSwitch.UninterruptedPutIsOutcome | crates/server/src/routes_exchange.rs:92-178 | Lock, four counts and commit without interruption amount to the handler's answer |
| ModeSwitch.ExchangeConfigStore.HasOpenActivity | crates/server/src/db.rs:226-246 | True iff some order row of the account is in none of the three terminal statuses or some position row of it is open with a positive quantity |
| ModeSwitch.ExchangeConfigStore.PutExchangeConfig | crates/server/src/routes_exchange.rs:81-204 | Version conflict iff the versions differ, open activity iff the mode would change over such a row, else the new mode under the next version; nothing else is written |
| Account.LogReplaysToState | crates/server/src/routes.rs:139-164 | Over any run: engage and release strictly alternate, nothing is approved in between, status is killed if the last is an engage and active otherwise, equity is the last logged one rounded (exactly it iff it has at most ten decimals), one trip event per tripped date |
| Account.StoredExactlyWhenRepresentable | crates/server/src/routes.rs:150-159 | The stored equity is the requested one iff that is a multiple of 10^-10 |
| Account.StoredIsNearest | crates/server/src/routes.rs:150-159 | The stored equity is the unit nearest to the requested one, half a unit going up |
| Account.BreakerIsSticky | crates/server/src/routes.rs:425-441 | Once an evaluation detects a trip, neither it nor any later evaluation or order on that date is approved, whatever happens to equity, limits, losses or kill switch, and one trip event is logged |
| Account.TripExactly | crates/server/src/db.rs:158-165 | The detected trip and the decision, in the account's own columns: recorded loss against the percentage of equity, in these roles |
| Account.DecisionLeaves | crates/server/src/routes.rs:425-461 | A decided request leaves equity, switch, limits and recorded losses alone, trips its date iff it is an evaluation that detects a trip, and logs its decision last |
| Account.AccountStore.PutEquity | crates/server/src/routes.rs:139-164 | Refuses negative equity; otherwise stores it and logs old and requested |
| Account.AccountStore.EngageKillSwitch | crates/server/src/routes.rs:345-369 | Engages and logs once; a repeat is a no-op |
| Account.AccountStore.ReleaseKillSwitch | crates/server/src/routes.rs:371-398 | Releases and logs once; reports the stored status |
| Account.AccountStore.EvaluateTrade | crates/server/src/routes.rs:407-462 | Validates, decides on the snapshot before the trip, persists a newly seen trip, then logs the decision |
| Account.AccountStore.PlaceOrder | crates/server/src/routes_orders.rs:40-104 | Refuses a blank symbol or a quantity that is not positive; otherwise decides on the snapshot and logs the decision, persisting no trip |
| RiskLimits.ChangesFormGaplessChain | crates/server/src/routes.rs:213-274 | However writers interleave: logged versions are 1,2,3,... without gap, each event's old values are the stored values of the version before, the stored row is the last |
| RiskLimits.LosersWriteNothing | crates/server/src/routes.rs:238-246 | Of the writers that read one version at most one is logged; losers write neither limits nor event |
| RiskLimits.WinnerWrites | crates/server/src/routes.rs:222-267 | A winning update stores each requested field in its own column and logs the replaced and the requested limits |
| RiskLimits.AcceptedExactly | crates/server/src/routes.rs:199-211 | Limits are accepted iff each percentage is at least half of the last stored decimal and at most 100 and the position count is positive |
| RiskLimits.StoredPctIsNearest | crates/server/src/routes.rs:229-232 | A stored percentage is the nearest with four decimals, and storing it again changes nothing |
| RiskLimits.StoredPctExact | crates/server/src/routes.rs:259-265 | The logged percentage is the stored one iff it has at most four decimals |
| RiskLimits.RiskConfigStore.PutRiskConfig | crates/server/src/routes.rs:193-274 | Succeeds iff in range, also after rounding, and at the current version; then each field is in its own column and old and requested limits are logged; it is the protocol's read and update in a row |
| RiskEngine.Evaluate | crates/core/src/engine.rs:33-74 | The engine's pushes onto one list amount to the decision function, and approve exactly what the rule book in plain arithmetic permits |
| RiskEngine.ApprovedExactlyWhenPermitted | crates/core/src/engine.rs:33-170 | Approval is equivalent to the rule book in plain arithmetic on the snapshot's fields |
| RiskEngine.ReducesExactly | crates/core/src/engine.rs:81-94 | In signed numbers, long and buy positive: a trade is exempt for a position iff it is of the same symbol and takes its whole quantity off the position's size, facing it if the quantity is zero |
| RiskEngine.OversizeOnlyShrinks | crates/core/src/engine.rs:48-66 | Whatever is approved above the size limit leaves some position of its symbol smaller by the whole traded quantity |
| RiskEngine.ExposureExactly | crates/core/src/engine.rs:151-160 | The exposure of a group is additive, and a position counts with its notional iff its symbol is in the group |
| RiskEngine.AmountsExactly | crates/core/src/engine.rs:108-112 | The limit is the percentage of the equity, the notional is quantity times price |
| RiskEngine.ReportedAlone | crates/core/src/engine.rs:33-47 | A kill switch, then a negative intent, is reported alone |
| RiskEngine.ListedInOrder | crates/core/src/engine.rs:48-74 | Violations come in a fixed order of the rules, each rule once |
| RiskEngine.EveryViolationReported | crates/core/src/engine.rs:33-170 | A violation is in the list iff its rule is broken, with its own numbers |
| RiskEngine.ApprovalDownwardClosed | crates/core/src/engine.rs:33-170 | Whatever is approved is approved smaller and cheaper, also across the reduce exemption |
| RiskEngine.DecisionIgnoresOrder | crates/core/src/engine.rs:33-170 | The whole decision is invariant under permuting the open positions |
| MarketData.MarketDataProvider.Update | crates/exchange/src/paper/market_data.rs:31-66 | After an update, buys are quoted the ask and sells the bid, fresh exactly while at most the maximal age old; other symbols unaffected |
| MarketData.MarketDataProvider.StaleStaysStale | crates/exchange/src/paper/market_data.rs:46-52 | A stale quote stays stale, on both sides, until replaced |
| TradeIdText.TextIdentifies | crates/exchange/src/binance/reconcile.rs:121-126 | The text of a trade id determines client order id, venue and ordinal |
| CorrelationGroups.Validate | crates/server/src/routes.rs:285-306 | Accepts exactly the lists with no blank name or symbol and no symbol twice |
| CorrelationGroups.GroupStore.PutCorrelationGroups | crates/server/src/routes.rs:285-341 | Replaces all groups iff the list is well formed and its names are unique, otherwise changes nothing |
| CorrelationGroups.MapReflectsGroups | crates/server/src/db.rs:131-142 | For an accepted list the engine sees every symbol in exactly the group that lists it |

## Left out

- Pricing.NoDrift: assumes that each recorded increment of the exchange's quote exceeds half a price unit on the fill before it; `Pricing.AccurateExactlyWhenAllFit` says exactly which runs stay accurate, and `Pricing.SmallIncrementMisprices` shows one that does not.
- LivePricing.LivePricingDoesNotDrift: assumes that every response behind a fill fits, which by `Pricing.AccurateExactlyWhenAllFit` is exactly when the bound holds all along.
- Conservation.PositionConservation: holds for the single worker loop only, since the position row is not locked.
- LiveLedger.NeverAhead: assumes that the exchange never reports more than it has executed, which only grows.
- LiveLedger.CommitCatchesUp: assumes that it reports all of it; `LiveLedger.CommitRecordsTheLarger` assumes nothing.
- PositionHistory.ReachedEntryPrice: holds for the single worker loop only, like position conservation.
- Drain.PassesDrain: assumes positive quotes, and with the CHECK as deployed that no claimed reconcile closes fully; `Drain.RetriesExactly` says that this is exactly when nothing is retried.
- ModeSwitch.OpenOrdersHaveConfiguredMode: needs a config row at the time of each order, since the first insert is unguarded; `ModeSwitch.ModesAgreeExactly` covers all other runs.
- ModeSwitch.ExchangeConfigStore.PutExchangeConfig: leaves out credentials, the testnet flag, the event and the refusal of an unknown mode word; the second, identical count of the trigger is part of the step system only.
- OutboxWorker.Worker.RunOnce: the wiring of `main.rs`, with the paper adapter and a database that does not fail; the live adapter and all faults are in the step system.
- OutboxWorker.Worker.DispatchCommand: the same; what a failing statement or a live answer does to a dispatch is `Outbox.Step`.
- Database.Store.PlaceOrder: the tables only; the risk decision and its event are `Account.AccountStore.PlaceOrder`, and symbol metadata and `validate_order` come before either.
- Account.AccountStore.EvaluateTrade: positions, groups and the UTC date are inputs, one date per transaction.
- Account.AccountStore.PlaceOrder: the same; the evaluation price is part of the intent.
- HTTP and WebSocket clients, signing, encryption, JSON parsing: a live response starts as parsed fields.
- SQL text, row-level security, grants and pools: tables are maps and sequences, and only the CHECKs and unique indexes that decide outcomes are kept.
- Malformed payloads and unknown command types, which are escalated before anything is read.
- The outbox's own risk events, fees and `realized_pnl`, which no decision reads.
- The decimal type's own limits on digits: a live price is rounded once, to the stored scale, not first to 28 digits.
- `PaperAccount`, which nothing calls; `validate_order` and symbol metadata, which refuse an order before anything is stored; the string converters, since the model starts from parsed values.
- Starvation-freedom and backoff: attempts are only counted.
- Exposure and position-count caps over runs: the server does not keep them, since pending orders are not in the snapshot and adds do not re-average the entry price.
