/** How each stage of a dispatch ends, and what permanent rejection does to the
  command and its order. */
module DispatchOutcomes {
  import opened Types
  import opened Ledger
  import opened Positions
  import opened Outbox
  import opened Orphans
  import opened MarketData
  import opened BinanceAdapter

  // ----- the stages before a rejection -----

  /** How a hydration ends. A command without an adapter is escalated before
    anything is read; so is one whose order is missing or cannot be locked. */
  lemma HydrationExactly(cfg: Config, w: World, task: nat, fault: ReadFault)
    requires InPhase(w, task) && w.tasks[task].phase.Claimed?
    ensures var w', c := Step(cfg, w, Hydrate(task, fault)), CommandOf(w, task);
      var served := if c.mode.Paper? then cfg.paper else cfg.live;
      && w'.t == w.t && task in w'.tasks
      && (!served || fault.LockError? || (fault.NoReadFault? && c.key.order !in w.t.orders) ==>
            w'.tasks[task].phase == Finished(NeedsReview))
      && (served && fault.ReadError? ==> w'.tasks[task].phase == Finished(Retry))
      && (served && fault.NoReadFault? && c.key.order in w.t.orders ==>
            var row := w.t.orders[c.key.order];
            w'.tasks[task].phase
            == Hydrated(ReconcileSnapshot(
                          OrderSnapshot(c.key.order, row.symbol, row.side, row.orderType, row.quantity, row.price,
                                        row.status),
                          FillsOf(w.t.fills, c.key.order))))
  {
  }

  /** The order row and the commands that an accepted submit or cancel leaves: the
    status moves from exactly these statuses, and the follow-up is there once. */
  lemma AdvanceExactly(cfg: Config, w: World, task: nat, read: seq<Position>, left: seq<Position>)
    requires InPhase(w, task) && w.tasks[task].phase.Accepted? && CommandOf(w, task).key.order in w.t.orders
    ensures var w', c := Step(cfg, w, Commit(task, NoCommitFault, read, left)), CommandOf(w, task);
      var order, row, cancels := c.key.order, w.t.orders[c.key.order], c.key.CancelKey?;
      var followUp := if cancels then PostCancelKey(order) else InitialKey(order);
      && task in w'.tasks && w'.tasks[task].phase == Finished(Done)
      && w'.t.orders == w.t.orders[order := row.(status :=
                          if cancels && row.status in {Pending, Submitted, PartiallyFilled} then CancelRequested
                          else if !cancels && row.status.Pending? then Submitted
                          else row.status)]
      && w'.t.fills == w.t.fills && w'.t.positions == w.t.positions
      && w'.t.commands == if exists i :: 0 <= i < |w.t.commands| && w.t.commands[i].account == c.account
                                         && w.t.commands[i].key == followUp
                          then w.t.commands
                          else w.t.commands + [Command(c.account, followUp, c.mode, Queued, 0, 0)]
  {
    assert CommandOf(w, task).key.Kind().CancelOrder? <==> CommandOf(w, task).key.CancelKey?;
    assert w.t.orders[CommandOf(w, task).key.order := w.t.orders[CommandOf(w, task).key.order]] == w.t.orders;
  }

  // ----- refusals -----

  /** The exchange's refusals that no retry can cure (outbox_worker.rs:154-156). */
  predicate Incurable(err: ExchangeError) {
    err in {InsufficientBalance, FilterViolation, SymbolNotFound}
  }

  /** How a refused call ends: an incurable submit or reconcile rejects the command
    for good, everything else and every cancel is retried. */
  lemma RefusalExactly(cfg: Config, w: World, task: nat, err: ExchangeError)
    requires InPhase(w, task) && w.tasks[task].phase.Hydrated? && CommandOf(w, task).mode.Live?
    ensures var w', c := Step(cfg, w, Refuse(task, err)), CommandOf(w, task);
      && w'.t == w.t && task in w'.tasks
      && w'.tasks[task].phase == Finished(if Incurable(err) && !c.key.CancelKey? then PermanentReject else Retry)
  {
  }

  /** A reconcile answered by no status word, or an unknown one, is retried. */
  lemma UnknownWordIsRetried(cfg: Config, w: World, task: nat, estimate: Option<Estimate>, resp: Response)
    requires InPhase(w, task) && w.tasks[task].phase.Hydrated? && CommandOf(w, task).mode.Live?
    requires CommandOf(w, task).key.Kind().ReconcileOrder? && !w.tasks[task].phase.s.order.status.IsTerminal()
    requires resp.status.None? || forall to :: resp.status.value !in BinanceAdapter.Words(to)
    ensures var w' := Step(cfg, w, Respond(task, estimate, resp));
      w'.t == w.t && task in w'.tasks && w'.tasks[task].phase == Finished(Retry)
  {
    if resp.status.Some? {
      BinanceAdapter.MapStatusInvertsWords(resp.status.value, Pending);
    }
  }

  /** The stored status of a marked row, for each outcome. */
  lemma MarkExactly(c: Command, out: DispatchOutcome)
    ensures Mark(c, out).status ==
      match out
      case Done => Delivered
      case Retry => Queued
      case PermanentReject => PermanentlyRejected
      case NeedsReview => ReconciliationRequired
    ensures Mark(c, out).attempts == c.attempts + if out.Retry? then 1 else 0
    ensures Mark(c, out).key == c.key && Mark(c, out).account == c.account && Mark(c, out).mode == c.mode
  {
  }

  /** An undropped rejection rejects the order exactly when it is Pending or
    Submitted; nothing else in the tables changes, and the task is over. */
  lemma RejectStepExactly(cfg: Config, w: World, task: nat)
    requires InPhase(w, task) && w.tasks[task].phase.Rejecting?
    ensures var w', order := Step(cfg, w, RejectOrder(task, false)), CommandOf(w, task).key.order;
      && w'.t.orders.Keys == w.t.orders.Keys
      && (order in w.t.orders ==>
            w'.t.orders[order] == if w.t.orders[order].status in {Pending, Submitted}
                                  then w.t.orders[order].(status := Rejected) else w.t.orders[order])
      && (forall other :: other in w.t.orders && other != order ==> w'.t.orders[other] == w.t.orders[other])
      && w'.t == w.t.(orders := w'.t.orders) && w'.tasks == w.tasks - {task}
  {
  }

  /** The live world after the only command was refused and marked. */
  function AfterRefusal(row: OrderRow, err: ExchangeError): World {
    var t := Tables(map[0 := row.(status := if Incurable(err) then Rejected else Pending)], [],
                    [if Incurable(err)
                     then Command(row.account, SubmitKey(0), row.mode, PermanentlyRejected, 0, LEASE_SECONDS)
                     else Command(row.account, SubmitKey(0), row.mode, Queued, 1, 0)], []);
    World(t, map[], 0, map[])
  }

  /** A whole run from the empty database: a submit that the exchange refuses ends
    with a Rejected order under a permanently rejected command when no retry can
    cure the refusal, and with a Pending order whose command is queued again
    otherwise. */
  lemma RefusedSubmit(cfg: Config, row: OrderRow, err: ExchangeError)
    requires Usable(cfg, row) && row.mode.Live?
    ensures var claimed := Exec(cfg, INITIAL, [PlaceOrder(0, row), Claim(0, 0)]);
      var refused := Exec(cfg, claimed, [Hydrate(0, NoReadFault), Refuse(0, err)]);
      Exec(cfg, refused, [MarkCommand(0, false), RejectOrder(0, false)]) == AfterRefusal(row, err)
  {
    OneClaimedReached(cfg, row);
    RefusedAt(cfg, row, err);
    if Incurable(err) {
      IncurablyRefused(cfg, row);
    } else {
      CurablyRefused(cfg, row, err);
    }
  }

  lemma RefusedAt(cfg: Config, row: OrderRow, err: ExchangeError)
    requires Usable(cfg, row) && row.mode.Live?
    ensures Exec(cfg, OneClaimed(row, Claimed), [Hydrate(0, NoReadFault), Refuse(0, err)])
      == OneClaimed(row, Finished(if Incurable(err) then PermanentReject else Retry))
  {
    var w := OneClaimed(row, Claimed);
    var s := HydrateTx(w.t, 0).value;
    ExecTwo(cfg, w, Hydrate(0, NoReadFault), Refuse(0, err));
    assert Step(cfg, w, Hydrate(0, NoReadFault)) == OneClaimed(row, Hydrated(s));
    RefusalExactly(cfg, OneClaimed(row, Hydrated(s)), 0, err);
  }

  lemma IncurablyRefused(cfg: Config, row: OrderRow)
    requires Usable(cfg, row) && row.mode.Live?
    ensures Exec(cfg, OneClaimed(row, Finished(PermanentReject)), [MarkCommand(0, false), RejectOrder(0, false)])
      == AfterRefusal(row, InsufficientBalance)
  {
    var w := OneClaimed(row, Finished(PermanentReject));
    var marked := OneClaimed(row, Rejecting).(t := w.t.(commands := [w.t.commands[0].(status := PermanentlyRejected)]));
    ExecTwo(cfg, w, MarkCommand(0, false), RejectOrder(0, false));
    assert Step(cfg, w, MarkCommand(0, false)) == marked;
    RejectStepExactly(cfg, marked, 0);
    assert marked.tasks - {0} == map[];
  }

  lemma CurablyRefused(cfg: Config, row: OrderRow, err: ExchangeError)
    requires Usable(cfg, row) && row.mode.Live? && !Incurable(err)
    ensures Exec(cfg, OneClaimed(row, Finished(Retry)), [MarkCommand(0, false), RejectOrder(0, false)])
      == AfterRefusal(row, err)
  {
    var w := OneClaimed(row, Finished(Retry));
    ExecTwo(cfg, w, MarkCommand(0, false), RejectOrder(0, false));
    assert row.(status := Pending) == row;
    assert w.tasks - {0} == map[];
    assert Step(cfg, w, MarkCommand(0, false)) == AfterRefusal(row, err);
  }
}
