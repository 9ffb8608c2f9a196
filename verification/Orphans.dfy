/** Orders that are really left behind, each in a run from the empty database: by
  the two faults that `Quiescence` watches, and by an exchange that cancels. */
module Orphans {
  import opened Types
  import BinanceAdapter
  import OutboxSafety
  import opened Ledger
  import opened Outbox

  ghost predicate Orphaned(t: Tables, order: OrderId) {
    && order in t.orders && !t.orders[order].status.IsTerminal()
    && forall i :: 0 <= i < |t.commands| ==> !Unfinished(t.commands[i])
  }

  /** The world after one order was placed and its submit command claimed. */
  function OneClaimed(row: OrderRow, phase: Phase): World {
    World(Tables(map[0 := row], [], [Command(row.account, SubmitKey(0), row.mode, Leased, 0, LEASE_SECONDS)], []),
          map[0 := Task(0, phase)], 0, map[])
  }

  lemma OneClaimedReached(cfg: Config, row: OrderRow)
    requires Placeable(row)
    ensures Exec(cfg, INITIAL, [PlaceOrder(0, row), Claim(0, 0)]) == OneClaimed(row, Claimed)
  {
    ExecTwo(cfg, INITIAL, PlaceOrder(0, row), Claim(0, 0));
    var placed := Step(cfg, INITIAL, PlaceOrder(0, row));
    assert placed.t.commands == [Command(row.account, SubmitKey(0), row.mode, Queued, 0, 0)];
    assert Step(cfg, placed, Claim(0, 0)).t == OneClaimed(row, Claimed).t;
  }

  /** A row lock that fails on the only dispatch of a fresh submit leaves a Pending
    order without any unfinished command. */
  lemma LockErrorOrphans(cfg: Config, row: OrderRow)
    requires cfg.paper && Placeable(row) && row.mode.Paper?
    ensures var claimed := Exec(cfg, INITIAL, [PlaceOrder(0, row), Claim(0, 0)]);
      var t := Exec(cfg, claimed, [Hydrate(0, LockError), MarkCommand(0, false)]).t;
      Orphaned(t, 0) && t.orders[0].status.Pending?
  {
    OneClaimedReached(cfg, row);
    var w := OneClaimed(row, Claimed);
    ExecTwo(cfg, w, Hydrate(0, LockError), MarkCommand(0, false));
    assert Step(cfg, w, Hydrate(0, LockError)) == OneClaimed(row, Finished(NeedsReview));
  }

  // ----- a post-cancel reconcile whose abort goes unnoticed -----

  /** One worker dispatches command `i` while the book has no quote and the
    exchange, if it is asked, answers `resp`. */
  function DispatchEvents(i: nat, resp: BinanceAdapter.Response, fault: CommitFault): seq<Event> {
    [Claim(i, 0), Hydrate(0, NoReadFault)] + [Respond(0, None, resp), Commit(0, fault, [], [])]
    + [MarkCommand(0, false)]
  }

  /** What the dispatch finds and what the adapter answers. */
  function Leasing(t: Tables, i: nat): Tables
    requires i < |t.commands|
  {
    t.(commands := t.commands[i := Lease(t.commands[i], 0)])
  }

  function AnswerTo(t: Tables, i: nat, resp: BinanceAdapter.Response): Phase
    requires i < |t.commands| && t.commands[i].key.order in t.orders
  {
    RespondPhase(t.commands[i], HydrateTx(t, t.commands[i].key.order).value, None, resp)
  }

  /** A queued command whose adapter call succeeds. */
  predicate Dispatchable(cfg: Config, t: Tables, i: nat, resp: BinanceAdapter.Response) {
    && i < |t.commands| && t.commands[i].key.order in t.orders
    && Resolves(cfg, t.commands[i].mode) && t.commands[i].status.Queued?
    && var phase := AnswerTo(Leasing(t, i), i, resp);
       phase.Accepted? || phase.Answered?
  }

  /** The tables such a dispatch leaves, and its outcome. */
  function AfterCommit(cfg: Config, t: Tables, i: nat, resp: BinanceAdapter.Response, fault: CommitFault)
    : (Tables, DispatchOutcome)
    requires Dispatchable(cfg, t, i, resp)
  {
    var leased := Leasing(t, i);
    UnderFault(leased, SecondTx(cfg, leased, leased.commands[i], AnswerTo(leased, i, resp), [], []), fault)
  }

  function Alone(t: Tables, i: nat, phase: Phase): World {
    World(t, map[0 := Task(i, phase)], 0, map[])
  }

  function Idle(t: Tables): World {
    World(t, map[], 0, map[])
  }

  lemma ClaimAndHydrate(cfg: Config, t: Tables, i: nat, resp: BinanceAdapter.Response)
    requires Dispatchable(cfg, t, i, resp)
    ensures Exec(cfg, Idle(t), [Claim(i, 0), Hydrate(0, NoReadFault)])
      == Alone(Leasing(t, i), i, Hydrated(HydrateTx(Leasing(t, i), t.commands[i].key.order).value))
  {
    ExecTwo(cfg, Idle(t), Claim(i, 0), Hydrate(0, NoReadFault));
    ClaimStep(cfg, t, i);
    HydrateStep(cfg, Leasing(t, i), i);
  }

  lemma ClaimStep(cfg: Config, t: Tables, i: nat)
    requires i < |t.commands| && t.commands[i].status.Queued?
    ensures Step(cfg, Idle(t), Claim(i, 0)) == Alone(Leasing(t, i), i, Claimed)
  {
  }

  lemma HydrateStep(cfg: Config, t: Tables, i: nat)
    requires i < |t.commands| && t.commands[i].key.order in t.orders && Resolves(cfg, t.commands[i].mode)
    ensures Step(cfg, Alone(t, i, Claimed), Hydrate(0, NoReadFault))
      == Alone(t, i, Hydrated(HydrateTx(t, t.commands[i].key.order).value))
  {
  }

  lemma RespondAndCommit(cfg: Config, t: Tables, i: nat, resp: BinanceAdapter.Response, fault: CommitFault)
    requires Dispatchable(cfg, t, i, resp)
    requires fault.SilentAbort? ==> IgnoresAnError(AnswerTo(Leasing(t, i), i, resp))
    ensures var (t1, out) := AfterCommit(cfg, t, i, resp, fault);
      Exec(cfg, Alone(Leasing(t, i), i, Hydrated(HydrateTx(Leasing(t, i), t.commands[i].key.order).value)),
           [Respond(0, None, resp), Commit(0, fault, [], [])])
      == Alone(t1, i, Finished(out))
  {
    var leased := Leasing(t, i);
    var w := Alone(leased, i, Hydrated(HydrateTx(leased, t.commands[i].key.order).value));
    ExecTwo(cfg, w, Respond(0, None, resp), Commit(0, fault, [], []));
    assert Step(cfg, w, Respond(0, None, resp)) == Alone(leased, i, AnswerTo(leased, i, resp));
  }

  lemma MarkStep(cfg: Config, t: Tables, i: nat, out: DispatchOutcome)
    requires i < |t.commands| && !out.PermanentReject?
    ensures Step(cfg, Alone(t, i, Finished(out)), MarkCommand(0, false))
      == Idle(t.(commands := t.commands[i := Mark(t.commands[i], out)]))
  {
    assert map[0 := Task(i, Finished(out))] - {0} == map[];
  }

  lemma DispatchIsRun(cfg: Config, t: Tables, i: nat, resp: BinanceAdapter.Response, fault: CommitFault)
    requires Dispatchable(cfg, t, i, resp)
    requires fault.SilentAbort? ==> IgnoresAnError(AnswerTo(Leasing(t, i), i, resp))
    requires var (t1, out) := AfterCommit(cfg, t, i, resp, fault);
      i < |t1.commands| && !out.PermanentReject?
    ensures var (t1, out) := AfterCommit(cfg, t, i, resp, fault);
      Exec(cfg, Idle(t), DispatchEvents(i, resp, fault))
      == Idle(t1.(commands := t1.commands[i := Mark(t1.commands[i], out)]))
  {
    var first := [Claim(i, 0), Hydrate(0, NoReadFault)];
    var second := [Respond(0, None, resp), Commit(0, fault, [], [])];
    ClaimAndHydrate(cfg, t, i, resp);
    RespondAndCommit(cfg, t, i, resp, fault);
    ExecAppend(cfg, Idle(t), first, second);
    ExecThen(cfg, Idle(t), first + second, MarkCommand(0, false));
    var (t1, out) := AfterCommit(cfg, t, i, resp, fault);
    MarkStep(cfg, t1, i, out);
  }

  function Queue(row: OrderRow, key: Key): Command {
    Command(row.account, key, row.mode, Queued, 0, 0)
  }

  function Handled(row: OrderRow, key: Key): Command {
    Command(row.account, key, row.mode, Delivered, 0, LEASE_SECONDS)
  }

  /** One order at `status`, without fills, and its commands. */
  function One(row: OrderRow, status: OrderStatus, commands: seq<Command>): Tables {
    Tables(map[0 := row.(status := status)], [], commands, [])
  }

  predicate Usable(cfg: Config, row: OrderRow) {
    Placeable(row) && Resolves(cfg, row.mode)
  }

  function Placed(row: OrderRow): Tables { One(row, Pending, [Queue(row, SubmitKey(0))]) }

  function Sent(row: OrderRow): Tables { One(row, Submitted, [Handled(row, SubmitKey(0)), Queue(row, InitialKey(0))]) }

  function Resting(row: OrderRow): Tables {
    One(row, Submitted, [Handled(row, SubmitKey(0)), Handled(row, InitialKey(0))])
  }

  function CancelAsked(row: OrderRow): Tables {
    One(row, Submitted, [Handled(row, SubmitKey(0)), Handled(row, InitialKey(0)), Queue(row, CancelKey(0, 0))])
  }

  function CancelSent(row: OrderRow): Tables {
    One(row, CancelRequested,
        [Handled(row, SubmitKey(0)), Handled(row, InitialKey(0)), Handled(row, CancelKey(0, 0)),
         Queue(row, PostCancelKey(0))])
  }

  function Stuck(row: OrderRow): Tables {
    One(row, CancelRequested,
        [Handled(row, SubmitKey(0)), Handled(row, InitialKey(0)), Handled(row, CancelKey(0, 0)),
         Handled(row, PostCancelKey(0))])
  }

  lemma Placing(cfg: Config, row: OrderRow)
    requires Placeable(row)
    ensures Exec(cfg, INITIAL, [PlaceOrder(0, row)]) == Idle(Placed(row))
  {
    ExecOne(cfg, INITIAL, PlaceOrder(0, row));
    assert row.(status := Pending) == row;
    assert Step(cfg, INITIAL, PlaceOrder(0, row)).t.commands == Placed(row).commands;
  }

  lemma Submitting(cfg: Config, row: OrderRow)
    requires Usable(cfg, row)
    ensures Exec(cfg, Idle(Placed(row)), DispatchEvents(0, NO_RESPONSE, NoCommitFault)) == Idle(Sent(row))
  {
    var (t1, out) := AfterCommit(cfg, Placed(row), 0, NO_RESPONSE, NoCommitFault);
    assert t1.commands == [Lease(Queue(row, SubmitKey(0)), 0), Queue(row, InitialKey(0))] && out == Done;
    DispatchIsRun(cfg, Placed(row), 0, NO_RESPONSE, NoCommitFault);
  }

  lemma NothingToReconcile(cfg: Config, row: OrderRow)
    requires cfg.paper && Placeable(row) && row.mode.Paper?
    ensures Exec(cfg, Idle(Sent(row)), DispatchEvents(1, NO_RESPONSE, NoCommitFault)) == Idle(Resting(row))
  {
    var leased := Leasing(Sent(row), 1);
    assert AnswerTo(leased, 1, NO_RESPONSE).r == NO_CHANGE;
    var (t1, out) := AfterCommit(cfg, Sent(row), 1, NO_RESPONSE, NoCommitFault);
    assert t1 == leased && out == Done;
    DispatchIsRun(cfg, Sent(row), 1, NO_RESPONSE, NoCommitFault);
  }

  lemma Cancelling(cfg: Config, row: OrderRow)
    requires cfg.paper && Placeable(row) && row.mode.Paper?
    ensures Exec(cfg, Idle(Resting(row)), [RequestCancel(0, 0)]) == Idle(CancelAsked(row))
    ensures Exec(cfg, Idle(CancelAsked(row)), DispatchEvents(2, NO_RESPONSE, NoCommitFault)) == Idle(CancelSent(row))
  {
    ExecOne(cfg, Idle(Resting(row)), RequestCancel(0, 0));
    assert InsertCommand(Resting(row).commands, row.account, CancelKey(0, 0), row.mode) == CancelAsked(row).commands;
    var (t1, out) := AfterCommit(cfg, CancelAsked(row), 2, NO_RESPONSE, NoCommitFault);
    assert t1.commands == Leasing(CancelAsked(row), 2).commands + [Queue(row, PostCancelKey(0))] && out == Done;
    DispatchIsRun(cfg, CancelAsked(row), 2, NO_RESPONSE, NoCommitFault);
  }

  lemma ConfirmingUnnoticed(cfg: Config, row: OrderRow)
    requires cfg.paper && Placeable(row) && row.mode.Paper?
    ensures Exec(cfg, Idle(CancelSent(row)), DispatchEvents(3, NO_RESPONSE, SilentAbort)) == Idle(Stuck(row))
  {
    var leased := Leasing(CancelSent(row), 3);
    assert AnswerTo(leased, 3, NO_RESPONSE).r == ReconcileResult(Some(Cancelled), [], []);
    var tx := SecondTx(cfg, leased, leased.commands[3], AnswerTo(leased, 3, NO_RESPONSE), [], []);
    assert tx.Committed?;
    assert AfterCommit(cfg, CancelSent(row), 3, NO_RESPONSE, SilentAbort) == (leased, Done);
    DispatchIsRun(cfg, CancelSent(row), 3, NO_RESPONSE, SilentAbort);
  }

  /** When the event of a confirmed cancel cannot be inserted, the transaction
    is lost but the reconcile is delivered: the order stays CancelRequested with
    only delivered commands. */
  lemma SilentAbortOrphans(cfg: Config, row: OrderRow)
    requires cfg.paper && Placeable(row) && row.mode.Paper?
    ensures var placed := Exec(cfg, INITIAL, [PlaceOrder(0, row)]);
      var submit := DispatchEvents(0, NO_RESPONSE, NoCommitFault);
      var reconcile := DispatchEvents(1, NO_RESPONSE, NoCommitFault);
      var open := Exec(cfg, placed, submit + reconcile);
      var cancelling := Exec(cfg, open, [RequestCancel(0, 0)] + DispatchEvents(2, NO_RESPONSE, NoCommitFault));
      var end := Exec(cfg, cancelling, DispatchEvents(3, NO_RESPONSE, SilentAbort));
      && Orphaned(end.t, 0) && end.t.orders[0].status.CancelRequested? && end.tasks == map[]
      && forall i :: 0 <= i < |end.t.commands| ==> end.t.commands[i].status.Delivered?
  {
    Placing(cfg, row);
    var placed := Idle(Placed(row));
    Submitting(cfg, row);
    NothingToReconcile(cfg, row);
    ExecAppend(cfg, placed, DispatchEvents(0, NO_RESPONSE, NoCommitFault),
               DispatchEvents(1, NO_RESPONSE, NoCommitFault));
    Cancelling(cfg, row);
    ExecAppend(cfg, Idle(Resting(row)), [RequestCancel(0, 0)], DispatchEvents(2, NO_RESPONSE, NoCommitFault));
    ConfirmingUnnoticed(cfg, row);
  }

  // ----- an order that the exchange itself cancels -----

  /** Of ten units five are executed, then the exchange cancels the order. */
  const FIVE_THEN_CANCELED := BinanceAdapter.Response(Some("CANCELED"), Some(5), Some(50), Some(10))

  function Escalated(row: OrderRow): Tables {
    One(row, Submitted, [Handled(row, SubmitKey(0)), Handled(row, InitialKey(0)).(status := ReconciliationRequired)])
  }

  lemma CancelIsEscalated(cfg: Config, row: OrderRow)
    requires Usable(cfg, row) && row.mode.Live? && row.quantity == 10
    ensures Exec(cfg, Idle(Sent(row)), DispatchEvents(1, FIVE_THEN_CANCELED, NoCommitFault)) == Idle(Escalated(row))
  {
    var leased := Leasing(Sent(row), 1);
    CancelAnswer(row);
    assert AfterCommit(cfg, Sent(row), 1, FIVE_THEN_CANCELED, NoCommitFault) == (leased, NeedsReview) by {
      CancelAborts(cfg, row);
    }
    DispatchIsRun(cfg, Sent(row), 1, FIVE_THEN_CANCELED, NoCommitFault);
  }

  function CancelResult(row: OrderRow): ReconcileResult {
    ReconcileResult(Some(Cancelled), [Fill(TradeId(0, Live, 0), 5, 10)],
                    [PositionDelta(row.symbol, Signed(row.side, 5))])
  }

  lemma CancelAnswer(row: OrderRow)
    requires row.mode.Live?
    ensures var s := HydrateTx(Leasing(Sent(row), 1), 0).value;
      AnswerTo(Leasing(Sent(row), 1), 1, FIVE_THEN_CANCELED) == Answered(s, CancelResult(row), FIVE_THEN_CANCELED)
  {
    BinanceAdapter.MapStatusInvertsWords("CANCELED", Cancelled);
  }

  /** The answer is fine and its fill would be taken; only the status is illegal. */
  lemma CancelAborts(cfg: Config, row: OrderRow)
    requires row.mode.Live? && row.quantity == 10 && row.filled == 0
    ensures var leased := Leasing(Sent(row), 1);
      SecondTx(cfg, leased, leased.commands[1], AnswerTo(leased, 1, FIVE_THEN_CANCELED), [], []) == Aborted(NeedsReview)
  {
    CancelAnswer(row);
    var leased := Leasing(Sent(row), 1);
    var s, r := HydrateTx(leased, 0).value, CancelResult(row);
    assert leased.(positions := []) == leased;
    OutboxSafety.InsertContractFills(leased.fills, row.account, 0, r.fillsToAdd);
    assert r.positionsDelta[..0] == [];
    assert ApplyDeltas(cfg.schema, [], row.account, [], 10) == Some([]);
    assert PersistTx(cfg.schema, leased, row.account, s, r) == Aborted(NeedsReview);
  }

  /** What was executed before the exchange cancelled or expired the order is
    escalated and never recorded: the order stays Submitted with nothing filled
    and no unfinished command. */
  lemma ExchangeCancelOrphans(cfg: Config, row: OrderRow)
    requires Usable(cfg, row) && row.mode.Live? && row.quantity == 10
    ensures var placed := Exec(cfg, INITIAL, [PlaceOrder(0, row)]);
      var sent := Exec(cfg, placed, DispatchEvents(0, NO_RESPONSE, NoCommitFault));
      var end := Exec(cfg, sent, DispatchEvents(1, FIVE_THEN_CANCELED, NoCommitFault));
      && Orphaned(end.t, 0) && end.t.orders[0].status.Submitted? && end.t.orders[0].filled == 0
      && end.t.fills == [] && end.tasks == map[]
  {
    Placing(cfg, row);
    Submitting(cfg, row);
    CancelIsEscalated(cfg, row);
  }
}
