/** The per-order guarantees of the outbox, over all runs with any number of
  workers and all faults. */
module Guarantees {
  import opened Types
  import opened OrderState
  import opened Positions
  import opened Ledger
  import opened Outbox
  import opened OutboxSafety
  import opened OutboxTheorems
  import opened AdapterContract
  import BinanceAdapter

  /** Exactly-once ledger: an order's filled quantity is the sum of its fill rows
    and never exceeds its quantity, and its trade ids are the ordinals 0..n-1
    without gap or repeat. */
  lemma ExactlyOnceLedger(cfg: Config, w: World, order: OrderId)
    requires Reached(cfg, w) && order in w.t.orders
    ensures var row, fills := w.t.orders[order], FillsOf(w.t.fills, order);
      && row.filled == SumQuantity(fills) && 0 <= row.filled <= row.quantity
      && (forall i :: 0 <= i < |fills| ==>
            fills[i].quantity > 0 && fills[i].tradeId == TradeId(order, row.mode, i))
      && |fills| <= row.quantity
  {
    ReachedOk(cfg, w);
    assert OrderOk(w.t, order);
    CountAtMostSum(FillsOf(w.t.fills, order));
  }

  ghost predicate BothInOrder(fills: seq<Fill>, first: Fill, second: Fill) {
    exists a, b :: 0 <= a < b < |fills| && fills[a] == first && fills[b] == second
  }

  lemma {:induction false} RowsInOrder(rows: seq<FillRow>, i: nat, j: nat)
    requires i < j < |rows| && rows[i].order == rows[j].order
    ensures BothInOrder(FillsOf(rows, rows[i].order), rows[i].fill, rows[j].fill)
  {
    var front := rows[..|rows| - 1];
    var order := rows[i].order;
    var fills := FillsOf(rows, order);
    if j < |rows| - 1 {
      RowsInOrder(front, i, j);
      var a, b :| 0 <= a < b < |FillsOf(front, order)|
        && FillsOf(front, order)[a] == rows[i].fill && FillsOf(front, order)[b] == rows[j].fill;
      assert fills[a] == rows[i].fill && fills[b] == rows[j].fill;
    } else {
      RowsOfOrder(front, i);
      var a :| 0 <= a < |FillsOf(front, order)| && FillsOf(front, order)[a] == rows[i].fill;
      assert fills[a] == rows[i].fill && fills[|fills| - 1] == rows[j].fill;
    }
  }

  /** Across all orders and accounts no trade id is ever recorded twice. */
  lemma TradeIdsNeverRepeat(cfg: Config, w: World, i: nat, j: nat)
    requires Reached(cfg, w) && i < j < |w.t.fills|
    ensures w.t.fills[i].fill.tradeId != w.t.fills[j].fill.tradeId
  {
    ReachedOk(cfg, w);
    assert FillRowOk(w.t.orders, w.t.fills[i]) && FillRowOk(w.t.orders, w.t.fills[j]);
    if w.t.fills[i].order == w.t.fills[j].order {
      assert OrderOk(w.t, w.t.fills[i].order);
      RowsInOrder(w.t.fills, i, j);
    }
  }

  /** No ABA: whenever the staleness test of a pass succeeds, the order's stored
    fills are the very fills the answer was computed from and the trade id it
    adds is unused. The duplicate-id escalation is therefore unreachable
    (`EscalatedExactly`). */
  lemma NoAba(cfg: Config, w: World, task: nat, s: ReconcileSnapshot, r: ReconcileResult,
              resp: BinanceAdapter.Response)
    requires Reached(cfg, w) && task in w.tasks && w.tasks[task].phase == Answered(s, r, resp)
    ensures InPhase(w, task) && s.order.orderId in w.t.orders
    ensures Fresh(w.t.orders[s.order.orderId], s) ==>
      && s.fills == FillsOf(w.t.fills, s.order.orderId)
      && forall i :: 0 <= i < |r.fillsToAdd| ==>
           !TradeIdTaken(w.t.fills, CommandOf(w, task).account, r.fillsToAdd[i].tradeId)
  {
    ReachedOk(cfg, w);
    assert TaskOk(w.t, w.tasks[task]);
    var c := CommandOf(w, task);
    if Fresh(w.t.orders[s.order.orderId], s) {
      FreshMeansSameFills(w.t, c, s);
      assert r.fillsToAdd != [] ==> OneFill(c.mode, s, r);
    }
  }

  /** The positions a pass reads: the stored ones, or any when it races with others. */
  function PositionsRead(cfg: Config, w: World, e: Event): seq<Position>
    requires e.Commit?
  {
    if cfg.serialPositions then w.t.positions else e.readPositions
  }

  /** Exactly which passes, of any number of workers, are escalated: those over an
    up-to-date snapshot, whose fill the tables would take, that report a status
    which is illegal from the locked one. */
  lemma EscalatedExactly(cfg: Config, w: World, e: Event, s: ReconcileSnapshot, r: ReconcileResult,
                         resp: BinanceAdapter.Response)
    requires Reached(cfg, w) && e.Commit? && !e.commitFault.SilentAbort?
    requires e.task in w.tasks && w.tasks[e.task].phase == Answered(s, r, resp)
    ensures InPhase(w, e.task) && s.order.orderId in w.t.orders && e.task in Step(cfg, w, e).tasks
    ensures var row := w.t.orders[s.order.orderId];
      Step(cfg, w, e).tasks[e.task].phase == Finished(NeedsReview) <==>
        && Fresh(row, s) && r.newStatus.Some? && !Legal(row.status, r.newStatus.value)
        && (r.fillsToAdd != [] ==> r.fillsToAdd[0].price > 0)
        && ApplyDeltas(cfg.schema, PositionsRead(cfg, w, e), CommandOf(w, e.task).account, r.positionsDelta,
                       FirstPrice(r.fillsToAdd)).Some?
  {
    ReachedOk(cfg, w);
    assert TaskOk(w.t, w.tasks[e.task]);
    var t1 := w.t.(positions := PositionsRead(cfg, w, e));
    PositionsIrrelevant(w.t, PositionsRead(cfg, w, e));
    assert cfg.serialPositions ==> t1 == w.t;
    PersistExactly(cfg.schema, t1, CommandOf(w, e.task), s, r);
  }

  // ----- lifecycle -----

  /** The pass a commit step ends, if it is one. */
  lemma CommitCases(cfg: Config, w: World, e: Event, s: ReconcileSnapshot, r: ReconcileResult,
                    resp: BinanceAdapter.Response)
    requires Inv(w) && e.Commit? && InPhase(w, e.task) && w.tasks[e.task].phase == Answered(s, r, resp)
    ensures var c := CommandOf(w, e.task);
      && SnapshotOk(w.t, c, s) && AnswerOk(c, s, r)
      && var t' := Step(cfg, w, e).t;
         t' == w.t
         || (&& Fresh(w.t.orders[c.key.order], s)
             && s.fills == FillsOf(w.t.fills, c.key.order)
             && (r.fillsToAdd != [] ==> r.fillsToAdd[0].price > 0)
             && t' == PersistedTables(w.t, c.account, s, r, t'.positions)
             && (r.newStatus.Some? ==> Legal(s.order.status, r.newStatus.value)))
  {
    assert TaskOk(w.t, w.tasks[e.task]);
    var c := CommandOf(w, e.task);
    PersistAmongWorkersCases(cfg, w.t, c, s, r, e.readPositions, e.leftPositions);
  }

  /** A step changes the status of an order only by a legal transition from the
    status it holds at that moment. */
  lemma StatusWritesAreLegal(cfg: Config, w: World, e: Event, order: OrderId)
    requires Reached(cfg, w) && order in w.t.orders
    ensures var w' := Step(cfg, w, e);
      && order in w'.t.orders
      && (w'.t.orders[order].status == w.t.orders[order].status
          || Legal(w.t.orders[order].status, w'.t.orders[order].status))
  {
    ReachedOk(cfg, w);
    StepKeeps(cfg, w, e);
    if e.Commit? && InPhase(w, e.task) && w.tasks[e.task].phase.Answered? {
      var phase := w.tasks[e.task].phase;
      CommitCases(cfg, w, e, phase.s, phase.r, phase.resp);
    }
  }

  /** Over any continuation of any run: identity is kept, the status follows a
    path of legal transitions, fills are only appended, and a terminal order
    never again changes status, filled quantity or fills. */
  lemma Lifecycle(cfg: Config, w: World, more: seq<Event>, order: OrderId)
    requires Reached(cfg, w) && order in w.t.orders
    ensures order in Exec(cfg, w, more).t.orders
    ensures var t' := Exec(cfg, w, more).t;
      var row, row' := w.t.orders[order], t'.orders[order];
      && SameIdentity(row, row')
      && (exists via :: Path(row.status, via, row'.status))
      && (row'.status.Pending? ==> row.status.Pending?)
      && (row'.status.Submitted? ==> row.status.Pending? || row.status.Submitted?)
      && FillsOf(w.t.fills, order) <= FillsOf(t'.fills, order)
      && (row.status.IsTerminal() ==> row' == row && FillsOf(t'.fills, order) == FillsOf(w.t.fills, order))
  {
    ReachedOk(cfg, w);
    ExecKeeps(cfg, w, more);
    var t' := Exec(cfg, w, more).t;
    assert OrderEvolves(w.t, t', order);
    ReachesIsClosure(w.t.orders[order].status, t'.orders[order].status);
  }

  // ----- follow-ups -----

  lemma NewOrdersArePlaced(cfg: Config, w: World, e: Event, order: OrderId)
    requires Inv(w) && order in Step(cfg, w, e).t.orders && order !in w.t.orders
    ensures e.PlaceOrder? && Step(cfg, w, e).t.orders[order] == e.row
  {
    if e.Commit? && InPhase(w, e.task) && w.tasks[e.task].phase.Answered? {
      var phase := w.tasks[e.task].phase;
      CommitCases(cfg, w, e, phase.s, phase.r, phase.resp);
    }
  }

  /** The exception, exactly: an order leaves Pending without a follow-up in that
    same step only through the permanent-rejection path, and only to Rejected. */
  lemma OnlyRejectionSkipsFollowUp(cfg: Config, w: World, e: Event, order: OrderId)
    requires Reached(cfg, w) && order in w.t.orders && w.t.orders[order].status.Pending?
    requires var t' := Step(cfg, w, e).t;
      && order in t'.orders && !t'.orders[order].status.Pending?
      && !HasKey(t'.commands, InitialKey(order)) && !HasKey(t'.commands, PostCancelKey(order))
    ensures e.RejectOrder? && Step(cfg, w, e).t.orders[order].status.Rejected?
  {
    ReachedOk(cfg, w);
    StepKeeps(cfg, w, e);
    assert OrderOk(Step(cfg, w, e).t, order);
    if !e.RejectOrder? {
      RejectionNeedsReject(cfg, w, e, order);
    }
  }

  /** No other step moves a Pending order to Rejected: reconcile passes do not
    touch Pending orders. */
  lemma RejectionNeedsReject(cfg: Config, w: World, e: Event, order: OrderId)
    requires Inv(w) && order in w.t.orders && w.t.orders[order].status.Pending? && !e.RejectOrder?
    ensures order in Step(cfg, w, e).t.orders && !Step(cfg, w, e).t.orders[order].status.Rejected?
  {
    if e.Commit? && InPhase(w, e.task) && w.tasks[e.task].phase.Answered? {
      var phase := w.tasks[e.task].phase;
      CommitCases(cfg, w, e, phase.s, phase.r, phase.resp);
    }
  }

  /** One step took the order straight from Pending to Rejected after a permanent rejection. */
  ghost predicate RejectedStraight(cfg: Config, run: seq<Event>, order: OrderId)
    decreases |run|
  {
    run != [] &&
    var before, e := Exec(cfg, INITIAL, run[..|run| - 1]), run[|run| - 1];
    || RejectedStraight(cfg, run[..|run| - 1], order)
    || (&& e.RejectOrder? && order in before.t.orders && before.t.orders[order].status.Pending?
        && order in Step(cfg, before, e).t.orders && Step(cfg, before, e).t.orders[order].status.Rejected?)
  }

  predicate HasFollowUp(commands: seq<Command>, order: OrderId) {
    HasKey(commands, InitialKey(order)) || HasKey(commands, PostCancelKey(order))
  }

  lemma KeysKept(a: seq<Command>, b: seq<Command>, key: Key)
    requires CommandsEvolve(a, b) && HasKey(a, key)
    ensures HasKey(b, key)
  {
    var i :| 0 <= i < |a| && a[i].key == key;
    assert b[i].key == key;
  }

  /** Over whole runs: an order that ever left Pending has a reconcile row from
    then on, unless its run rejected it straight from Pending. */
  lemma {:induction false} FollowUpOrRejectedStraight(cfg: Config, run: seq<Event>, order: OrderId)
    requires var t := Exec(cfg, INITIAL, run).t; order in t.orders && !t.orders[order].status.Pending?
    ensures HasFollowUp(Exec(cfg, INITIAL, run).t.commands, order) || RejectedStraight(cfg, run, order)
    decreases |run|
  {
    if run != [] {
      var front, e := run[..|run| - 1], run[|run| - 1];
      var before := Exec(cfg, INITIAL, front);
      ExecKeeps(cfg, INITIAL, front);
      StepKeeps(cfg, before, e);
      if order in before.t.orders && before.t.orders[order].status.Pending? {
        assert Reached(cfg, before);
        if !HasFollowUp(Exec(cfg, INITIAL, run).t.commands, order) {
          OnlyRejectionSkipsFollowUp(cfg, before, e, order);
        }
      } else if order in before.t.orders {
        FollowUpOrRejectedStraight(cfg, front, order);
        if HasKey(before.t.commands, InitialKey(order)) {
          KeysKept(before.t.commands, Step(cfg, before, e).t.commands, InitialKey(order));
        } else if HasKey(before.t.commands, PostCancelKey(order)) {
          KeysKept(before.t.commands, Step(cfg, before, e).t.commands, PostCancelKey(order));
        }
      } else {
        NewOrdersArePlaced(cfg, before, e, order);
      }
    }
  }

  /** However often submit and cancel are redelivered: idempotency keys never
    repeat, so there is at most one initial and one post-cancel reconcile. A
    Pending order has none; one that left Pending has one, unless its run rejected
    it straight from Pending. */
  lemma FollowUps(cfg: Config, run: seq<Event>, order: OrderId)
    requires order in Exec(cfg, INITIAL, run).t.orders
    ensures var t := Exec(cfg, INITIAL, run).t;
      && (forall i, j :: 0 <= i < j < |t.commands| ==> t.commands[i].key != t.commands[j].key)
      && HasKey(t.commands, SubmitKey(order))
      && (if t.orders[order].status.Pending? then !HasFollowUp(t.commands, order)
          else HasFollowUp(t.commands, order) || RejectedStraight(cfg, run, order))
  {
    ExecKeeps(cfg, INITIAL, run);
    assert OrderOk(Exec(cfg, INITIAL, run).t, order);
    if !Exec(cfg, INITIAL, run).t.orders[order].status.Pending? {
      FollowUpOrRejectedStraight(cfg, run, order);
    }
  }

  // ----- paper orders -----

  /** Status and quantity of a paper order agree: it is Filled exactly when its
    whole quantity is filled, by one fill, and otherwise nothing is; it is never
    partially filled or rejected; every limit fill is at the limit or better. */
  lemma PaperAgreement(cfg: Config, w: World, order: OrderId)
    requires Reached(cfg, w) && order in w.t.orders && w.t.orders[order].mode.Paper?
    ensures var row, fills := w.t.orders[order], FillsOf(w.t.fills, order);
      && (row.status.Filled? <==> row.filled == row.quantity)
      && (row.status.Filled? ==> |fills| == 1 && fills[0].quantity == row.quantity)
      && (!row.status.Filled? ==> row.filled == 0 && fills == [])
      && !row.status.PartiallyFilled? && !row.status.Rejected?
      && forall i :: 0 <= i < |fills| && row.orderType.Limit? ==>
           row.price.Some? && (if row.side.Buy? then fills[i].price <= row.price.value
                               else fills[i].price >= row.price.value)
  {
    ReachedOk(cfg, w);
    assert OrderOk(w.t, order);
    var fills := FillsOf(w.t.fills, order);
    if fills != [] {
      assert fills == [] + [fills[0]];
      SumQuantityAppend([], fills[0]);
    }
  }

  /** No commit of a paper pass, of any number of workers, ends in an escalation,
    for an illegal transition or anything else: it is done or retried. */
  lemma PaperNeverEscalates(cfg: Config, w: World, e: Event)
    requires Reached(cfg, w) && e.Commit? && InPhase(w, e.task)
    requires w.tasks[e.task].phase.Answered? && CommandOf(w, e.task).mode.Paper?
    ensures e.task in Step(cfg, w, e).tasks
    ensures var phase := Step(cfg, w, e).tasks[e.task].phase;
      || phase == Finished(Done) || phase == Finished(Retry)
      || (e.commitFault.SilentAbort? && phase == w.tasks[e.task].phase)
  {
    ReachedOk(cfg, w);
    var phase, c := w.tasks[e.task].phase, CommandOf(w, e.task);
    assert TaskOk(w.t, w.tasks[e.task]) && CommandOk(w.t.orders, c);
    PaperPassLegal(w.t, c, phase.s, phase.r);
    PersistAmongWorkersCases(cfg, w.t, c, phase.s, phase.r, e.readPositions, e.leftPositions);
  }

  lemma PaperPassLegal(t: Tables, c: Command, s: ReconcileSnapshot, r: ReconcileResult)
    requires TablesOk(t) && CommandOk(t.orders, c) && c.mode.Paper? && SnapshotOk(t, c, s) && AnswerOk(c, s, r)
    ensures r.newStatus.Some? ==> Legal(s.order.status, r.newStatus.value)
  {
  }
}
