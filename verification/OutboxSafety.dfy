/** The invariant of the outbox protocol and its preservation by every step. */
module OutboxSafety {
  import opened Types
  import opened OrderState
  import opened Positions
  import opened Ledger
  import opened Outbox
  import opened AdapterContract
  import PaperAdapter

  // ----- what holds of the tables -----

  ghost predicate FillsOk(order: OrderId, venue: ExchangeMode, fills: seq<Fill>) {
    forall i :: 0 <= i < |fills| ==>
      fills[i].quantity > 0 && fills[i].price > 0 && fills[i].tradeId == TradeId(order, venue, i)
  }

  /** The order row agrees with its fill rows, which carry the ordinals 0, 1, ..., n-1. */
  ghost predicate LedgerOk(order: OrderId, row: OrderRow, fills: seq<Fill>) {
    && row.quantity > 0
    && row.filled == SumQuantity(fills) && 0 <= row.filled <= row.quantity
    && FillsOk(order, row.mode, fills)
  }

  /** Which commands an order has had enqueued. */
  datatype Enqueued = Enqueued(submit: bool, initial: bool, postCancel: bool)

  function EnqueuedFor(commands: seq<Command>, order: OrderId): Enqueued {
    Enqueued(HasKey(commands, SubmitKey(order)), HasKey(commands, InitialKey(order)),
             HasKey(commands, PostCancelKey(order)))
  }

  ghost predicate FollowUpsOk(status: OrderStatus, e: Enqueued) {
    && e.submit
    && (e.initial || e.postCancel ==> !status.Pending?)
    && (!status.Pending? && !status.Rejected? ==> e.initial || e.postCancel)
    && (e.postCancel ==> !status.Submitted?)
  }

  /** A paper order is filled in one piece or not at all. */
  ghost predicate PaperShape(status: OrderStatus, quantity: int, filled: int) {
    && !status.PartiallyFilled? && !status.Rejected?
    && filled == (if status.Filled? then quantity else 0)
  }

  ghost predicate PaperOk(row: OrderRow, fills: seq<Fill>, e: Enqueued) {
    row.mode.Paper? ==>
      && PaperShape(row.status, row.quantity, row.filled)
      && (row.status.CancelRequested? ==> e.postCancel)
      && |fills| <= 1 && (fills != [] ==> row.status.Filled?)
      && forall i :: 0 <= i < |fills| ==>
           PaperAdapter.WithinLimit(row.orderType, row.side, row.price, fills[i].price)
  }

  ghost predicate RowOk(order: OrderId, row: OrderRow, fills: seq<Fill>, e: Enqueued) {
    LedgerOk(order, row, fills) && FollowUpsOk(row.status, e) && PaperOk(row, fills, e)
  }

  ghost predicate OrderOk(t: Tables, order: OrderId)
    requires order in t.orders
  {
    RowOk(order, t.orders[order], FillsOf(t.fills, order), EnqueuedFor(t.commands, order))
  }

  ghost predicate FillRowOk(orders: map<OrderId, OrderRow>, row: FillRow) {
    && row.order in orders
    && row.account == orders[row.order].account
    && row.fill.tradeId.order == row.order
  }

  ghost predicate FillRowsOk(t: Tables) {
    forall i {:trigger FillRowOk(t.orders, t.fills[i])} :: 0 <= i < |t.fills| ==> FillRowOk(t.orders, t.fills[i])
  }

  ghost predicate CommandOk(orders: map<OrderId, OrderRow>, c: Command) {
    && c.key.order in orders
    && c.account == orders[c.key.order].account
    && c.mode == orders[c.key.order].mode
  }

  ghost predicate UniqueKeys(commands: seq<Command>) {
    forall i, j :: 0 <= i < j < |commands| ==> commands[i].key != commands[j].key
  }

  ghost predicate CommandsOk(t: Tables) {
    && (forall i {:trigger CommandOk(t.orders, t.commands[i])} ::
          0 <= i < |t.commands| ==> CommandOk(t.orders, t.commands[i]))
    && UniqueKeys(t.commands)
  }

  ghost predicate TablesOk(t: Tables) {
    && FillRowsOk(t)
    && CommandsOk(t)
    && forall order {:trigger OrderOk(t, order)} :: order in t.orders ==> OrderOk(t, order)
  }

  // ----- how tables may change -----

  predicate SameIdentity(a: OrderRow, b: OrderRow) {
    a == b.(status := a.status, filled := a.filled)
  }

  /** Rows keep their identity, fills are only appended, statuses move along the
    lifecycle, and a terminal order is frozen. */
  ghost predicate RowEvolves(row: OrderRow, fills: seq<Fill>, row': OrderRow, fills': seq<Fill>) {
    && SameIdentity(row, row')
    && Reaches(row.status, row'.status)
    && fills <= fills'
    && (row.status.IsTerminal() ==> row' == row && fills' == fills)
  }

  ghost predicate OrderEvolves(t: Tables, t': Tables, order: OrderId)
    requires order in t.orders && order in t'.orders
  {
    RowEvolves(t.orders[order], FillsOf(t.fills, order), t'.orders[order], FillsOf(t'.fills, order))
  }

  ghost predicate CommandsEvolve(a: seq<Command>, b: seq<Command>) {
    && |a| <= |b|
    && forall i :: 0 <= i < |a| ==> b[i].key == a[i].key && b[i].account == a[i].account && b[i].mode == a[i].mode
  }

  ghost predicate Evolves(t: Tables, t': Tables) {
    && CommandsEvolve(t.commands, t'.commands)
    && t.orders.Keys <= t'.orders.Keys
    && forall order {:trigger OrderEvolves(t, t', order)} :: order in t.orders ==> OrderEvolves(t, t', order)
  }

  lemma RowEvolvesTransitive(row1: OrderRow, fills1: seq<Fill>, row2: OrderRow, fills2: seq<Fill>,
                             row3: OrderRow, fills3: seq<Fill>)
    requires RowEvolves(row1, fills1, row2, fills2) && RowEvolves(row2, fills2, row3, fills3)
    ensures RowEvolves(row1, fills1, row3, fills3)
  {
    ReachesTransitive(row1.status, row2.status, row3.status);
  }

  lemma EvolvesTransitive(a: Tables, b: Tables, c: Tables)
    requires Evolves(a, b) && Evolves(b, c)
    ensures Evolves(a, c)
  {
    forall order | order in a.orders
      ensures order in c.orders && OrderEvolves(a, c, order)
    {
      assert OrderEvolves(a, b, order) && OrderEvolves(b, c, order);
      RowEvolvesTransitive(a.orders[order], FillsOf(a.fills, order), b.orders[order], FillsOf(b.fills, order),
                           c.orders[order], FillsOf(c.fills, order));
    }
  }

  /** Every change touches at most one order. */
  ghost predicate Untouched(t: Tables, t': Tables, order: OrderId) {
    && order in t.orders && order in t'.orders
    && t'.orders[order] == t.orders[order]
    && FillsOf(t'.fills, order) == FillsOf(t.fills, order)
    && EnqueuedFor(t'.commands, order) == EnqueuedFor(t.commands, order)
  }

  lemma TouchOne(t: Tables, t': Tables, touched: OrderId)
    requires TablesOk(t) && FillRowsOk(t') && CommandsOk(t') && CommandsEvolve(t.commands, t'.commands)
    requires t'.orders.Keys == t.orders.Keys + {touched}
    requires forall order {:trigger Untouched(t, t', order)} ::
      order in t.orders && order != touched ==> Untouched(t, t', order)
    requires OrderOk(t', touched)
    requires touched in t.orders ==> OrderEvolves(t, t', touched)
    ensures TablesOk(t') && Evolves(t, t')
  {
    forall order | order in t'.orders
      ensures OrderOk(t', order)
    {
      if order != touched {
        assert OrderOk(t, order) && Untouched(t, t', order);
      }
    }
    forall order | order in t.orders
      ensures OrderEvolves(t, t', order)
    {
      if order != touched {
        assert Untouched(t, t', order);
      }
    }
  }

  // ----- what holds of a task -----

  /** A snapshot is a true picture of a past moment of its order. */
  ghost predicate SnapshotOk(t: Tables, c: Command, s: ReconcileSnapshot) {
    && s.order.orderId == c.key.order && c.key.order in t.orders
    && (var row := t.orders[c.key.order];
        && s.order == OrderSnapshot(c.key.order, row.symbol, row.side, row.orderType, row.quantity, row.price,
                                    s.order.status)
        && s.fills <= FillsOf(t.fills, c.key.order)
        && Reaches(s.order.status, row.status)
        && (row.mode.Paper? ==> PaperShape(s.order.status, row.quantity, SumQuantity(s.fills))))
    && (c.key.Kind().ReconcileOrder? ==> !s.order.status.Pending?)
    && (c.key.PostCancelKey? ==> !s.order.status.Submitted?)
  }

  ghost predicate AnswerOk(c: Command, s: ReconcileSnapshot, r: ReconcileResult) {
    && c.key.Kind().ReconcileOrder?
    && Contract(c.mode, s, r)
    && (c.mode.Paper? ==> PaperAdapter.Answer(s, r))
  }

  ghost predicate TaskOk(t: Tables, task: Task) {
    && task.command < |t.commands|
    && (var c := t.commands[task.command];
        match task.phase
        case Claimed => true
        case Hydrated(s) => SnapshotOk(t, c, s)
        case Accepted => !c.key.Kind().ReconcileOrder?
        case Answered(s, r, _) => SnapshotOk(t, c, s) && AnswerOk(c, s, r)
        case Finished(out) => c.mode.Paper? ==> !out.PermanentReject?
        case Rejecting => c.mode.Live?)
  }

  ghost predicate Inv(w: World) {
    && TablesOk(w.t)
    && forall k :: k in w.tasks ==> TaskOk(w.t, w.tasks[k])
  }

  /** Nothing another worker does can spoil a task. */
  lemma TaskStable(t: Tables, t': Tables, task: Task)
    requires TablesOk(t) && TaskOk(t, task) && Evolves(t, t')
    ensures TaskOk(t', task)
  {
    var c := t.commands[task.command];
    if task.phase.Hydrated? || task.phase.Answered? {
      assert OrderEvolves(t, t', c.key.order);
      ReachesTransitive(task.phase.s.order.status, t.orders[c.key.order].status, t'.orders[c.key.order].status);
    }
  }

  // ----- table changes, one kind at a time -----

  lemma SameKeys(a: seq<Command>, b: seq<Command>)
    requires |a| == |b| && forall i :: 0 <= i < |a| ==> b[i].key == a[i].key
    ensures forall key :: HasKey(a, key) == HasKey(b, key)
  {
    forall key
      ensures HasKey(a, key) == HasKey(b, key)
    {
      if HasKey(a, key) {
        var i :| 0 <= i < |a| && a[i].key == key;
        assert b[i].key == key;
      }
      if HasKey(b, key) {
        var i :| 0 <= i < |b| && b[i].key == key;
        assert a[i].key == key;
      }
    }
  }

  /** Claims, marks and requeues touch a command row's lease and status only. */
  lemma RowWriteKeeps(t: Tables, i: nat, c: Command)
    requires TablesOk(t) && i < |t.commands|
    requires c.key == t.commands[i].key && c.account == t.commands[i].account && c.mode == t.commands[i].mode
    ensures var t' := t.(commands := t.commands[i := c]); TablesOk(t') && Evolves(t, t')
  {
    var t' := t.(commands := t.commands[i := c]);
    assert forall order :: EnqueuedFor(t'.commands, order) == EnqueuedFor(t.commands, order) by {
      SameKeys(t.commands, t'.commands);
    }
    assert CommandsOk(t') by {
      assert CommandOk(t.orders, t.commands[i]);
    }
    OnlyCommandsChange(t, t');
  }

  lemma OnlyCommandsChange(t: Tables, t': Tables)
    requires TablesOk(t) && t'.orders == t.orders && t'.fills == t.fills
    requires CommandsOk(t') && CommandsEvolve(t.commands, t'.commands)
    requires forall order :: order in t.orders ==> EnqueuedFor(t'.commands, order) == EnqueuedFor(t.commands, order)
    ensures TablesOk(t') && Evolves(t, t')
  {
    forall order | order in t'.orders
      ensures OrderOk(t', order) && OrderEvolves(t, t', order)
    {
      assert OrderOk(t, order);
    }
  }

  lemma InsertKeepsCommands(t: Tables, key: Key)
    requires CommandsOk(t) && key.order in t.orders
    ensures var row := t.orders[key.order];
      var commands := InsertCommand(t.commands, row.account, key, row.mode);
      && CommandsOk(t.(commands := commands))
      && CommandsEvolve(t.commands, commands)
      && forall other :: HasKey(commands, other) <==> HasKey(t.commands, other) || other == key
  {
    var row := t.orders[key.order];
    var commands := InsertCommand(t.commands, row.account, key, row.mode);
    forall i | 0 <= i < |t.commands| && t.commands[i].key == key
      ensures t.commands[i].account == row.account
    {
      assert CommandOk(t.orders, t.commands[i]);
    }
    forall other
      ensures HasKey(commands, other) <==> HasKey(t.commands, other) || other == key
    {
      KeysAfterInsert(t.commands, row.account, key, row.mode, other);
    }
  }

  lemma InsertEnqueues(t: Tables, key: Key, order: OrderId)
    requires CommandsOk(t) && key.order in t.orders
    ensures var row := t.orders[key.order];
      var before := EnqueuedFor(t.commands, order);
      EnqueuedFor(InsertCommand(t.commands, row.account, key, row.mode), order)
        == (if key == SubmitKey(order) then before.(submit := true)
            else if key == InitialKey(order) then before.(initial := true)
            else if key == PostCancelKey(order) then before.(postCancel := true)
            else before)
  {
    InsertKeepsCommands(t, key);
  }

  lemma {:induction false} NoFillsYet(rows: seq<FillRow>, order: OrderId)
    requires forall i :: 0 <= i < |rows| ==> rows[i].order != order
    ensures FillsOf(rows, order) == []
  {
    if rows != [] {
      NoFillsYet(rows[..|rows| - 1], order);
    }
  }

  lemma NoFillsOfUnplaced(t: Tables, order: OrderId)
    requires FillRowsOk(t) && order !in t.orders
    ensures FillsOf(t.fills, order) == []
  {
    forall i | 0 <= i < |t.fills|
      ensures t.fills[i].order != order
    {
      assert FillRowOk(t.orders, t.fills[i]);
    }
    NoFillsYet(t.fills, order);
  }

  lemma NoKeysYet(t: Tables, order: OrderId)
    requires CommandsOk(t) && order !in t.orders
    ensures EnqueuedFor(t.commands, order) == Enqueued(false, false, false)
  {
    forall key | HasKey(t.commands, key)
      ensures key.order != order
    {
      var i :| 0 <= i < |t.commands| && t.commands[i].key == key;
      assert CommandOk(t.orders, t.commands[i]);
    }
  }

  lemma PlaceOrderKeeps(t: Tables, order: OrderId, row: OrderRow)
    requires TablesOk(t) && order !in t.orders && Placeable(row)
    ensures TablesOk(PlaceOrderTx(t, order, row)) && Evolves(t, PlaceOrderTx(t, order, row))
  {
    var t1 := t.(orders := t.orders[order := row]);
    var t' := PlaceOrderTx(t, order, row);
    NoKeysYet(t, order);
    forall i | 0 <= i < |t.fills|
      ensures t.fills[i].order != order && FillRowOk(t1.orders, t1.fills[i])
    {
      assert FillRowOk(t.orders, t.fills[i]);
    }
    NoFillsYet(t.fills, order);
    forall i | 0 <= i < |t1.commands|
      ensures CommandOk(t1.orders, t1.commands[i])
    {
      assert CommandOk(t.orders, t.commands[i]);
    }
    InsertKeepsCommands(t1, SubmitKey(order));
    forall other | other in t1.orders
      ensures other != order ==> Untouched(t, t', other)
    {
      InsertEnqueues(t1, SubmitKey(order), other);
    }
    InsertEnqueues(t1, SubmitKey(order), order);
    TouchOne(t, t', order);
  }

  lemma RequestCancelKeeps(t: Tables, order: OrderId, request: nat)
    requires TablesOk(t) && order in t.orders
    ensures var row := t.orders[order];
      var t' := t.(commands := InsertCommand(t.commands, row.account, CancelKey(order, request), row.mode));
      TablesOk(t') && Evolves(t, t')
  {
    var row := t.orders[order];
    var key := CancelKey(order, request);
    var t' := t.(commands := InsertCommand(t.commands, row.account, key, row.mode));
    InsertKeepsCommands(t, key);
    forall other | other in t.orders
      ensures EnqueuedFor(t'.commands, other) == EnqueuedFor(t.commands, other)
    {
      InsertEnqueues(t, key, other);
    }
    OnlyCommandsChange(t, t');
  }

  lemma RowAfterAdvance(t: Tables, order: OrderId, status: OrderStatus, followUp: Key)
    requires TablesOk(t) && order in t.orders && followUp.order == order
    requires (status.Submitted? && followUp.InitialKey?) || (status.CancelRequested? && followUp.PostCancelKey?)
    ensures var row, fills := t.orders[order], FillsOf(t.fills, order);
      var row' := if Legal(row.status, status) then row.(status := status) else row;
      var commands := InsertCommand(t.commands, row.account, followUp, row.mode);
      RowOk(order, row', fills, EnqueuedFor(commands, order)) && RowEvolves(row, fills, row', fills)
  {
    assert OrderOk(t, order);
    InsertEnqueues(t, followUp, order);
  }

  /** The second transaction of submit and of cancel: the status change and the
    follow-up appear together. */
  lemma AdvanceKeeps(t: Tables, c: Command, status: OrderStatus, followUp: Key)
    requires TablesOk(t) && CommandOk(t.orders, c) && followUp.order == c.key.order
    requires (status.Submitted? && followUp.InitialKey?) || (status.CancelRequested? && followUp.PostCancelKey?)
    ensures var tx := AdvanceTx(t, c, status, followUp);
      tx.Committed? && TablesOk(tx.tables) && Evolves(t, tx.tables)
  {
    var order := c.key.order;
    var row, fills := t.orders[order], FillsOf(t.fills, order);
    var row' := if Legal(row.status, status) then row.(status := status) else row;
    var commands := InsertCommand(t.commands, row.account, followUp, row.mode);
    var t' := t.(orders := t.orders[order := row'], commands := commands);
    assert t.orders[order := row] == t.orders;
    assert AdvanceTx(t, c, status, followUp) == Committed(t');
    assert RowOk(order, row', fills, EnqueuedFor(commands, order)) && RowEvolves(row, fills, row', fills) by {
      RowAfterAdvance(t, order, status, followUp);
    }
    assert CommandsOk(t') && CommandsEvolve(t.commands, commands) by {
      InsertKeepsCommands(t, followUp);
      SameOrdersKeepCommands(t.(commands := commands), t');
    }
    forall other | other in t.orders && other != order
      ensures Untouched(t, t', other)
    {
      InsertEnqueues(t, followUp, other);
    }
    ReplaceRow(t, t', order, row');
  }

  /** One order row is rewritten, possibly with new commands and fills of that order. */
  lemma ReplaceRow(t: Tables, t': Tables, order: OrderId, row': OrderRow)
    requires TablesOk(t) && order in t.orders && t'.orders == t.orders[order := row']
    requires FillRowsOk(t.(fills := t'.fills))
    requires CommandsOk(t') && CommandsEvolve(t.commands, t'.commands)
    requires forall other {:trigger Untouched(t, t', other)} ::
      other in t.orders && other != order ==> Untouched(t, t', other)
    requires RowOk(order, row', FillsOf(t'.fills, order), EnqueuedFor(t'.commands, order))
    requires RowEvolves(t.orders[order], FillsOf(t.fills, order), row', FillsOf(t'.fills, order))
    ensures TablesOk(t') && Evolves(t, t')
  {
    forall i | 0 <= i < |t'.fills|
      ensures FillRowOk(t'.orders, t'.fills[i])
    {
      assert FillRowOk(t.orders, t'.fills[i]);
    }
    assert OrderOk(t', order) && OrderEvolves(t, t', order);
    TouchOne(t, t', order);
  }

  lemma SameOrdersKeepCommands(t: Tables, t': Tables)
    requires CommandsOk(t) && t'.commands == t.commands
    requires forall order :: order in t.orders ==> order in t'.orders && SameIdentity(t.orders[order], t'.orders[order])
    ensures CommandsOk(t')
  {
    forall i | 0 <= i < |t'.commands|
      ensures CommandOk(t'.orders, t'.commands[i])
    {
      assert CommandOk(t.orders, t.commands[i]);
    }
  }

  lemma RejectKeeps(t: Tables, order: OrderId)
    requires TablesOk(t) && order in t.orders && t.orders[order].mode.Live?
    ensures TablesOk(RejectTx(t, order)) && Evolves(t, RejectTx(t, order))
  {
    var row, fills := t.orders[order], FillsOf(t.fills, order);
    var row' := if Legal(row.status, Rejected) then row.(status := Rejected) else row;
    var t' := t.(orders := t.orders[order := row']);
    assert t.orders[order := row] == t.orders;
    assert RejectTx(t, order) == t';
    assert RowOk(order, row', fills, EnqueuedFor(t.commands, order)) && RowEvolves(row, fills, row', fills) by {
      assert OrderOk(t, order);
    }
    SameOrdersKeepCommands(t, t');
    ReplaceRow(t, t', order, row');
  }

  // ----- persisting a result -----

  lemma {:induction false} RowsOfOrder(rows: seq<FillRow>, i: nat)
    requires i < |rows|
    ensures rows[i].fill in FillsOf(rows, rows[i].order)
  {
    if i < |rows| - 1 {
      RowsOfOrder(rows[..|rows| - 1], i);
    }
  }

  /** No ABA: equal filled sums mean equal fills, so the next ordinal is unused. */
  lemma FreshMeansSameFills(t: Tables, c: Command, s: ReconcileSnapshot)
    requires TablesOk(t) && SnapshotOk(t, c, s)
    requires Fresh(t.orders[c.key.order], s)
    ensures s.fills == FillsOf(t.fills, c.key.order)
    ensures forall account, venue, n: nat :: n >= |s.fills| ==>
      !TradeIdTaken(t.fills, account, TradeId(c.key.order, venue, n))
  {
    var order := c.key.order;
    assert OrderOk(t, order);
    var fills := FillsOf(t.fills, order);
    PrefixDeterminedBySum(s.fills, fills);
    forall account, venue, n: nat | n >= |s.fills|
      ensures !TradeIdTaken(t.fills, account, TradeId(order, venue, n))
    {
      forall i | 0 <= i < |t.fills|
        ensures t.fills[i].fill.tradeId != TradeId(order, venue, n)
      {
        assert FillRowOk(t.orders, t.fills[i]);
        if t.fills[i].order == order {
          RowsOfOrder(t.fills, i);
          assert t.fills[i].fill in fills;
        }
      }
    }
  }

  /** The row a result adds, if it adds one. */
  function NewRows(account: AccountId, order: OrderId, fills: seq<Fill>): seq<FillRow> {
    if fills == [] then [] else [FillRow(account, order, fills[0])]
  }

  lemma InsertContractFills(rows: seq<FillRow>, account: AccountId, order: OrderId, fills: seq<Fill>)
    requires fills == [] || (|fills| == 1 && fills[0].quantity > 0 && !TradeIdTaken(rows, account, fills[0].tradeId))
    ensures InsertFills(rows, account, order, fills)
      == if fills != [] && fills[0].price <= 0 then None
         else Some((rows + NewRows(account, order, fills), fills))
  {
    if fills == [] {
      assert rows + [] == rows;
    } else {
      assert fills[..|fills| - 1] == [];
      assert InsertFills(rows, account, order, []) == Some((rows, []));
      assert [] + [fills[0]] == fills;
    }
  }

  /** The tables after a fresh result has been persisted, whatever became of the positions. */
  function PersistedTables(t: Tables, account: AccountId, s: ReconcileSnapshot, r: ReconcileResult,
                           positions: seq<Position>): Tables
    requires s.order.orderId in t.orders
  {
    var order := s.order.orderId;
    var row := t.orders[order];
    var t1 := t.(fills := t.fills + NewRows(account, order, r.fillsToAdd), positions := positions);
    if r.newStatus.None? then t1
    else t1.(orders := t.orders[order := row.(status := r.newStatus.value,
                                              filled := row.filled + SumQuantity(r.fillsToAdd))])
  }

  /** What a fresh answer needs to be committed. */
  ghost predicate Persistable(schema: Schema, t: Tables, account: AccountId, s: ReconcileSnapshot, r: ReconcileResult,
                              positions: seq<Position>)
    requires s.order.orderId in t.orders
  {
    var row := t.orders[s.order.orderId];
    && Fresh(row, s)
    && s.fills == FillsOf(t.fills, s.order.orderId)
    && (r.fillsToAdd != [] ==> r.fillsToAdd[0].price > 0)
    && ApplyDeltas(schema, t.positions, account, r.positionsDelta, FirstPrice(r.fillsToAdd)) == Some(positions)
    && (r.newStatus.Some? ==>
          Legal(row.status, r.newStatus.value) && FilledInRange(row, row.filled + SumQuantity(r.fillsToAdd)))
  }

  /** How a pass over an up-to-date snapshot ends, without the loops. */
  function FreshOutcome(schema: Schema, t: Tables, account: AccountId, s: ReconcileSnapshot, r: ReconcileResult): Tx
    requires s.order.orderId in t.orders
  {
    var row := t.orders[s.order.orderId];
    if r.fillsToAdd != [] && r.fillsToAdd[0].price <= 0 then Aborted(Retry)
    else
      match ApplyDeltas(schema, t.positions, account, r.positionsDelta, FirstPrice(r.fillsToAdd))
      case None => Aborted(Retry)
      case Some(positions) =>
        if r.newStatus.Some? && !Legal(row.status, r.newStatus.value) then Aborted(NeedsReview)
        else if r.newStatus.Some? && !FilledInRange(row, row.filled + SumQuantity(r.fillsToAdd)) then Aborted(Retry)
        else Committed(PersistedTables(t, account, s, r, positions))
  }

  /** Persisting a fresh answer whose trade id is unused. */
  lemma PersistFresh(schema: Schema, t: Tables, account: AccountId, s: ReconcileSnapshot, r: ReconcileResult)
    requires var order := s.order.orderId;
      && order in t.orders && Fresh(t.orders[order], s)
      && (r.fillsToAdd == [] ||
          (&& |r.fillsToAdd| == 1 && r.fillsToAdd[0].quantity > 0
           && !TradeIdTaken(t.fills, account, r.fillsToAdd[0].tradeId)))
    ensures PersistTx(schema, t, account, s, r) == FreshOutcome(schema, t, account, s, r)
  {
    InsertContractFills(t.fills, account, s.order.orderId, r.fillsToAdd);
  }

  /** Exactly how a pass ends. In particular the "every trade id already exists"
    escalation is not among the ways: a pass is only escalated for a status the
    lifecycle forbids. */
  lemma PersistExactly(schema: Schema, t: Tables, c: Command, s: ReconcileSnapshot, r: ReconcileResult)
    requires TablesOk(t) && SnapshotOk(t, c, s) && AnswerOk(c, s, r)
    ensures PersistTx(schema, t, c.account, s, r)
      == if Fresh(t.orders[c.key.order], s) then FreshOutcome(schema, t, c.account, s, r) else Aborted(Retry)
  {
    if Fresh(t.orders[c.key.order], s) {
      FreshMeansSameFills(t, c, s);
      assert r.fillsToAdd == [] || (|r.fillsToAdd| == 1 && OneFill(c.mode, s, r));
      PersistFresh(schema, t, c.account, s, r);
    }
  }

  /** What a committed pass needed and left, and the only reasons not to commit. */
  lemma PersistCases(schema: Schema, t: Tables, c: Command, s: ReconcileSnapshot, r: ReconcileResult)
    requires TablesOk(t) && SnapshotOk(t, c, s) && AnswerOk(c, s, r)
    ensures match PersistTx(schema, t, c.account, s, r)
      case Committed(t') =>
        && Persistable(schema, t, c.account, s, r, t'.positions)
        && t' == PersistedTables(t, c.account, s, r, t'.positions)
      case Aborted(why) =>
        || why == Retry
        || (&& why == NeedsReview && Fresh(t.orders[c.key.order], s)
            && r.newStatus.Some? && !Legal(t.orders[c.key.order].status, r.newStatus.value))
  {
    PersistExactly(schema, t, c, s, r);
    if Fresh(t.orders[c.key.order], s) {
      FreshMeansSameFills(t, c, s);
    }
  }

  lemma FillsAfterPersist(rows: seq<FillRow>, account: AccountId, order: OrderId, fills: seq<Fill>, other: OrderId)
    requires fills == [] || |fills| == 1
    ensures FillsOf(rows + NewRows(account, order, fills), other)
      == FillsOf(rows, other) + (if other == order then fills else [])
  {
    if fills == [] {
      assert rows + [] == rows;
    } else {
      FillsOfAppend(rows, FillRow(account, order, fills[0]), other);
      assert fills == [fills[0]];
    }
  }

  function RowAfter(row: OrderRow, r: ReconcileResult): OrderRow {
    if r.newStatus.None? then row
    else row.(status := r.newStatus.value, filled := row.filled + SumQuantity(r.fillsToAdd))
  }

  /** What a committed pass found: the snapshot's row, and a follow-up for it. */
  ghost predicate PassFits(c: Command, row: OrderRow, s: ReconcileSnapshot, r: ReconcileResult, e: Enqueued) {
    && RowOk(c.key.order, row, s.fills, e) && Fresh(row, s) && AnswerOk(c, s, r)
    && s.order.orderId == c.key.order && c.mode == row.mode
    && s.order == OrderSnapshot(c.key.order, row.symbol, row.side, row.orderType, row.quantity, row.price, row.status)
    && (e.initial || e.postCancel) && (c.key.PostCancelKey? ==> e.postCancel)
    && (r.fillsToAdd != [] ==> r.fillsToAdd[0].price > 0)
    && (r.newStatus.Some? ==>
          Legal(row.status, r.newStatus.value) && FilledInRange(row, row.filled + SumQuantity(r.fillsToAdd)))
  }

  lemma StatusOnlyRow(c: Command, row: OrderRow, s: ReconcileSnapshot, r: ReconcileResult, e: Enqueued)
    requires PassFits(c, row, s, r, e) && r.fillsToAdd == []
    ensures RowOk(c.key.order, RowAfter(row, r), s.fills, e)
    ensures RowEvolves(row, s.fills, RowAfter(row, r), s.fills)
  {
  }

  lemma FilledRowLedger(c: Command, row: OrderRow, s: ReconcileSnapshot, r: ReconcileResult, e: Enqueued)
    requires PassFits(c, row, s, r, e) && r.fillsToAdd != []
    ensures SumQuantity(r.fillsToAdd) == r.fillsToAdd[0].quantity
    ensures LedgerOk(c.key.order, RowAfter(row, r), s.fills + r.fillsToAdd)
  {
    var fill := r.fillsToAdd[0];
    assert OneFill(c.mode, s, r);
    assert r.fillsToAdd == [] + [fill];
    SumQuantityAppend([], fill);
    SumQuantityAppend(s.fills, fill);
  }

  /** Only a full fill of an untouched order is ever added to a paper order. */
  lemma FilledPaperRow(c: Command, row: OrderRow, s: ReconcileSnapshot, r: ReconcileResult, e: Enqueued)
    requires PassFits(c, row, s, r, e) && r.fillsToAdd != [] && row.mode.Paper?
    ensures PaperOk(RowAfter(row, r), s.fills + r.fillsToAdd, e)
  {
    FilledRowLedger(c, row, s, r, e);
    assert PaperAdapter.Answer(s, r) && !row.status.IsTerminal();
    assert s.fills == [];
    assert s.fills + r.fillsToAdd == r.fillsToAdd && |r.fillsToAdd| == 1;
    assert RowAfter(row, r).status == Filled && RowAfter(row, r).filled == row.quantity;
  }

  lemma FilledRowEvolves(c: Command, row: OrderRow, s: ReconcileSnapshot, r: ReconcileResult, e: Enqueued)
    requires PassFits(c, row, s, r, e) && r.fillsToAdd != []
    ensures FollowUpsOk(RowAfter(row, r).status, e)
    ensures RowEvolves(row, s.fills, RowAfter(row, r), s.fills + r.fillsToAdd)
  {
    assert r.newStatus.Some? && Legal(row.status, r.newStatus.value);
    assert !row.status.IsTerminal() && Reaches(row.status, r.newStatus.value);
  }

  /** The order row and its fills before and after, as values. */
  lemma RowAfterPersist(c: Command, row: OrderRow, s: ReconcileSnapshot, r: ReconcileResult, e: Enqueued)
    requires PassFits(c, row, s, r, e)
    ensures RowOk(c.key.order, RowAfter(row, r), s.fills + r.fillsToAdd, e)
    ensures RowEvolves(row, s.fills, RowAfter(row, r), s.fills + r.fillsToAdd)
  {
    if r.fillsToAdd == [] {
      assert s.fills + [] == s.fills;
      StatusOnlyRow(c, row, s, r, e);
    } else {
      FilledRowLedger(c, row, s, r, e);
      FilledRowEvolves(c, row, s, r, e);
      if row.mode.Paper? {
        FilledPaperRow(c, row, s, r, e);
      }
    }
  }

  lemma HasReconcileRow(t: Tables, i: nat)
    requires i < |t.commands| && t.commands[i].key.Kind().ReconcileOrder?
    ensures var key := t.commands[i].key;
      var e := EnqueuedFor(t.commands, key.order);
      (e.initial || e.postCancel) && (key.PostCancelKey? ==> e.postCancel)
  {
    assert HasKey(t.commands, t.commands[i].key);
  }

  lemma PersistKeeps(schema: Schema, t: Tables, i: nat, s: ReconcileSnapshot, r: ReconcileResult,
                     readPositions: seq<Position>, positions: seq<Position>, leftPositions: seq<Position>)
    requires TablesOk(t) && i < |t.commands|
    requires var c := t.commands[i];
      && SnapshotOk(t, c, s) && AnswerOk(c, s, r)
      && Persistable(schema, t.(positions := readPositions), c.account, s, r, positions)
    ensures var t' := PersistedTables(t, t.commands[i].account, s, r, leftPositions);
      TablesOk(t') && Evolves(t, t')
  {
    var c := t.commands[i];
    var order := c.key.order;
    var row := t.orders[order];
    var row' := RowAfter(row, r);
    var fills' := t.fills + NewRows(c.account, order, r.fillsToAdd);
    var t' := t.(orders := t.orders[order := row'], fills := fills', positions := leftPositions);
    assert t.orders[order := row] == t.orders;
    assert PersistedTables(t, c.account, s, r, leftPositions) == t';
    forall other | other in t.orders && other != order
      ensures Untouched(t, t', other)
    {
      FillsAfterPersist(t.fills, c.account, order, r.fillsToAdd, other);
    }
    FillsAfterPersist(t.fills, c.account, order, r.fillsToAdd, order);
    assert RowOk(order, row', FillsOf(fills', order), EnqueuedFor(t.commands, order))
           && RowEvolves(row, FillsOf(t.fills, order), row', FillsOf(fills', order)) by {
      assert CommandOk(t.orders, c) && OrderOk(t, order);
      HasReconcileRow(t, i);
      assert PassFits(c, row, s, r, EnqueuedFor(t.commands, order));
      RowAfterPersist(c, row, s, r, EnqueuedFor(t.commands, order));
    }
    assert CommandsOk(t') by {
      SameOrdersKeepCommands(t, t');
    }
    NewRowsPlaced(t, c, s, r);
    ReplaceRow(t, t', order, row');
  }

  lemma NewRowsPlaced(t: Tables, c: Command, s: ReconcileSnapshot, r: ReconcileResult)
    requires FillRowsOk(t) && CommandOk(t.orders, c) && s.order.orderId == c.key.order && AnswerOk(c, s, r)
    ensures FillRowsOk(t.(fills := t.fills + NewRows(c.account, c.key.order, r.fillsToAdd)))
  {
    if r.fillsToAdd != [] {
      assert OneFill(c.mode, s, r);
    }
  }
}
