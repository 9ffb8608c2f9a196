/** Exactly when a live reconcile pass brings the ledger up to what the exchange
  says it executed. */
module CatchUp {
  import opened Types
  import opened OrderState
  import opened Positions
  import opened Ledger
  import opened Outbox
  import opened OutboxSafety
  import opened OutboxTheorems
  import opened AdapterContract
  import opened BinanceAdapter

  /** Whether the positions table takes the change that belongs to a fill. */
  predicate PositionsTake(cfg: Config, t: Tables, account: AccountId, symbol: Symbol, delta: int, price: int,
                          readPositions: seq<Position>, leftPositions: seq<Position>)
  {
    var seen := if cfg.serialPositions then t.positions else readPositions;
    && ApplyDelta(cfg.schema, seen, account, symbol, delta, price).Some?
    && (cfg.serialPositions || LeftBehind(t.positions, leftPositions, account, symbol))
  }

  /** What newly executed units need beyond the adapter's answer: a status change
    the lifecycle allows, and tables that take the fill. */
  predicate Recordable(cfg: Config, t: Tables, row: OrderRow, s: ReconcileSnapshot, to: OrderStatus, resp: Response,
                       readPositions: seq<Position>, leftPositions: seq<Position>)
  {
    var delta := OrZero(resp.executedQty) - row.filled;
    && 0 < delta <= row.quantity - row.filled
    && to != row.status && Legal(row.status, to)
    && var price := FillPrice(SumQuote(s.fills), OrZero(resp.cumulativeQuote), OrZero(resp.price), delta);
       && price > 0
       && PositionsTake(cfg, t, row.account, row.symbol, Signed(row.side, delta), price, readPositions, leftPositions)
  }

  /** The order row after a transaction. */
  function RowLeft(t: Tables, tx: Tx, order: OrderId): Option<OrderRow> {
    var orders := if tx.Committed? then tx.tables.orders else t.orders;
    if order in orders then Some(orders[order]) else None
  }

  /** A pass over an up-to-date snapshot, alone or among others. */
  ghost predicate UpToDate(t: Tables, c: Command, s: ReconcileSnapshot, r: ReconcileResult) {
    && TablesOk(t) && CommandOk(t.orders, c) && c.mode.Live?
    && SnapshotOk(t, c, s) && AnswerOk(c, s, r) && Fresh(t.orders[c.key.order], s)
  }

  lemma PassIsFreshOutcome(cfg: Config, t: Tables, c: Command, s: ReconcileSnapshot, r: ReconcileResult,
                           readPositions: seq<Position>)
    requires UpToDate(t, c, s, r)
    ensures PersistTx(cfg.schema, t, c.account, s, r) == FreshOutcome(cfg.schema, t, c.account, s, r)
    ensures var t1 := t.(positions := readPositions);
      PersistTx(cfg.schema, t1, c.account, s, r) == FreshOutcome(cfg.schema, t1, c.account, s, r)
  {
    PersistExactly(cfg.schema, t, c, s, r);
    PositionsIrrelevant(t, readPositions);
    PersistExactly(cfg.schema, t.(positions := readPositions), c, s, r);
  }

  /** Without a fill the filled quantity stays, whether or not the pass commits. */
  lemma NoFillKeepsFilled(cfg: Config, t: Tables, c: Command, s: ReconcileSnapshot, r: ReconcileResult,
                          readPositions: seq<Position>, leftPositions: seq<Position>)
    requires UpToDate(t, c, s, r) && r.fillsToAdd == []
    ensures var tx := PersistAmongWorkers(cfg, t, c.account, s, r, readPositions, leftPositions);
      var row := RowLeft(t, tx, c.key.order);
      row.Some? && row.value.filled == t.orders[c.key.order].filled
  {
    PassIsFreshOutcome(cfg, t, c, s, r, readPositions);
  }

  lemma OneDeltaApplied(schema: Schema, ps: seq<Position>, account: AccountId, deltas: seq<PositionDelta>, price: int)
    requires |deltas| == 1
    ensures ApplyDeltas(schema, ps, account, deltas, price)
      == ApplyDelta(schema, ps, account, deltas[0].symbol, deltas[0].quantityDelta, price)
  {
    assert deltas[..0] == [];
    assert ApplyDeltas(schema, ps, account, deltas[..0], price) == Some(ps);
  }

  /** With a fill the pass commits, and records it, exactly when the tables take it
    and the status change is legal. */
  lemma FillRecordedExactly(cfg: Config, t: Tables, c: Command, s: ReconcileSnapshot, r: ReconcileResult,
                            readPositions: seq<Position>, leftPositions: seq<Position>)
    requires UpToDate(t, c, s, r) && r.fillsToAdd != []
    ensures OneFill(Live, s, r) && r.newStatus.Some?
    ensures var row, fill := t.orders[c.key.order], r.fillsToAdd[0];
      var tx := PersistAmongWorkers(cfg, t, c.account, s, r, readPositions, leftPositions);
      && (tx.Committed? <==>
            && fill.price > 0 && Legal(row.status, r.newStatus.value) && row.filled + fill.quantity <= row.quantity
            && PositionsTake(cfg, t, c.account, row.symbol, Signed(row.side, fill.quantity), fill.price,
                             readPositions, leftPositions))
      && RowLeft(t, tx, c.key.order).Some?
      && RowLeft(t, tx, c.key.order).value.filled == if tx.Committed? then row.filled + fill.quantity else row.filled
  {
    assert OneFill(c.mode, s, r) && OrderOk(t, c.key.order);
    var fill := r.fillsToAdd[0];
    OneFillSum(r.fillsToAdd);
    PassIsFreshOutcome(cfg, t, c, s, r, readPositions);
    OneDeltaApplied(cfg.schema, t.positions, c.account, r.positionsDelta, fill.price);
    OneDeltaApplied(cfg.schema, readPositions, c.account, r.positionsDelta, fill.price);
  }

  /** The fill of an answer, in terms of the response. */
  lemma AnswersFill(s: ReconcileSnapshot, resp: Response)
    requires BinanceAdapter.ReconcileOrder(s, resp).Ok?
    ensures var r := BinanceAdapter.ReconcileOrder(s, resp).value;
      var delta := OrZero(resp.executedQty) - SumQuantity(s.fills);
      if r.newStatus.Some? && delta > 0
      then && |r.fillsToAdd| == 1 && r.fillsToAdd[0].quantity == delta
           && r.fillsToAdd[0].price
              == FillPrice(SumQuote(s.fills), OrZero(resp.cumulativeQuote), OrZero(resp.price), delta)
      else r.fillsToAdd == []
  {
  }

  /** Exactly when a whole pass over an up-to-date snapshot leaves recorded what the
    exchange says it executed: when that was recorded already, or when the newly
    executed units can be recorded. */
  lemma PassCatchesUpExactly(cfg: Config, t: Tables, c: Command, s: ReconcileSnapshot, resp: Response,
                             readPositions: seq<Position>, leftPositions: seq<Position>)
    requires TablesOk(t) && CommandOk(t.orders, c) && c.mode.Live? && c.key.Kind().ReconcileOrder?
    requires SnapshotOk(t, c, s) && Fresh(t.orders[c.key.order], s)
    requires resp.status.Some? && MapStatus(resp.status.value).Some?
    ensures BinanceAdapter.ReconcileOrder(s, resp).Ok?
    ensures var row, r := t.orders[c.key.order], BinanceAdapter.ReconcileOrder(s, resp).value;
      var left := RowLeft(t, PersistAmongWorkers(cfg, t, c.account, s, r, readPositions, leftPositions), c.key.order);
      && left.Some?
      && (left.value.filled == OrZero(resp.executedQty) <==>
            || OrZero(resp.executedQty) == row.filled
            || Recordable(cfg, t, row, s, MapStatus(resp.status.value).value, resp, readPositions, leftPositions))
  {
    BinanceAdapter.MeetsContract(s, resp);
    AnswersFill(s, resp);
    var r := BinanceAdapter.ReconcileOrder(s, resp).value;
    assert UpToDate(t, c, s, r);
    if r.fillsToAdd == [] {
      NoFillKeepsFilled(cfg, t, c, s, r, readPositions, leftPositions);
    } else {
      FillRecordedExactly(cfg, t, c, s, r, readPositions, leftPositions);
    }
  }

  /** The order row that a whole pass over an up-to-date snapshot leaves, for every
    word of the exchange: the new status alone when nothing new was executed and
    the change is legal, status and executed quantity together when the units can
    be recorded, and the old row otherwise. */
  lemma PassLeavesExactly(cfg: Config, t: Tables, c: Command, s: ReconcileSnapshot, resp: Response, to: OrderStatus,
                          readPositions: seq<Position>, leftPositions: seq<Position>)
    requires TablesOk(t) && CommandOk(t.orders, c) && c.mode.Live? && c.key.Kind().ReconcileOrder?
    requires SnapshotOk(t, c, s) && Fresh(t.orders[c.key.order], s)
    requires resp.status.Some? && resp.status.value in Words(to)
    ensures BinanceAdapter.ReconcileOrder(s, resp).Ok?
    ensures var row, r := t.orders[c.key.order], BinanceAdapter.ReconcileOrder(s, resp).value;
      RowLeft(t, PersistAmongWorkers(cfg, t, c.account, s, r, readPositions, leftPositions), c.key.order)
      == Some(if OrZero(resp.executedQty) <= row.filled && to != row.status && Legal(row.status, to)
              then row.(status := to)
              else if Recordable(cfg, t, row, s, to, resp, readPositions, leftPositions)
              then row.(status := to, filled := OrZero(resp.executedQty))
              else row)
  {
    MapStatusInvertsWords(resp.status.value, to);
    BinanceAdapter.MeetsContract(s, resp);
    AnswersFill(s, resp);
    var r := BinanceAdapter.ReconcileOrder(s, resp).value;
    var row := t.orders[c.key.order];
    if !s.order.status.IsTerminal() {
      ReportsTheWord(s, resp, to);
    }
    assert UpToDate(t, c, s, r);
    if r.fillsToAdd == [] {
      StatusLeft(cfg, t, c, s, r, readPositions, leftPositions);
    } else {
      FillRecordedExactly(cfg, t, c, s, r, readPositions, leftPositions);
      OneFillSum(r.fillsToAdd);
      FillLeft(cfg, t, c, s, r, readPositions, leftPositions);
    }
  }

  /** A status without a fill: legal or not is all that matters. */
  lemma StatusLeft(cfg: Config, t: Tables, c: Command, s: ReconcileSnapshot, r: ReconcileResult,
                   readPositions: seq<Position>, leftPositions: seq<Position>)
    requires UpToDate(t, c, s, r) && r.fillsToAdd == []
    ensures var row := t.orders[c.key.order];
      RowLeft(t, PersistAmongWorkers(cfg, t, c.account, s, r, readPositions, leftPositions), c.key.order)
      == Some(if r.newStatus.Some? && Legal(row.status, r.newStatus.value) then row.(status := r.newStatus.value)
              else row)
  {
    assert OrderOk(t, c.key.order);
    PassIsFreshOutcome(cfg, t, c, s, r, readPositions);
  }

  lemma OneFillSum(fills: seq<Fill>)
    requires |fills| == 1
    ensures SumQuantity(fills) == fills[0].quantity
  {
    assert fills == [] + [fills[0]];
    SumQuantityAppend([], fills[0]);
  }

  lemma FillLeft(cfg: Config, t: Tables, c: Command, s: ReconcileSnapshot, r: ReconcileResult,
                 readPositions: seq<Position>, leftPositions: seq<Position>)
    requires UpToDate(t, c, s, r) && r.fillsToAdd != [] && r.newStatus.Some?
    ensures var row := t.orders[c.key.order];
      var tx := PersistAmongWorkers(cfg, t, c.account, s, r, readPositions, leftPositions);
      RowLeft(t, tx, c.key.order)
      == Some(if tx.Committed?
              then row.(status := r.newStatus.value, filled := row.filled + SumQuantity(r.fillsToAdd))
              else row)
  {
    PassIsFreshOutcome(cfg, t, c, s, r, readPositions);
  }
}
