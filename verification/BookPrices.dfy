/** Which side of the book prices a paper fill, and exactly when there is one. */
module BookPrices {
  import opened Types
  import opened Positions
  import opened Ledger
  import opened MarketData
  import opened OutboxSafety
  import opened OutboxWorker
  import opened Drain
  import PaperAdapter

  /** A Submitted order and a fresh quote on its side of the book, the ask for a buy
    and the bid for a sell, that touches the limit of a limit order. */
  predicate Hits(feed: Feed, row: OrderRow) {
    && row.status.Submitted? && row.symbol in feed.books
    && var top := feed.books[row.symbol];
       && feed.now - top.lastUpdate <= feed.maxAge
       && (row.orderType.Limit? ==>
             row.price.Some? && if row.side.Buy? then top.ask <= row.price.value else top.bid >= row.price.value)
  }

  /** The fill would close the position exactly. */
  predicate Flattens(t: Tables, row: OrderRow) {
    Net(t.positions, row.account, row.symbol) == if row.side.Buy? then -row.quantity else row.quantity
  }

  /** The fill rows that dispatching a paper reconcile adds, in full: one fill of
    the whole quantity at the ask for a buy, at the bid for a sell, exactly when
    that quote hits and the CHECK on positions does not refuse the close. */
  lemma PaperFillsExactly(schema: Schema, t: Tables, i: nat, feed: Feed)
    requires TablesOk(t) && Valid(t.positions) && i < |t.commands| && feed.Positive()
    requires t.commands[i].mode.Paper? && t.commands[i].key.Kind().ReconcileOrder?
    ensures t.commands[i].key.order in t.orders
    ensures var order, row := t.commands[i].key.order, t.orders[t.commands[i].key.order];
      Dispatch(schema, t, t.commands[i], feed).0.fills
      == if Hits(feed, row) && !(schema.closeCheck && Flattens(t, row))
         then t.fills + [FillRow(row.account, order, Fill(TradeId(order, Paper, 0), row.quantity,
                                 if row.side.Buy? then feed.books[row.symbol].ask else feed.books[row.symbol].bid))]
         else t.fills
  {
    HydratedOk(t, i);
    var c := t.commands[i];
    assert CommandOk(t.orders, c) && OrderOk(t, c.key.order);
    HasReconcileRow(t, i);
    var s := HydrateTx(t, c.key.order).value;
    AnswerExactly(t, c.key.order, feed);
    PaperReconcileOutcome(schema, t, i, feed);
    PaperAdapter.MeetsContract(s, Quote(feed, s.order));
    DispatchedFills(schema, t, i, feed);
  }

  /** A done dispatch adds the answer's fills, and one that is not adds none. */
  lemma DispatchedFills(schema: Schema, t: Tables, i: nat, feed: Feed)
    requires TablesOk(t) && i < |t.commands| && HydrateTx(t, t.commands[i].key.order).Some?
    requires t.commands[i].mode.Paper? && t.commands[i].key.Kind().ReconcileOrder?
    ensures var c := t.commands[i];
      var s := HydrateTx(t, c.key.order).value;
      var (t', out) := Dispatch(schema, t, c, feed);
      t'.fills == t.fills + if out.Done? then NewRows(c.account, c.key.order,
                                                      PaperAdapter.ReconcileOrder(s, Quote(feed, s.order)).fillsToAdd)
                            else []
  {
    HydratedOk(t, i);
    var c := t.commands[i];
    var s := HydrateTx(t, c.key.order).value;
    PaperAdapter.MeetsContract(s, Quote(feed, s.order));
    PersistExactly(schema, t, c, s, PaperAdapter.ReconcileOrder(s, Quote(feed, s.order)));
    assert t.fills + [] == t.fills;
  }

  /** The answer to a true snapshot of a paper order that has left Pending. */
  lemma AnswerExactly(t: Tables, order: OrderId, feed: Feed)
    requires order in t.orders && OrderOk(t, order) && t.orders[order].mode.Paper?
    requires !t.orders[order].status.Pending?
    ensures var row, s := t.orders[order], HydrateTx(t, order).value;
      PaperAdapter.ReconcileOrder(s, Quote(feed, s.order)).fillsToAdd
      == if Hits(feed, row)
         then [Fill(TradeId(order, Paper, 0), row.quantity,
                    if row.side.Buy? then feed.books[row.symbol].ask else feed.books[row.symbol].bid)]
         else []
  {
    var fills := FillsOf(t.fills, order);
    assert t.orders[order].status.Submitted? ==> fills == [];
  }
}
