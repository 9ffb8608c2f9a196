/** One claim-and-dispatch pass as main.rs wires it: a single worker, the paper
  adapter present, no live adapter (outbox_worker.rs). */
module OutboxWorker {
  import opened Types
  import opened OrderState
  import opened Positions
  import opened Ledger
  import opened MarketData
  import opened Database
  import Outbox
  import opened OutboxSafety
  import PaperAdapter

  // ----- what a pass does, as functions -----

  function Quote(feed: Feed, order: OrderSnapshot): Option<Estimate> {
    feed.Conservative(order.symbol, order.side.Buy?)
  }

  /** dispatch() with the paper adapter and a database that does not fail. */
  function Dispatch(schema: Schema, t: Tables, c: Command, feed: Feed): (result: (Tables, DispatchOutcome)) {
    match HydrateTx(t, c.key.order)
    case None => (t, NeedsReview)
    case Some(s) =>
      var tx := match c.key.Kind()
                case SubmitOrder => SubmitTx(t, c)
                case CancelOrder => CancelTx(t, c)
                case ReconcileOrder =>
                  PersistTx(schema, t, c.account, s, PaperAdapter.ReconcileOrder(s, Quote(feed, s.order)));
      Outbox.UnderFault(t, tx, Outbox.NoCommitFault)
  }

  function MarkAt(t: Tables, i: nat, out: DispatchOutcome): Tables
    requires i < |t.commands|
  {
    t.(commands := t.commands[i := Mark(t.commands[i], out)])
  }

  lemma PersistKeepsCommands(schema: Schema, t: Tables, account: AccountId, s: ReconcileSnapshot, r: ReconcileResult)
    ensures PersistTx(schema, t, account, s, r).Committed? ==>
      PersistTx(schema, t, account, s, r).tables.commands == t.commands
  {
  }

  /** No dispatch removes commands. */
  lemma DispatchKeepsCommands(schema: Schema, t: Tables, c: Command, feed: Feed)
    ensures |Dispatch(schema, t, c, feed).0.commands| >= |t.commands|
  {
    if HydrateTx(t, c.key.order).Some? {
      var s := HydrateTx(t, c.key.order).value;
      PersistKeepsCommands(schema, t, c.account, s, PaperAdapter.ReconcileOrder(s, Quote(feed, s.order)));
    }
  }

  /** One claimed command: resolve the adapter, dispatch, mark. */
  function RunOne(schema: Schema, t: Tables, i: nat, feed: Feed): (t': Tables)
    requires i < |t.commands|
    ensures |t'.commands| >= |t.commands|
  {
    var c := t.commands[i];
    if c.mode.Live? then MarkAt(t, i, NeedsReview)
    else
      DispatchKeepsCommands(schema, t, c, feed);
      var (t1, out) := Dispatch(schema, t, c, feed);
      var t2 := MarkAt(t1, i, out);
      if out.PermanentReject? then RejectTx(t2, c.key.order) else t2
  }

  ghost predicate InTable(commands: seq<Command>, claimed: seq<nat>) {
    forall k :: 0 <= k < |claimed| ==> claimed[k] < |commands|
  }

  /** The claimed commands in turn; `feeds[k]` is the book when the k-th is dispatched. */
  ghost function RunClaimed(schema: Schema, t: Tables, claimed: seq<nat>, feeds: seq<Feed>): (t': Tables)
    requires InTable(t.commands, claimed) && |feeds| == |claimed|
    ensures |t'.commands| >= |t.commands|
    decreases |claimed|
  {
    if claimed == [] then t
    else
      var n := |claimed| - 1;
      RunOne(schema, RunClaimed(schema, t, claimed[..n], feeds[..n]), claimed[n], feeds[n])
  }

  ghost function RunPass(schema: Schema, t: Tables, claimed: seq<nat>, feeds: seq<Feed>, now: int): (t': Tables)
    requires InTable(t.commands, claimed) && |feeds| == |claimed|
  {
    RunClaimed(schema, t.(commands := LeaseAll(t.commands, claimed, now)), claimed, feeds)
  }

  function Repeat(feed: Feed, n: nat): seq<Feed> {
    seq(n, _ => feed)
  }

  // ----- where a pass gets its prices -----

  /** A recorded fill is at its order's side of the book, by a quote that was fresh
    and touched the limit. */
  predicate AtBook(feed: Feed, orders: map<OrderId, OrderRow>, fill: FillRow) {
    && fill.order in orders
    && var row := orders[fill.order];
       && row.symbol in feed.books
       && var top := feed.books[row.symbol];
          && feed.now - top.lastUpdate <= feed.maxAge
          && fill.fill.price == (if row.side.Buy? then top.ask else top.bid)
          && (row.orderType.Limit? ==>
                row.price.Some? && if row.side.Buy? then fill.fill.price <= row.price.value
                                   else fill.fill.price >= row.price.value)
  }

  /** Rows of orders and fills stay what they are while new ones are added at the book. */
  ghost predicate AddsAtBook(feed: Feed, t: Tables, t': Tables) {
    && t.orders.Keys <= t'.orders.Keys
    && (forall order :: order in t.orders ==> SameIdentity(t.orders[order], t'.orders[order]))
    && t.fills <= t'.fills
    && (forall j :: |t.fills| <= j < |t'.fills| ==> AtBook(feed, t'.orders, t'.fills[j]))
  }

  lemma AddsAtBookTransitive(feed: Feed, a: Tables, b: Tables, c: Tables)
    requires AddsAtBook(feed, a, b) && AddsAtBook(feed, b, c)
    ensures AddsAtBook(feed, a, c)
  {
    forall j | |a.fills| <= j < |c.fills|
      ensures AtBook(feed, c.orders, c.fills[j])
    {
      if j < |b.fills| {
        assert AtBook(feed, b.orders, b.fills[j]) && c.fills[j] == b.fills[j];
      }
    }
  }

  /** One dispatch, of whatever command. */
  lemma DispatchAddsAtBook(schema: Schema, t: Tables, c: Command, feed: Feed)
    requires c.mode.Paper?
    ensures AddsAtBook(feed, t, Dispatch(schema, t, c, feed).0)
  {
    if HydrateTx(t, c.key.order).Some? && c.key.Kind().ReconcileOrder? {
      var s := HydrateTx(t, c.key.order).value;
      var r := PaperAdapter.ReconcileOrder(s, Quote(feed, s.order));
      PersistAdds(schema, t, c.account, s, r, feed);
    }
  }

  lemma InsertedRows(rows: seq<FillRow>, account: AccountId, order: OrderId, fills: seq<Fill>)
    requires |fills| <= 1
    ensures match InsertFills(rows, account, order, fills)
      case None => true
      case Some((rows', _)) => rows' == rows || (|fills| == 1 && rows' == rows + [FillRow(account, order, fills[0])])
  {
    if |fills| == 1 {
      assert fills[..0] == [];
      assert InsertFills(rows, account, order, fills[..0]) == Some((rows, []));
    }
  }

  /** A committed pass changes no identity and adds what it inserted. */
  lemma PersistWrites(schema: Schema, t: Tables, account: AccountId, s: ReconcileSnapshot, r: ReconcileResult)
    requires PersistTx(schema, t, account, s, r).Committed?
    ensures var t' := PersistTx(schema, t, account, s, r).tables;
      && t'.orders.Keys == t.orders.Keys
      && (forall order :: order in t.orders ==> SameIdentity(t.orders[order], t'.orders[order]))
      && InsertFills(t.fills, account, s.order.orderId, r.fillsToAdd).Some?
      && t'.fills == InsertFills(t.fills, account, s.order.orderId, r.fillsToAdd).value.0
  {
  }

  lemma AnswerAtBook(account: AccountId, s: ReconcileSnapshot, feed: Feed, orders: map<OrderId, OrderRow>)
    requires s.order.orderId in orders
    requires var row, o := orders[s.order.orderId], s.order;
      o == OrderSnapshot(o.orderId, row.symbol, row.side, row.orderType, row.quantity, row.price, o.status)
    ensures var fills := PaperAdapter.ReconcileOrder(s, Quote(feed, s.order)).fillsToAdd;
      fills != [] ==> |fills| == 1 && AtBook(feed, orders, FillRow(account, s.order.orderId, fills[0]))
  {
  }

  lemma PersistAdds(schema: Schema, t: Tables, account: AccountId, s: ReconcileSnapshot, r: ReconcileResult, feed: Feed)
    requires HydrateTx(t, s.order.orderId) == Some(s) && r == PaperAdapter.ReconcileOrder(s, Quote(feed, s.order))
    ensures PersistTx(schema, t, account, s, r).Committed? ==>
      AddsAtBook(feed, t, PersistTx(schema, t, account, s, r).tables)
  {
    if PersistTx(schema, t, account, s, r).Committed? {
      var t' := PersistTx(schema, t, account, s, r).tables;
      PersistWrites(schema, t, account, s, r);
      assert SameIdentity(t.orders[s.order.orderId], t'.orders[s.order.orderId]);
      AnswerAtBook(account, s, feed, t'.orders);
      InsertedRows(t.fills, account, s.order.orderId, r.fillsToAdd);
    }
  }

  lemma RunOneAddsAtBook(schema: Schema, t: Tables, i: nat, feed: Feed)
    requires i < |t.commands|
    ensures AddsAtBook(feed, t, RunOne(schema, t, i, feed))
  {
    if t.commands[i].mode.Paper? {
      DispatchAddsAtBook(schema, t, t.commands[i], feed);
    }
  }

  /** Every fill that a pass adds is at the book of that pass: the ask for a buy, the
    bid for a sell, fresh, and within the limit. */
  lemma {:induction false} PassAddsAtBook(schema: Schema, t: Tables, claimed: seq<nat>, feed: Feed)
    requires InTable(t.commands, claimed)
    ensures AddsAtBook(feed, t, RunClaimed(schema, t, claimed, Repeat(feed, |claimed|)))
    decreases |claimed|
  {
    if claimed != [] {
      var n := |claimed| - 1;
      assert Repeat(feed, |claimed|)[..n] == Repeat(feed, n);
      PassAddsAtBook(schema, t, claimed[..n], feed);
      var mid := RunClaimed(schema, t, claimed[..n], Repeat(feed, n));
      RunOneAddsAtBook(schema, mid, claimed[n], feed);
      AddsAtBookTransitive(feed, t, mid, RunOne(schema, mid, claimed[n], feed));
    }
  }

  // ----- the same, statement by statement -----

  lemma {:induction false} InsertFillsPrefix(rows: seq<FillRow>, account: AccountId, order: OrderId,
                                             fills: seq<Fill>, k: nat)
    requires k <= |fills| && InsertFills(rows, account, order, fills[..k]).None?
    ensures InsertFills(rows, account, order, fills).None?
    decreases |fills|
  {
    if k == |fills| {
      assert fills[..k] == fills;
    } else {
      assert fills[..|fills| - 1][..k] == fills[..k];
      InsertFillsPrefix(rows, account, order, fills[..|fills| - 1], k);
    }
  }

  lemma {:induction false} ApplyDeltasPrefix(schema: Schema, ps: seq<Position>, account: AccountId,
                                             deltas: seq<PositionDelta>, fillPrice: int, k: nat)
    requires k <= |deltas| && ApplyDeltas(schema, ps, account, deltas[..k], fillPrice).None?
    ensures ApplyDeltas(schema, ps, account, deltas, fillPrice).None?
    decreases |deltas|
  {
    if k == |deltas| {
      assert deltas[..k] == deltas;
    } else {
      assert deltas[..|deltas| - 1][..k] == deltas[..k];
      ApplyDeltasPrefix(schema, ps, account, deltas[..|deltas| - 1], fillPrice, k);
    }
  }

  class Worker {
    const store: Store
    const market: MarketDataProvider

    constructor (store: Store, market: MarketDataProvider)
      ensures this.store == store && this.market == market
    {
      this.store := store;
      this.market := market;
    }

    method HydrateSnapshot(order: OrderId) returns (snapshot: Option<ReconcileSnapshot>)
      ensures snapshot == HydrateTx(store.View(), order)
    {
      var locked := store.LockOrder(order);
      if locked.None? {
        return None;
      }
      var row := locked.value;
      var fills := store.LoadFillsForOrder(order);
      return Some(ReconcileSnapshot(
                    OrderSnapshot(order, row.symbol, row.side, row.orderType, row.quantity, row.price, row.status),
                    fills));
    }

    /** The fills of a result, with those that were not there already. */
    method InsertAll(account: AccountId, order: OrderId, fills: seq<Fill>) returns (inserted: Result<seq<Fill>, ()>)
      modifies store`fills
      ensures match InsertFills(old(store.fills), account, order, fills)
        case None => inserted.Err?
        case Some((rows, new_)) => inserted == Ok(new_) && store.fills == rows
    {
      var added := [];
      for i := 0 to |fills|
        invariant InsertFills(old(store.fills), account, order, fills[..i]) == Some((store.fills, added))
      {
        assert fills[..i + 1][..i] == fills[..i];
        var isNew := store.InsertFill(account, order, fills[i]);
        if isNew.Err? {
          InsertFillsPrefix(old(store.fills), account, order, fills, i + 1);
          return Err(());
        }
        if isNew.value {
          added := added + [fills[i]];
        }
      }
      assert fills[..|fills|] == fills;
      return Ok(added);
    }

    method ApplyAll(account: AccountId, deltas: seq<PositionDelta>, fillPrice: int) returns (ok: bool)
      modifies store`positions
      ensures match ApplyDeltas(store.schema, old(store.positions), account, deltas, fillPrice)
        case None => !ok
        case Some(ps) => ok && store.positions == ps
    {
      for i := 0 to |deltas|
        invariant ApplyDeltas(store.schema, old(store.positions), account, deltas[..i], fillPrice)
          == Some(store.positions)
      {
        assert deltas[..i + 1][..i] == deltas[..i];
        ok := store.ApplyPositionDelta(account, deltas[i].symbol, deltas[i].quantityDelta, fillPrice);
        if !ok {
          ApplyDeltasPrefix(store.schema, old(store.positions), account, deltas, fillPrice, i + 1);
          return;
        }
      }
      assert deltas[..|deltas|] == deltas;
      ok := true;
    }

    /** The statements of persist_reconcile_result; unless it ends in Done its
      transaction is dropped without a commit. */
    method PersistStatements(account: AccountId, s: ReconcileSnapshot, r: ReconcileResult)
      returns (out: DispatchOutcome)
      modifies store
      ensures match PersistTx(store.schema, old(store.View()), account, s, r)
        case Committed(t) => out == Done && store.View() == t
        case Aborted(why) => out == why && out != Done
    {
      var order := s.order.orderId;
      var locked := store.LockOrder(order);
      if locked.None? {
        return Retry;
      }
      var row := locked.value;
      if row.filled != SumQuantity(s.fills) || row.status != s.order.status {
        return Retry;
      }
      var inserted := InsertAll(account, order, r.fillsToAdd);
      if inserted.Err? {
        return Retry;
      }
      if r.fillsToAdd != [] && inserted.value == [] {
        return NeedsReview;
      }
      var fillPrice := if inserted.value == [] then 0 else inserted.value[0].price;
      var applied := ApplyAll(account, r.positionsDelta, fillPrice);
      if !applied {
        return Retry;
      }
      if r.newStatus.Some? {
        if !Legal(row.status, r.newStatus.value) {
          return NeedsReview;
        }
        var ok := store.UpdateOrderStatus(order, r.newStatus.value, row.filled + SumQuantity(inserted.value));
        if !ok {
          return Retry;
        }
      }
      return Done;
    }

    method PersistReconcileResult(account: AccountId, s: ReconcileSnapshot, r: ReconcileResult)
      returns (out: DispatchOutcome)
      modifies store
      ensures match PersistTx(store.schema, old(store.View()), account, s, r)
        case Committed(t) => out == Done && store.View() == t
        case Aborted(why) => out == why && store.View() == old(store.View())
    {
      var before := store.View();
      out := PersistStatements(account, s, r);
      if !out.Done? {
        store.Restore(before);
      }
    }

    /** The second transaction of submit and cancel. */
    method Advance(c: Command, status: OrderStatus, followUp: Key) returns (out: DispatchOutcome)
      requires c.key.order in store.orders ==>
        FilledInRange(store.orders[c.key.order], store.orders[c.key.order].filled)
      modifies store
      ensures match AdvanceTx(old(store.View()), c, status, followUp)
        case Committed(t) => out == Done && store.View() == t
        case Aborted(why) => out == why && store.View() == old(store.View())
    {
      var locked := store.LockOrder(c.key.order);
      if locked.None? {
        return Retry;
      }
      if Legal(locked.value.status, status) {
        var _ := store.UpdateOrderStatus(c.key.order, status, locked.value.filled);
      }
      store.InsertExchangeCommand(c.account, followUp, c.mode);
      return Done;
    }

    method DispatchCommand(c: Command, now: int) returns (out: DispatchOutcome)
      requires c.key.order in store.orders ==>
        FilledInRange(store.orders[c.key.order], store.orders[c.key.order].filled)
      modifies store
      ensures (store.View(), out) == Dispatch(store.schema, old(store.View()), c, market.At(now))
    {
      var hydrated := HydrateSnapshot(c.key.order);
      if hydrated.None? {
        return NeedsReview;
      }
      var s := hydrated.value;
      match c.key.Kind() {
        case SubmitOrder =>
          out := Advance(c, Submitted, InitialKey(c.key.order));
        case CancelOrder =>
          out := Advance(c, CancelRequested, PostCancelKey(c.key.order));
        case ReconcileOrder =>
          var estimate := market.ConservativeEstimate(s.order.symbol, s.order.side.Buy?, now);
          var result := PaperAdapter.ReconcileOrder(s, estimate);
          out := PersistReconcileResult(c.account, s, result);
      }
    }

    /** After a permanent rejection. */
    method RejectOrder(order: OrderId)
      requires order in store.orders ==> FilledInRange(store.orders[order], store.orders[order].filled)
      modifies store
      ensures store.View() == RejectTx(old(store.View()), order)
      ensures store.orders == if order in old(store.orders) && old(store.orders)[order].status in {Pending, Submitted}
                              then old(store.orders)[order := old(store.orders)[order].(status := Rejected)]
                              else old(store.orders)
      ensures store.fills == old(store.fills) && store.commands == old(store.commands)
      ensures store.positions == old(store.positions)
    {
      var locked := store.LockOrder(order);
      if locked.Some? && Legal(locked.value.status, Rejected) {
        var _ := store.UpdateOrderStatus(order, Rejected, locked.value.filled);
      }
    }

    /** Every stored row satisfies the CHECKs of its table. */
    ghost predicate RowsInRange()
      reads store
    {
      forall order :: order in store.orders ==> FilledInRange(store.orders[order], store.orders[order].filled)
    }

    method HandleCommand(i: nat, now: int)
      requires i < |store.commands| && RowsInRange()
      modifies store
      ensures store.View() == RunOne(store.schema, old(store.View()), i, market.At(now))
      ensures RowsInRange()
    {
      var c := store.commands[i];
      if c.mode.Live? {
        store.MarkCommand(i, NeedsReview);
        return;
      }
      DispatchKeepsCommands(store.schema, store.View(), c, market.At(now));
      DispatchKeepsRange(store.schema, store.View(), c, market.At(now));
      var out := DispatchCommand(c, now);
      store.MarkCommand(i, out);
      if out.PermanentReject? {
        RejectOrder(c.key.order);
      }
    }

    /** run_once: claim a batch, then dispatch and mark each command in turn. */
    method RunOnce(batchSize: nat, now: int) returns (processed: nat)
      requires RowsInRange()
      modifies store
      ensures RowsInRange()
      ensures var claimed := ClaimFrom(old(store.commands), now, batchSize, 0);
        && processed == |claimed|
        && InTable(old(store.commands), claimed)
        && store.View() == RunPass(store.schema, old(store.View()), claimed, Repeat(market.At(now), |claimed|), now)
      ensures AddsAtBook(market.At(now), old(store.View()), store.View())
    {
      var claimed := store.ClaimPendingCommands(batchSize, now);
      ghost var leased := store.View();
      ghost var feed := market.At(now);
      processed := 0;
      while processed < |claimed|
        invariant 0 <= processed <= |claimed|
        invariant RowsInRange() && market.At(now) == feed
        invariant |store.commands| >= |leased.commands|
        invariant store.View()
          == RunClaimed(store.schema, leased, claimed[..processed], Repeat(feed, |claimed|)[..processed])
      {
        ghost var k := processed + 1;
        assert claimed[..k][..k - 1] == claimed[..k - 1];
        assert Repeat(feed, |claimed|)[..k][..k - 1] == Repeat(feed, |claimed|)[..k - 1];
        HandleCommand(claimed[processed], now);
        processed := processed + 1;
      }
      assert claimed[..|claimed|] == claimed;
      assert Repeat(feed, |claimed|)[..|claimed|] == Repeat(feed, |claimed|);
      PassAddsAtBook(store.schema, leased, claimed, feed);
    }
  }

  ghost predicate TablesInRange(t: Tables) {
    forall order :: order in t.orders ==> FilledInRange(t.orders[order], t.orders[order].filled)
  }

  /** No transaction writes a row its CHECKs would refuse. */
  lemma DispatchKeepsRange(schema: Schema, t: Tables, c: Command, feed: Feed)
    requires TablesInRange(t)
    ensures TablesInRange(Dispatch(schema, t, c, feed).0)
  {
    if HydrateTx(t, c.key.order).Some? && c.key.Kind().ReconcileOrder? {
      var s := HydrateTx(t, c.key.order).value;
      var r := PaperAdapter.ReconcileOrder(s, Quote(feed, s.order));
      PersistKeepsRange(schema, t, c.account, s, r);
    }
  }

  lemma PersistKeepsRange(schema: Schema, t: Tables, account: AccountId, s: ReconcileSnapshot, r: ReconcileResult)
    requires TablesInRange(t)
    ensures PersistTx(schema, t, account, s, r).Committed? ==> TablesInRange(PersistTx(schema, t, account, s, r).tables)
  {
  }
}
