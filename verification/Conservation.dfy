/** With the single worker loop of main.rs the positions table is conserved:
  the signed position is what was bought less what was sold. */
module Conservation {
  import opened Types
  import opened Positions
  import opened Ledger
  import opened Outbox
  import opened OutboxSafety
  import opened OutboxTheorems
  import opened Guarantees
  import opened AdapterContract
  import BinanceAdapter

  predicate Counts(orders: map<OrderId, OrderRow>, row: FillRow, account: AccountId, symbol: Symbol, side: OrderSide) {
    row.order in orders && orders[row.order].account == account
    && orders[row.order].symbol == symbol && orders[row.order].side == side
  }

  function Share(orders: map<OrderId, OrderRow>, row: FillRow, account: AccountId, symbol: Symbol,
                 side: OrderSide): int
  {
    if Counts(orders, row, account, symbol, side) then row.fill.quantity else 0
  }

  /** The total quantity of all fills on one side, over all orders of the account on the symbol. */
  function FilledTotal(orders: map<OrderId, OrderRow>, rows: seq<FillRow>, account: AccountId, symbol: Symbol,
                       side: OrderSide): int
    decreases |rows|
  {
    if rows == [] then 0
    else FilledTotal(orders, rows[..|rows| - 1], account, symbol, side)
         + Share(orders, rows[|rows| - 1], account, symbol, side)
  }

  function Bought(t: Tables, account: AccountId, symbol: Symbol): int {
    FilledTotal(t.orders, t.fills, account, symbol, Buy)
  }

  function Sold(t: Tables, account: AccountId, symbol: Symbol): int {
    FilledTotal(t.orders, t.fills, account, symbol, Sell)
  }

  ghost predicate Balanced(t: Tables, account: AccountId, symbol: Symbol) {
    Net(t.positions, account, symbol) == Bought(t, account, symbol) - Sold(t, account, symbol)
  }

  ghost predicate Conserved(t: Tables) {
    Valid(t.positions) && forall account, symbol :: Balanced(t, account, symbol)
  }

  /** Totals depend only on what never changes about an order. */
  lemma {:induction false} TotalStable(orders: map<OrderId, OrderRow>, orders': map<OrderId, OrderRow>,
                                       rows: seq<FillRow>, account: AccountId, symbol: Symbol, side: OrderSide)
    requires forall i :: 0 <= i < |rows| ==> rows[i].order in orders && rows[i].order in orders'
    requires forall order :: order in orders && order in orders' ==> SameIdentity(orders[order], orders'[order])
    ensures FilledTotal(orders', rows, account, symbol, side) == FilledTotal(orders, rows, account, symbol, side)
    decreases |rows|
  {
    if rows != [] {
      TotalStable(orders, orders', rows[..|rows| - 1], account, symbol, side);
    }
  }

  lemma TotalAppend(orders: map<OrderId, OrderRow>, rows: seq<FillRow>, row: FillRow, account: AccountId,
                    symbol: Symbol, side: OrderSide)
    ensures FilledTotal(orders, rows + [row], account, symbol, side)
      == FilledTotal(orders, rows, account, symbol, side) + Share(orders, row, account, symbol, side)
  {
    assert (rows + [row])[..|rows|] == rows;
  }

  lemma SameFillsStayConserved(t: Tables, t': Tables)
    requires TablesOk(t) && Conserved(t) && Evolves(t, t') && t'.fills == t.fills && t'.positions == t.positions
    ensures Conserved(t')
  {
    IdentitiesKept(t, t');
    forall account, symbol
      ensures Balanced(t', account, symbol)
    {
      assert Balanced(t, account, symbol);
      TotalStable(t.orders, t'.orders, t.fills, account, symbol, Buy);
      TotalStable(t.orders, t'.orders, t.fills, account, symbol, Sell);
    }
  }

  lemma IdentitiesKept(t: Tables, t': Tables)
    requires TablesOk(t) && Evolves(t, t')
    ensures forall i :: 0 <= i < |t.fills| ==> t.fills[i].order in t.orders
    ensures forall order :: order in t.orders ==> order in t'.orders && SameIdentity(t.orders[order], t'.orders[order])
  {
    forall i | 0 <= i < |t.fills|
      ensures t.fills[i].order in t.orders
    {
      assert FillRowOk(t.orders, t.fills[i]);
    }
    forall order | order in t.orders
      ensures order in t'.orders && SameIdentity(t.orders[order], t'.orders[order])
    {
      assert OrderEvolves(t, t', order);
    }
  }

  /** A committed pass adds the same signed quantity to the fills and to the position. */
  lemma PassConserves(schema: Schema, t: Tables, i: nat, s: ReconcileSnapshot, r: ReconcileResult,
                      positions: seq<Position>)
    requires TablesOk(t) && Conserved(t) && i < |t.commands|
    requires SnapshotOk(t, t.commands[i], s) && AnswerOk(t.commands[i], s, r)
    requires Persistable(schema, t, t.commands[i].account, s, r, positions)
    ensures Conserved(PersistedTables(t, t.commands[i].account, s, r, positions))
  {
    var c := t.commands[i];
    var t' := PersistedTables(t, c.account, s, r, positions);
    PersistKeeps(schema, t, i, s, r, t.positions, positions, positions) by {
      assert t.(positions := t.positions) == t;
    }
    assert CommandOk(t.orders, c);
    if r.fillsToAdd == [] {
      assert t.fills + [] == t.fills;
      SameFillsStayConserved(t, t');
    } else {
      var fill := r.fillsToAdd[0];
      var delta := Signed(s.order.side, fill.quantity);
      var price := FirstPrice(r.fillsToAdd);
      assert OneFill(c.mode, s, r);
      OneDelta(schema, t.positions, c.account, s.order.symbol, delta, price, positions);
      IdentitiesKept(t, t');
      forall account, symbol
        ensures Balanced(t', account, symbol)
      {
        assert Balanced(t, account, symbol);
        TotalStable(t.orders, t'.orders, t.fills, account, symbol, Buy);
        TotalStable(t.orders, t'.orders, t.fills, account, symbol, Sell);
        var row := FillRow(c.account, c.key.order, fill);
        TotalAppend(t'.orders, t.fills, row, account, symbol, Buy);
        TotalAppend(t'.orders, t.fills, row, account, symbol, Sell);
        if account != c.account || symbol != s.order.symbol {
          NetElsewhere(t.positions, positions, c.account, s.order.symbol, account, symbol);
        }
      }
    }
  }

  lemma OneDelta(schema: Schema, ps: seq<Position>, account: AccountId, symbol: Symbol, delta: int, price: int,
                 ps': seq<Position>)
    requires Valid(ps)
    requires ApplyDeltas(schema, ps, account, [PositionDelta(symbol, delta)], price) == Some(ps')
    ensures Valid(ps') && SameElsewhere(ps, ps', account, symbol)
    ensures Net(ps', account, symbol) == Net(ps, account, symbol) + delta
  {
    var deltas := [PositionDelta(symbol, delta)];
    assert deltas[..|deltas| - 1] == [];
    assert ApplyDeltas(schema, ps, account, [], price) == Some(ps);
    DeltaIsAddition(schema, ps, account, symbol, delta, price);
  }

  /** Only a committed reconcile pass writes fills or positions. */
  lemma OtherStepsLeaveFills(cfg: Config, w: World, e: Event)
    requires !(e.Commit? && InPhase(w, e.task) && w.tasks[e.task].phase.Answered?)
    ensures Step(cfg, w, e).t.fills == w.t.fills && Step(cfg, w, e).t.positions == w.t.positions
  {
  }

  lemma CommitConserves(cfg: Config, w: World, e: Event, s: ReconcileSnapshot, r: ReconcileResult,
                        resp: BinanceAdapter.Response)
    requires Inv(w) && Conserved(w.t) && cfg.serialPositions
    requires e.Commit? && InPhase(w, e.task) && w.tasks[e.task].phase == Answered(s, r, resp)
    ensures Conserved(Step(cfg, w, e).t)
  {
    var t', i := Step(cfg, w, e).t, w.tasks[e.task].command;
    CommitCases(cfg, w, e, s, r, resp);
    PersistAmongWorkersCases(cfg, w.t, w.t.commands[i], s, r, e.readPositions, e.leftPositions);
    if t' != w.t {
      PassConserves(cfg.schema, w.t, i, s, r, t'.positions);
    }
  }

  lemma StepConserves(cfg: Config, w: World, e: Event)
    requires Inv(w) && Conserved(w.t) && cfg.serialPositions
    ensures Conserved(Step(cfg, w, e).t)
  {
    if e.Commit? && InPhase(w, e.task) && w.tasks[e.task].phase.Answered? {
      var phase := w.tasks[e.task].phase;
      CommitConserves(cfg, w, e, phase.s, phase.r, phase.resp);
    } else {
      StepKeeps(cfg, w, e);
      OtherStepsLeaveFills(cfg, w, e);
      SameFillsStayConserved(w.t, Step(cfg, w, e).t);
    }
  }

  lemma {:induction false} ExecConserves(cfg: Config, w: World, run: seq<Event>)
    requires Inv(w) && Conserved(w.t) && cfg.serialPositions
    ensures Conserved(Exec(cfg, w, run).t)
    decreases |run|
  {
    if run != [] {
      ExecKeeps(cfg, w, run[..|run| - 1]);
      ExecConserves(cfg, w, run[..|run| - 1]);
      StepConserves(cfg, Exec(cfg, w, run[..|run| - 1]), run[|run| - 1]);
    }
  }

  /** Position conservation in every reachable state of a single-worker run,
    through crashes, re-claims, aborts and lost replies: at most one open row per
    account and symbol, of positive quantity, whose signed quantity is the total
    bought less the total sold. */
  lemma PositionConservation(cfg: Config, w: World, account: AccountId, symbol: Symbol)
    requires Reached(cfg, w) && cfg.serialPositions
    ensures Net(w.t.positions, account, symbol) == Bought(w.t, account, symbol) - Sold(w.t, account, symbol)
    ensures forall i :: 0 <= i < |w.t.positions| && IsOpen(w.t.positions[i], account, symbol) ==>
      && w.t.positions[i].quantity > 0
      && SignedQuantity(w.t.positions[i]) == Bought(w.t, account, symbol) - Sold(w.t, account, symbol)
    ensures forall i, j :: 0 <= i < |w.t.positions| && 0 <= j < |w.t.positions| ==>
      IsOpen(w.t.positions[i], account, symbol) && IsOpen(w.t.positions[j], account, symbol) ==> i == j
  {
    var run :| w == Exec(cfg, INITIAL, run);
    ExecConserves(cfg, INITIAL, run);
    assert Balanced(w.t, account, symbol);
    forall i | 0 <= i < |w.t.positions| && IsOpen(w.t.positions[i], account, symbol)
      ensures FindOpen(w.t.positions, account, symbol) == Some(i)
    {
      OpenIsUnique(w.t.positions, account, symbol, i);
    }
  }

  /** Totals do not depend on the order in which fills arrive. */
  lemma {:induction false} TotalsIgnoreOrder(orders: map<OrderId, OrderRow>, a: seq<FillRow>, b: seq<FillRow>,
                                             account: AccountId, symbol: Symbol, side: OrderSide)
    requires multiset(a) == multiset(b)
    ensures FilledTotal(orders, a, account, symbol, side) == FilledTotal(orders, b, account, symbol, side)
    decreases |a|
  {
    assert |multiset(a)| == |a| && |multiset(b)| == |b|;
    if a != [] {
      var i := RemoveLast(a, b);
      TotalsIgnoreOrder(orders, a[..|a| - 1], b[..i] + b[i + 1..], account, symbol, side);
      TotalAtIndex(orders, b, i, account, symbol, side);
    }
  }

  lemma OrdersOfFills(w: World, w': World)
    requires Inv(w) && Inv(w') && multiset(w.t.fills) == multiset(w'.t.fills)
    ensures forall i :: 0 <= i < |w.t.fills| ==> w.t.fills[i].order in w.t.orders && w.t.fills[i].order in w'.t.orders
  {
    forall i | 0 <= i < |w.t.fills|
      ensures w.t.fills[i].order in w.t.orders && w.t.fills[i].order in w'.t.orders
    {
      assert FillRowOk(w.t.orders, w.t.fills[i]);
      assert w.t.fills[i] in multiset(w'.t.fills);
      var j :| 0 <= j < |w'.t.fills| && w'.t.fills[j] == w.t.fills[i];
      assert FillRowOk(w'.t.orders, w'.t.fills[j]);
    }
  }

  /** The net position does not depend on the order in which fills arrive: two
    single-worker runs over the same orders that recorded the same fills, in
    whatever order and with whatever positions in between, end at the same
    signed position everywhere. */
  lemma NetIgnoresArrivalOrder(cfg: Config, w: World, cfg': Config, w': World, account: AccountId, symbol: Symbol)
    requires Reached(cfg, w) && Reached(cfg', w') && cfg.serialPositions && cfg'.serialPositions
    requires multiset(w.t.fills) == multiset(w'.t.fills)
    requires forall order :: order in w.t.orders && order in w'.t.orders ==>
      SameIdentity(w.t.orders[order], w'.t.orders[order])
    ensures Net(w.t.positions, account, symbol) == Net(w'.t.positions, account, symbol)
  {
    PositionConservation(cfg, w, account, symbol);
    PositionConservation(cfg', w', account, symbol);
    ReachedOk(cfg, w);
    ReachedOk(cfg', w');
    SideIgnoresArrivalOrder(w, w', account, symbol, Buy);
    SideIgnoresArrivalOrder(w, w', account, symbol, Sell);
  }

  lemma SideIgnoresArrivalOrder(w: World, w': World, account: AccountId, symbol: Symbol, side: OrderSide)
    requires Inv(w) && Inv(w') && multiset(w.t.fills) == multiset(w'.t.fills)
    requires forall order :: order in w.t.orders && order in w'.t.orders ==>
      SameIdentity(w.t.orders[order], w'.t.orders[order])
    ensures FilledTotal(w.t.orders, w.t.fills, account, symbol, side)
      == FilledTotal(w'.t.orders, w'.t.fills, account, symbol, side)
  {
    OrdersOfFills(w, w');
    TotalStable(w.t.orders, w'.t.orders, w.t.fills, account, symbol, side);
    TotalsIgnoreOrder(w'.t.orders, w.t.fills, w'.t.fills, account, symbol, side);
  }

  lemma {:induction false} TotalAtIndex(orders: map<OrderId, OrderRow>, rows: seq<FillRow>, i: nat,
                                        account: AccountId, symbol: Symbol, side: OrderSide)
    requires i < |rows|
    ensures FilledTotal(orders, rows, account, symbol, side)
      == FilledTotal(orders, rows[..i] + rows[i + 1..], account, symbol, side)
         + Share(orders, rows[i], account, symbol, side)
    decreases |rows|
  {
    var n := |rows| - 1;
    var rest, front, last := rows[..i] + rows[i + 1..], rows[..n], rows[n];
    if i == n {
      assert rest == front;
    } else {
      var shorter := front[..i] + front[i + 1..];
      TotalAtIndex(orders, front, i, account, symbol, side);
      assert rest == shorter + [last];
      TotalAppend(orders, shorter, last, account, symbol, side);
    }
  }
}
