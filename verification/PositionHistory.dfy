/** With the single worker loop the positions table is the history of the fills:
  each fill, in the order of the rows, is one delta. */
module PositionHistory {
  import opened Types
  import opened Positions
  import opened Ledger
  import opened Outbox
  import opened OutboxSafety
  import opened OutboxTheorems
  import opened Guarantees
  import opened AdapterContract
  import opened Conservation

  function OpOf(orders: map<OrderId, OrderRow>, row: FillRow): Op {
    if row.order !in orders then Op(row.account, "", 0, row.fill.price)
    else
      var order := orders[row.order];
      Op(row.account, order.symbol, Signed(order.side, row.fill.quantity), row.fill.price)
  }

  function OpsOf(orders: map<OrderId, OrderRow>, rows: seq<FillRow>): (ops: seq<Op>)
    ensures |ops| == |rows|
  {
    seq(|rows|, i requires 0 <= i < |rows| => OpOf(orders, rows[i]))
  }

  ghost predicate Replayed(schema: Schema, t: Tables) {
    t.positions == ApplyOps(schema, [], OpsOf(t.orders, t.fills))
  }

  lemma SameFillsStayReplayed(schema: Schema, t: Tables, t': Tables)
    requires TablesOk(t) && Replayed(schema, t) && Evolves(t, t') && t'.fills == t.fills && t'.positions == t.positions
    ensures Replayed(schema, t')
  {
    IdentitiesKept(t, t');
    assert OpsOf(t'.orders, t'.fills) == OpsOf(t.orders, t.fills);
  }

  lemma PassReplays(schema: Schema, t: Tables, i: nat, s: ReconcileSnapshot, r: ReconcileResult,
                    positions: seq<Position>)
    requires TablesOk(t) && Replayed(schema, t) && i < |t.commands|
    requires SnapshotOk(t, t.commands[i], s) && AnswerOk(t.commands[i], s, r)
    requires Persistable(schema, t, t.commands[i].account, s, r, positions)
    ensures Replayed(schema, PersistedTables(t, t.commands[i].account, s, r, positions))
  {
    var c := t.commands[i];
    var t' := PersistedTables(t, c.account, s, r, positions);
    PersistKeeps(schema, t, i, s, r, t.positions, positions, positions) by {
      assert t.(positions := t.positions) == t;
    }
    if r.fillsToAdd == [] {
      assert t.fills + [] == t.fills;
      SameFillsStayReplayed(schema, t, t');
    } else {
      FillReplays(schema, t, c, s, r, positions, t');
    }
  }

  lemma FillReplays(schema: Schema, t: Tables, c: Command, s: ReconcileSnapshot, r: ReconcileResult,
                    positions: seq<Position>, t': Tables)
    requires TablesOk(t) && Replayed(schema, t) && SnapshotOk(t, c, s) && AnswerOk(c, s, r)
    requires Persistable(schema, t, c.account, s, r, positions) && r.fillsToAdd != []
    requires t' == PersistedTables(t, c.account, s, r, positions) && Evolves(t, t')
    ensures Replayed(schema, t')
  {
    assert OneFill(c.mode, s, r);
    var row, delta := FillRow(c.account, c.key.order, r.fillsToAdd[0]), r.positionsDelta[0];
    IdentitiesKept(t, t');
    var ops, op := OpsOf(t.orders, t.fills), OpOf(t.orders, row);
    assert OpsOf(t'.orders, t'.fills) == ops + [op];
    assert (ops + [op])[..|ops|] == ops;
    assert r.positionsDelta[..0] == [];
    assert ApplyDeltas(schema, t.positions, c.account, [], row.fill.price) == Some(t.positions);
    assert ApplyDelta(schema, t.positions, c.account, delta.symbol, delta.quantityDelta, row.fill.price)
      == Some(positions);
  }

  lemma StepReplays(cfg: Config, w: World, e: Event)
    requires Inv(w) && Replayed(cfg.schema, w.t) && cfg.serialPositions
    ensures Replayed(cfg.schema, Step(cfg, w, e).t)
  {
    if e.Commit? && InPhase(w, e.task) && w.tasks[e.task].phase.Answered? {
      CommitReplays(cfg, w, e);
    } else {
      StepKeeps(cfg, w, e);
      OtherStepsLeaveFills(cfg, w, e);
      SameFillsStayReplayed(cfg.schema, w.t, Step(cfg, w, e).t);
    }
  }

  lemma CommitReplays(cfg: Config, w: World, e: Event)
    requires Inv(w) && Replayed(cfg.schema, w.t) && cfg.serialPositions
    requires e.Commit? && InPhase(w, e.task) && w.tasks[e.task].phase.Answered?
    ensures Replayed(cfg.schema, Step(cfg, w, e).t)
  {
    var phase, i, t' := w.tasks[e.task].phase, w.tasks[e.task].command, Step(cfg, w, e).t;
    CommitCases(cfg, w, e, phase.s, phase.r, phase.resp);
    PersistAmongWorkersCases(cfg, w.t, w.t.commands[i], phase.s, phase.r, e.readPositions, e.leftPositions);
    if t' != w.t {
      PassReplays(cfg.schema, w.t, i, phase.s, phase.r, t'.positions);
    }
  }

  lemma {:induction false} PositionsReplayFills(cfg: Config, run: seq<Event>)
    requires cfg.serialPositions
    ensures Replayed(cfg.schema, Exec(cfg, INITIAL, run).t)
    decreases |run|
  {
    if run != [] {
      ExecKeeps(cfg, INITIAL, run[..|run| - 1]);
      PositionsReplayFills(cfg, run[..|run| - 1]);
      StepReplays(cfg, Exec(cfg, INITIAL, run[..|run| - 1]), run[|run| - 1]);
    } else {
      assert OpsOf(map[], []) == [];
    }
  }

  /** In every reachable state of a single-worker run, an open position carries the
    price of the recorded fill that last opened it from flat or turned it around,
    whatever fills came after. */
  lemma ReachedEntryPrice(cfg: Config, w: World, account: AccountId, symbol: Symbol)
    requires Reached(cfg, w) && cfg.serialPositions
    ensures var ops := OpsOf(w.t.orders, w.t.fills);
      var nets, at := NetHistory(cfg.schema, [], ops, account, symbol), FindOpen(w.t.positions, account, symbol);
      at.Some? ==> exists j: nat :: LastOpening(nets, ops, j, account, symbol)
                                    && w.t.positions[at.value].entryPrice == w.t.fills[j].fill.price
  {
    var run :| w == Exec(cfg, INITIAL, run);
    PositionsReplayFills(cfg, run);
    var ops := OpsOf(w.t.orders, w.t.fills);
    EntryPriceHistory(cfg.schema, [], ops, account, symbol);
    var nets, at := NetHistory(cfg.schema, [], ops, account, symbol), FindOpen(w.t.positions, account, symbol);
    if at.Some? {
      var j: nat :| LastOpening(nets, ops, j, account, symbol)
                    && w.t.positions[at.value].entryPrice == ops[j].fillPrice;
      assert ops[j].fillPrice == w.t.fills[j].fill.price;
    }
  }
}
