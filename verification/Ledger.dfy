/** The tables and what each transaction does to them, as functions on values
  (db.rs, outbox_worker.rs, routes_orders.rs). `Store` and `Worker` carry out
  the same transactions statement by statement. */
module Ledger {
  import opened Types
  import opened OrderState
  import opened Positions

  datatype OrderRow = OrderRow(
    account: AccountId, symbol: Symbol, side: OrderSide, orderType: OrderType, quantity: int,
    price: Option<int>, mode: ExchangeMode, status: OrderStatus, filled: int)

  datatype FillRow = FillRow(account: AccountId, order: OrderId, fill: Fill)

  datatype CommandKind = SubmitOrder | CancelOrder | ReconcileOrder

  /** `Queued` is the table's 'pending'. */
  datatype CommandStatus = Queued | Leased | Delivered | ReconciliationRequired | PermanentlyRejected

  /** Idempotency keys: `{order}:submit`, `{order}:reconcile:initial`,
    `{order}:reconcile:post-cancel`. No route enqueues cancels yet; their key is
    whatever the caller chooses. */
  datatype Key =
    | SubmitKey(order: OrderId)
    | CancelKey(order: OrderId, request: nat)
    | InitialKey(order: OrderId)
    | PostCancelKey(order: OrderId)
  {
    function Kind(): CommandKind {
      match this
      case SubmitKey(_) => SubmitOrder
      case CancelKey(_, _) => CancelOrder
      case _ => ReconcileOrder
    }
  }

  /** Rows are kept in insertion order, which is the order of `created_at`. */
  datatype Command = Command(
    account: AccountId, key: Key, mode: ExchangeMode, status: CommandStatus, attempts: nat, leasedUntil: int)

  datatype Tables = Tables(
    orders: map<OrderId, OrderRow>, fills: seq<FillRow>, commands: seq<Command>, positions: seq<Position>)

  /** How a dispatch ends: Ok(()), or one of the three `DispatchOutcome`s. */
  datatype DispatchOutcome = Done | Retry | PermanentReject | NeedsReview

  /** A transaction commits new tables, or leaves them alone and reports why. */
  datatype Tx = Committed(tables: Tables) | Aborted(why: DispatchOutcome)

  // ----- order_fills -----

  function FillsOf(rows: seq<FillRow>, order: OrderId): seq<Fill> {
    if rows == [] then []
    else
      var last := rows[|rows| - 1];
      FillsOf(rows[..|rows| - 1], order) + if last.order == order then [last.fill] else []
  }

  /** The unique index on (account, exchange_trade_id). */
  predicate TradeIdTaken(rows: seq<FillRow>, account: AccountId, tradeId: TradeId) {
    exists i :: 0 <= i < |rows| && rows[i].account == account && rows[i].fill.tradeId == tradeId
  }

  /** None is a CHECK violation; a duplicate trade id is ignored and reported false. */
  function InsertFill(rows: seq<FillRow>, account: AccountId, order: OrderId, fill: Fill)
    : Option<(seq<FillRow>, bool)>
  {
    if fill.quantity <= 0 || fill.price <= 0 then None
    else if TradeIdTaken(rows, account, fill.tradeId) then Some((rows, false))
    else Some((rows + [FillRow(account, order, fill)], true))
  }

  /** All fills of a result in order, with those actually inserted. */
  function InsertFills(rows: seq<FillRow>, account: AccountId, order: OrderId, fills: seq<Fill>)
    : Option<(seq<FillRow>, seq<Fill>)>
    decreases |fills|
  {
    if fills == [] then Some((rows, []))
    else
      var last := fills[|fills| - 1];
      match InsertFills(rows, account, order, fills[..|fills| - 1])
      case None => None
      case Some((rows1, inserted)) =>
        match InsertFill(rows1, account, order, last)
        case None => None
        case Some((rows2, isNew)) => Some((rows2, if isNew then inserted + [last] else inserted))
  }

  // ----- exchange_commands -----

  predicate HasKey(commands: seq<Command>, key: Key) {
    exists i :: 0 <= i < |commands| && commands[i].key == key
  }

  predicate KeyTaken(commands: seq<Command>, account: AccountId, key: Key) {
    exists i :: 0 <= i < |commands| && commands[i].account == account && commands[i].key == key
  }

  /** ON CONFLICT (account_id, idempotency_key) DO NOTHING. */
  function InsertCommand(commands: seq<Command>, account: AccountId, key: Key, mode: ExchangeMode): seq<Command> {
    if KeyTaken(commands, account, key) then commands
    else commands + [Command(account, key, mode, Queued, 0, 0)]
  }

  predicate Claimable(c: Command, now: int) {
    c.status.Queued? || (c.status.Leased? && c.leasedUntil < now)
  }

  /** Still to be worked on, now or when its lease has run out. */
  predicate Unfinished(c: Command) {
    c.status.Queued? || c.status.Leased?
  }

  const LEASE_SECONDS := 30

  function Lease(c: Command, now: int): Command {
    c.(status := Leased, leasedUntil := now + LEASE_SECONDS)
  }

  /** The write that follows a dispatch: mark_command_* or requeue_command.
    Neither looks at who holds the lease. */
  function Mark(c: Command, out: DispatchOutcome): Command {
    match out
    case Done => c.(status := Delivered)
    case Retry => c.(status := Queued, leasedUntil := 0, attempts := c.attempts + 1)
    case PermanentReject => c.(status := PermanentlyRejected)
    case NeedsReview => c.(status := ReconciliationRequired)
  }

  // ----- transactions -----

  /** The CHECKs of migration 0006 that a status update can violate. */
  predicate FilledInRange(row: OrderRow, filled: int) {
    0 <= filled <= row.quantity
  }

  /** place_order after approval: the order and its submit command together. */
  function PlaceOrderTx(t: Tables, order: OrderId, row: OrderRow): Tables
    requires order !in t.orders
  {
    t.(orders := t.orders[order := row],
       commands := InsertCommand(t.commands, row.account, SubmitKey(order), row.mode))
  }

  /** The first transaction of every dispatch; None when the order is not found. */
  function HydrateTx(t: Tables, order: OrderId): Option<ReconcileSnapshot> {
    if order !in t.orders then None
    else
      var row := t.orders[order];
      Some(ReconcileSnapshot(
             OrderSnapshot(order, row.symbol, row.side, row.orderType, row.quantity, row.price, row.status),
             FillsOf(t.fills, order)))
  }

  function SetStatus(t: Tables, order: OrderId, status: OrderStatus): Tables
    requires order in t.orders
  {
    t.(orders := t.orders[order := t.orders[order].(status := status)])
  }

  /** Move the order to `status` when that is legal, and enqueue the follow-up
    either way: the second transaction of submit and of cancel. */
  function AdvanceTx(t: Tables, c: Command, status: OrderStatus, followUp: Key): Tx {
    var order := c.key.order;
    if order !in t.orders then Aborted(Retry)
    else
      var moved := if Legal(t.orders[order].status, status) then SetStatus(t, order, status) else t;
      Committed(moved.(commands := InsertCommand(moved.commands, c.account, followUp, c.mode)))
  }

  function SubmitTx(t: Tables, c: Command): Tx {
    AdvanceTx(t, c, Submitted, InitialKey(c.key.order))
  }

  function CancelTx(t: Tables, c: Command): Tx {
    AdvanceTx(t, c, CancelRequested, PostCancelKey(c.key.order))
  }

  /** After a permanent rejection the order itself is rejected, when that is legal. */
  function RejectTx(t: Tables, order: OrderId): Tables {
    if order in t.orders && Legal(t.orders[order].status, Rejected) then SetStatus(t, order, Rejected) else t
  }

  function ApplyDeltas(schema: Schema, ps: seq<Position>, account: AccountId, deltas: seq<PositionDelta>,
                       fillPrice: int): Option<seq<Position>>
    decreases |deltas|
  {
    if deltas == [] then Some(ps)
    else
      var last := deltas[|deltas| - 1];
      match ApplyDeltas(schema, ps, account, deltas[..|deltas| - 1], fillPrice)
      case None => None
      case Some(ps1) => ApplyDelta(schema, ps1, account, last.symbol, last.quantityDelta, fillPrice)
  }

  /** The optimistic test: the locked order still has the filled sum and the
    status the snapshot was taken at. */
  predicate Fresh(row: OrderRow, s: ReconcileSnapshot) {
    row.filled == SumQuantity(s.fills) && row.status == s.order.status
  }

  function FirstPrice(fills: seq<Fill>): int {
    if fills == [] then 0 else fills[0].price
  }

  /** persist_reconcile_result: everything or nothing. */
  function PersistTx(schema: Schema, t: Tables, account: AccountId, s: ReconcileSnapshot, r: ReconcileResult): Tx {
    var order := s.order.orderId;
    if order !in t.orders then Aborted(Retry)
    else
      var row := t.orders[order];
      if !Fresh(row, s) then Aborted(Retry)
      else
        match InsertFills(t.fills, account, order, r.fillsToAdd)
        case None => Aborted(Retry)
        case Some((fills, inserted)) =>
          if r.fillsToAdd != [] && inserted == [] then Aborted(NeedsReview)
          else
            match ApplyDeltas(schema, t.positions, account, r.positionsDelta, FirstPrice(inserted))
            case None => Aborted(Retry)
            case Some(positions) =>
              PersistStatus(t.(fills := fills, positions := positions), order, r.newStatus,
                            row.filled + SumQuantity(inserted))
  }

  /** The last part: the status change, checked against the lifecycle. */
  function PersistStatus(t: Tables, order: OrderId, newStatus: Option<OrderStatus>, filled: int): Tx
    requires order in t.orders
  {
    var row := t.orders[order];
    match newStatus
    case None => Committed(t)
    case Some(status) =>
      if !Legal(row.status, status) then Aborted(NeedsReview)
      else if !FilledInRange(row, filled) then Aborted(Retry)
      else Committed(t.(orders := t.orders[order := row.(status := status, filled := filled)]))
  }

  function ClassifyError(err: ExchangeError): DispatchOutcome {
    match err
    case InsufficientBalance => PermanentReject
    case FilterViolation => PermanentReject
    case SymbolNotFound => PermanentReject
    case _ => Retry
  }

  // ----- basic facts -----

  lemma FillsOfAppend(rows: seq<FillRow>, row: FillRow, order: OrderId)
    ensures FillsOf(rows + [row], order)
      == FillsOf(rows, order) + if row.order == order then [row.fill] else []
  {
    assert (rows + [row])[..|rows|] == rows;
  }

  lemma KeysAfterInsert(commands: seq<Command>, account: AccountId, key: Key, mode: ExchangeMode, other: Key)
    requires forall i :: 0 <= i < |commands| && commands[i].key == key ==> commands[i].account == account
    ensures HasKey(InsertCommand(commands, account, key, mode), other)
      <==> HasKey(commands, other) || other == key
  {
    var after := InsertCommand(commands, account, key, mode);
    if HasKey(commands, other) {
      var i :| 0 <= i < |commands| && commands[i].key == other;
      assert after[i].key == other;
    }
    if other == key && after != commands {
      assert after[|commands|].key == key;
    }
  }
}
