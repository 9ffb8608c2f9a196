/** The outbox protocol as a step system: any number of workers, each claimed
  command a task of its own, every transaction one atomic step, and everything
  that can go wrong between two steps a step too. */
module Outbox {
  import opened Types
  import opened Positions
  import opened Ledger
  import opened MarketData
  import PaperAdapter
  import BinanceAdapter

  /** `serialPositions` is the single worker loop of main.rs: no other pass reads
    or writes a position between the read and the write of this one. Without it
    a pass may act on any stale position and leave any rows for its symbol. */
  datatype Config = Config(schema: Schema, paper: bool, live: bool, serialPositions: bool)

  /** Where the dispatch of one claimed command stands. `resp` is the response a
    live answer was computed from; the paper adapter does not look at it. */
  datatype Phase =
    | Claimed
    | Hydrated(s: ReconcileSnapshot)
    | Accepted
    | Answered(s: ReconcileSnapshot, r: ReconcileResult, resp: BinanceAdapter.Response)
    | Finished(out: DispatchOutcome)
    | Rejecting

  datatype Task = Task(command: nat, phase: Phase)

  /** `executed` is the exchange's own executed quantity per live order. */
  datatype World = World(t: Tables, tasks: map<nat, Task>, now: int, executed: map<OrderId, int>)

  /** What a read-only database step can suffer: an error on the row lock is
    escalated, any other error is retried. */
  datatype ReadFault = NoReadFault | LockError | ReadError

  /** What a commit can suffer: an abort that is noticed, a commit whose reply is
    lost, or an abort that the worker takes for success. The last strikes only a
    transaction with a statement whose error is ignored (`IgnoresAnError`). */
  datatype CommitFault = NoCommitFault | NoticedAbort | LostReply | SilentAbort

  datatype Event =
    | PlaceOrder(order: OrderId, row: OrderRow)
    | RequestCancel(order: OrderId, request: nat)
    | Tick(elapsed: nat)
    | Execute(order: OrderId, quantity: nat)
    | Claim(command: nat, task: nat)
    | Hydrate(task: nat, readFault: ReadFault)
    | Respond(task: nat, estimate: Option<Estimate>, resp: BinanceAdapter.Response)
    | Refuse(task: nat, err: ExchangeError)
    | Commit(task: nat, commitFault: CommitFault, readPositions: seq<Position>, leftPositions: seq<Position>)
    | MarkCommand(task: nat, dropped: bool)
    | RejectOrder(task: nat, dropped: bool)
    | Crash(task: nat)

  predicate Placeable(row: OrderRow) {
    row.status.Pending? && row.filled == 0 && row.quantity > 0 && (row.price.Some? ==> row.price.value > 0)
  }

  predicate Resolves(cfg: Config, mode: ExchangeMode) {
    if mode.Paper? then cfg.paper else cfg.live
  }

  predicate InPhase(w: World, task: nat) {
    task in w.tasks && w.tasks[task].command < |w.t.commands|
  }

  function CommandOf(w: World, task: nat): Command
    requires InPhase(w, task)
  {
    w.t.commands[w.tasks[task].command]
  }

  function SetPhase(w: World, task: nat, phase: Phase): World
    requires task in w.tasks
  {
    w.(tasks := w.tasks[task := w.tasks[task].(phase := phase)])
  }

  function Executed(w: World, order: OrderId): int {
    if order in w.executed then w.executed[order] else 0
  }

  /** persist_reconcile_result among other workers: the order rows are locked,
    the position row is not. */
  function PersistAmongWorkers(cfg: Config, t: Tables, account: AccountId, s: ReconcileSnapshot,
                               r: ReconcileResult, readPositions: seq<Position>, leftPositions: seq<Position>): Tx
  {
    if cfg.serialPositions then PersistTx(cfg.schema, t, account, s, r)
    else
      match PersistTx(cfg.schema, t.(positions := readPositions), account, s, r)
      case Aborted(why) => Aborted(why)
      case Committed(t1) =>
        if r.positionsDelta == [] then Committed(t1.(positions := t.positions))
        else if LeftBehind(t.positions, leftPositions, account, s.order.symbol)
        then Committed(t1.(positions := leftPositions))
        else Aborted(Retry)
  }

  /** Racing passes may leave anything on their own account and symbol, and nothing elsewhere. */
  predicate LeftBehind(ps: seq<Position>, left: seq<Position>, account: AccountId, symbol: Symbol) {
    && |ps| <= |left|
    && (forall i :: 0 <= i < |ps| ==>
          if ps[i].account == account && ps[i].symbol == symbol
          then left[i].account == account && left[i].symbol == symbol
          else left[i] == ps[i])
    && (forall i :: |ps| <= i < |left| ==> left[i].account == account && left[i].symbol == symbol)
  }

  /** The second transaction of a dispatch, fault-free. */
  function SecondTx(cfg: Config, t: Tables, c: Command, phase: Phase, readPositions: seq<Position>,
                    leftPositions: seq<Position>): Tx
    requires phase.Accepted? || phase.Answered?
  {
    match phase
    case Answered(s, r, _) => PersistAmongWorkers(cfg, t, c.account, s, r, readPositions, leftPositions)
    case Accepted => if c.key.Kind().CancelOrder? then CancelTx(t, c) else SubmitTx(t, c)
  }

  /** What becomes of a transaction under a fault. */
  function UnderFault(t: Tables, tx: Tx, fault: CommitFault): (Tables, DispatchOutcome) {
    match tx
    case Aborted(why) => (t, why)
    case Committed(t') =>
      match fault
      case NoCommitFault => (t', Done)
      case NoticedAbort => (t, Retry)
      case LostReply => (t', Retry)
      case SilentAbort => (t, Done)
  }

  /** The event inserts of persist_reconcile_result are the only statements whose
    errors are dropped (outbox_worker.rs:291-293); every adapter attaches an event
    exactly to a result with a status. Submit and cancel notice every error. */
  predicate IgnoresAnError(phase: Phase) {
    phase.Answered? && phase.r.newStatus.Some?
  }

  function HydratePhase(cfg: Config, t: Tables, c: Command, fault: ReadFault): Phase {
    if !Resolves(cfg, c.mode) then Finished(NeedsReview)
    else
      match fault
      case LockError => Finished(NeedsReview)
      case ReadError => Finished(Retry)
      case NoReadFault =>
        match HydrateTx(t, c.key.order)
        case None => Finished(NeedsReview)
        case Some(s) => Hydrated(s)
  }

  /** The adapter's answer. Both adapters accept every submit and cancel; the
    paper adapter never fails. */
  function RespondPhase(c: Command, s: ReconcileSnapshot, estimate: Option<Estimate>,
                        resp: BinanceAdapter.Response): Phase
  {
    if !c.key.Kind().ReconcileOrder? then Accepted
    else if c.mode.Paper? then Answered(s, PaperAdapter.ReconcileOrder(s, estimate), resp)
    else
      match BinanceAdapter.ReconcileOrder(s, resp)
      case Ok(r) => Answered(s, r, resp)
      case Err(err) => Finished(ClassifyError(err))
  }

  /** A failing live call: cancels are always retried, the rest is classified. */
  function RefusePhase(c: Command, err: ExchangeError): Phase {
    if c.key.Kind().CancelOrder? then Finished(Retry) else Finished(ClassifyError(err))
  }

  /** One step. An event that is not enabled changes nothing, so every sequence
    of events is a run. */
  function Step(cfg: Config, w: World, e: Event): World {
    match e
    case PlaceOrder(order, row) =>
      if order in w.t.orders || !Placeable(row) then w else w.(t := PlaceOrderTx(w.t, order, row))
    case RequestCancel(order, request) =>
      if order !in w.t.orders then w
      else
        var row := w.t.orders[order];
        w.(t := w.t.(commands := InsertCommand(w.t.commands, row.account, CancelKey(order, request), row.mode)))
    case Tick(elapsed) => w.(now := w.now + elapsed)
    case Execute(order, quantity) => w.(executed := w.executed[order := Executed(w, order) + quantity])
    case Claim(command, task) =>
      if command >= |w.t.commands| || task in w.tasks || !Claimable(w.t.commands[command], w.now) then w
      else w.(t := w.t.(commands := w.t.commands[command := Lease(w.t.commands[command], w.now)]),
              tasks := w.tasks[task := Task(command, Claimed)])
    case Hydrate(task, fault) =>
      if !InPhase(w, task) || !w.tasks[task].phase.Claimed? then w
      else SetPhase(w, task, HydratePhase(cfg, w.t, CommandOf(w, task), fault))
    case Respond(task, estimate, resp) =>
      if !InPhase(w, task) || !w.tasks[task].phase.Hydrated? then w
      else SetPhase(w, task, RespondPhase(CommandOf(w, task), w.tasks[task].phase.s, estimate, resp))
    case Refuse(task, err) =>
      if !InPhase(w, task) || !w.tasks[task].phase.Hydrated? || CommandOf(w, task).mode.Paper? then w
      else SetPhase(w, task, RefusePhase(CommandOf(w, task), err))
    case Commit(task, fault, readPositions, leftPositions) =>
      if !InPhase(w, task) || !(w.tasks[task].phase.Accepted? || w.tasks[task].phase.Answered?) then w
      else if fault.SilentAbort? && !IgnoresAnError(w.tasks[task].phase) then w
      else
        var tx := SecondTx(cfg, w.t, CommandOf(w, task), w.tasks[task].phase, readPositions, leftPositions);
        var (t', out) := UnderFault(w.t, tx, fault);
        SetPhase(w.(t := t'), task, Finished(out))
    case MarkCommand(task, dropped) =>
      if !InPhase(w, task) || !w.tasks[task].phase.Finished? then w
      else
        var out := w.tasks[task].phase.out;
        var i := w.tasks[task].command;
        var w1 := if dropped then w
                  else w.(t := w.t.(commands := w.t.commands[i := Mark(w.t.commands[i], out)]));
        if out.PermanentReject? then SetPhase(w1, task, Rejecting) else w1.(tasks := w1.tasks - {task})
    case RejectOrder(task, dropped) =>
      if !InPhase(w, task) || !w.tasks[task].phase.Rejecting? then w
      else
        var t' := if dropped then w.t else RejectTx(w.t, CommandOf(w, task).key.order);
        w.(t := t', tasks := w.tasks - {task})
    case Crash(task) => w.(tasks := w.tasks - {task})
  }

  /** The world after a run. */
  function Exec(cfg: Config, w: World, run: seq<Event>): World
    decreases |run|
  {
    if run == [] then w else Step(cfg, Exec(cfg, w, run[..|run| - 1]), run[|run| - 1])
  }

  /** For the paper adapter, which does not look at it. */
  const NO_RESPONSE := BinanceAdapter.Response(None, None, None, None)

  const INITIAL := World(Tables(map[], [], [], []), map[], 0, map[])

  /** The worlds some run from the empty database leads to. */
  ghost predicate Reached(cfg: Config, w: World) {
    exists run :: w == Exec(cfg, INITIAL, run)
  }

  lemma {:induction false} ExecAppend(cfg: Config, w: World, run: seq<Event>, more: seq<Event>)
    ensures Exec(cfg, w, run + more) == Exec(cfg, Exec(cfg, w, run), more)
    decreases |more|
  {
    if more == [] {
      assert run + more == run;
    } else {
      assert (run + more)[..|run + more| - 1] == run + more[..|more| - 1];
      ExecAppend(cfg, w, run, more[..|more| - 1]);
    }
  }

  lemma ExecOne(cfg: Config, w: World, e: Event)
    ensures Exec(cfg, w, [e]) == Step(cfg, w, e)
  {
    assert [e][..0] == [];
    assert Exec(cfg, w, []) == w;
  }

  lemma ExecThen(cfg: Config, w: World, run: seq<Event>, e: Event)
    ensures Exec(cfg, w, run + [e]) == Step(cfg, Exec(cfg, w, run), e)
  {
    ExecAppend(cfg, w, run, [e]);
    ExecOne(cfg, Exec(cfg, w, run), e);
  }

  lemma ExecTwo(cfg: Config, w: World, first: Event, second: Event)
    ensures Exec(cfg, w, [first, second]) == Step(cfg, Step(cfg, w, first), second)
  {
    ExecOne(cfg, w, first);
    ExecThen(cfg, w, [first], second);
    assert [first] + [second] == [first, second];
  }

  /** What each fault makes of a commit, measured against the same commit without
    one: a lost reply does all of it and reports a retry, both aborts do none of
    it, and a transaction that fails by itself is the same under every fault. */
  lemma FaultsExactly(cfg: Config, w: World, task: nat, fault: CommitFault, read: seq<Position>, left: seq<Position>)
    requires InPhase(w, task) && (w.tasks[task].phase.Accepted? || w.tasks[task].phase.Answered?)
    requires fault.SilentAbort? ==> IgnoresAnError(w.tasks[task].phase)
    ensures var fine := Step(cfg, w, Commit(task, NoCommitFault, read, left));
      var w' := Step(cfg, w, Commit(task, fault, read, left));
      && task in fine.tasks && task in w'.tasks && fine.tasks[task].phase.Finished?
      && (fine.tasks[task].phase.out != Done ==> fine.t == w.t && w' == fine)
      && (fine.tasks[task].phase.out == Done ==>
            && w'.t == (if fault.NoCommitFault? || fault.LostReply? then fine.t else w.t)
            && w'.tasks[task].phase == Finished(if fault.NoCommitFault? || fault.SilentAbort? then Done else Retry))
  {
    UnderFaultExactly(w.t, SecondTx(cfg, w.t, CommandOf(w, task), w.tasks[task].phase, read, left), fault);
  }

  lemma UnderFaultExactly(t: Tables, tx: Tx, fault: CommitFault)
    ensures UnderFault(t, tx, fault) ==
      if tx.Aborted? then (t, tx.why)
      else (if fault.NoCommitFault? || fault.LostReply? then tx.tables else t,
            if fault.NoCommitFault? || fault.SilentAbort? then Done else Retry)
  {
  }
}
