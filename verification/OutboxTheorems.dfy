/** What holds in every run of the outbox protocol, from an empty database,
  whatever the workers, the faults and the exchange do. */
module OutboxTheorems {
  import opened Types
  import opened OrderState
  import opened Positions
  import opened Ledger
  import opened Outbox
  import opened OutboxSafety
  import opened MarketData
  import PaperAdapter
  import BinanceAdapter

  // ----- every step keeps the invariant -----

  lemma HydrationOk(cfg: Config, t: Tables, i: nat, fault: ReadFault)
    requires TablesOk(t) && i < |t.commands|
    ensures TaskOk(t, Task(i, HydratePhase(cfg, t, t.commands[i], fault)))
  {
    var c := t.commands[i];
    assert CommandOk(t.orders, c) && OrderOk(t, c.key.order);
    if c.key.Kind().ReconcileOrder? {
      HasReconcileRow(t, i);
    }
  }

  lemma ResponseOk(t: Tables, i: nat, s: ReconcileSnapshot, estimate: Option<Estimate>,
                   resp: BinanceAdapter.Response)
    requires TablesOk(t) && TaskOk(t, Task(i, Hydrated(s)))
    ensures TaskOk(t, Task(i, RespondPhase(t.commands[i], s, estimate, resp)))
  {
    PaperAdapter.MeetsContract(s, estimate);
    BinanceAdapter.MeetsContract(s, resp);
  }

  /** A second transaction either leaves everything alone or evolves sound tables into sound tables. */
  lemma SecondTxKeeps(cfg: Config, t: Tables, task: Task, readPositions: seq<Position>, leftPositions: seq<Position>)
    requires TablesOk(t) && TaskOk(t, task) && (task.phase.Accepted? || task.phase.Answered?)
    ensures match SecondTx(cfg, t, t.commands[task.command], task.phase, readPositions, leftPositions)
      case Committed(t') => TablesOk(t') && Evolves(t, t')
      case Aborted(why) => why == Retry || why == NeedsReview
  {
    var c := t.commands[task.command];
    assert CommandOk(t.orders, c);
    match task.phase
    case Accepted =>
      AdvanceKeeps(t, c, Submitted, InitialKey(c.key.order));
      AdvanceKeeps(t, c, CancelRequested, PostCancelKey(c.key.order));
    case Answered(s, r, _) =>
      PersistAmongWorkersKeeps(cfg, t, task.command, s, r, readPositions, leftPositions);
  }

  /** What a committed pass leaves, with or without other workers at the positions. */
  lemma PersistAmongWorkersCases(cfg: Config, t: Tables, c: Command, s: ReconcileSnapshot, r: ReconcileResult,
                                 readPositions: seq<Position>, leftPositions: seq<Position>)
    requires TablesOk(t) && SnapshotOk(t, c, s) && AnswerOk(c, s, r)
    ensures match PersistAmongWorkers(cfg, t, c.account, s, r, readPositions, leftPositions)
      case Committed(t') =>
        && t' == PersistedTables(t, c.account, s, r, t'.positions)
        && (exists read, written :: Persistable(cfg.schema, t.(positions := read), c.account, s, r, written))
        && (r.positionsDelta == [] ==> t'.positions == t.positions)
        && (!cfg.serialPositions ==> SameElsewhere(t.positions, t'.positions, c.account, s.order.symbol))
        && (cfg.serialPositions ==> Persistable(cfg.schema, t, c.account, s, r, t'.positions))
      case Aborted(why) =>
        || why == Retry
        || (&& why == NeedsReview && Fresh(t.orders[c.key.order], s)
            && r.newStatus.Some? && !Legal(t.orders[c.key.order].status, r.newStatus.value))
  {
    PersistCases(cfg.schema, t, c, s, r);
    var t1 := t.(positions := readPositions);
    PositionsIrrelevant(t, readPositions);
    PersistCases(cfg.schema, t1, c, s, r);
    if cfg.serialPositions {
      assert t.(positions := t.positions) == t;
    }
  }

  lemma PositionsIrrelevant(t: Tables, positions: seq<Position>)
    requires TablesOk(t)
    ensures TablesOk(t.(positions := positions))
  {
    var t' := t.(positions := positions);
    forall order | order in t'.orders
      ensures OrderOk(t', order)
    {
      assert OrderOk(t, order);
    }
  }

  lemma PersistAmongWorkersKeeps(cfg: Config, t: Tables, i: nat, s: ReconcileSnapshot, r: ReconcileResult,
                                 readPositions: seq<Position>, leftPositions: seq<Position>)
    requires TablesOk(t) && i < |t.commands| && SnapshotOk(t, t.commands[i], s) && AnswerOk(t.commands[i], s, r)
    ensures match PersistAmongWorkers(cfg, t, t.commands[i].account, s, r, readPositions, leftPositions)
      case Committed(t') => TablesOk(t') && Evolves(t, t')
      case Aborted(why) => why == Retry || why == NeedsReview
  {
    var c := t.commands[i];
    var tx := PersistAmongWorkers(cfg, t, c.account, s, r, readPositions, leftPositions);
    PersistAmongWorkersCases(cfg, t, c, s, r, readPositions, leftPositions);
    if tx.Committed? {
      var read, written :| Persistable(cfg.schema, t.(positions := read), c.account, s, r, written);
      PersistKeeps(cfg.schema, t, i, s, r, read, written, tx.tables.positions);
    }
  }

  lemma EvolvesReflexive(t: Tables)
    ensures Evolves(t, t)
  {
  }

  /** The tables after any step. */
  lemma StepTables(cfg: Config, w: World, e: Event)
    requires Inv(w)
    ensures TablesOk(Step(cfg, w, e).t) && Evolves(w.t, Step(cfg, w, e).t)
  {
    EvolvesReflexive(w.t);
    if e.PlaceOrder? || e.RequestCancel? {
      StepTablesRequests(cfg, w, e);
    } else if e.Claim? || e.MarkCommand? {
      StepTablesMarks(cfg, w, e);
    } else if e.Commit? {
      if InPhase(w, e.task) && (w.tasks[e.task].phase.Accepted? || w.tasks[e.task].phase.Answered?) {
        SecondTxKeeps(cfg, w.t, w.tasks[e.task], e.readPositions, e.leftPositions);
      }
    } else if e.RejectOrder? {
      if InPhase(w, e.task) && w.tasks[e.task].phase.Rejecting? && !e.dropped {
        assert CommandOk(w.t.orders, CommandOf(w, e.task));
        RejectKeeps(w.t, CommandOf(w, e.task).key.order);
      }
    }
  }

  lemma StepTablesRequests(cfg: Config, w: World, e: Event)
    requires Inv(w) && (e.PlaceOrder? || e.RequestCancel?)
    ensures TablesOk(Step(cfg, w, e).t) && Evolves(w.t, Step(cfg, w, e).t)
  {
    EvolvesReflexive(w.t);
    if e.PlaceOrder? && e.order !in w.t.orders && Placeable(e.row) {
      PlaceOrderKeeps(w.t, e.order, e.row);
    }
    if e.RequestCancel? && e.order in w.t.orders {
      RequestCancelKeeps(w.t, e.order, e.request);
    }
  }

  lemma StepTablesMarks(cfg: Config, w: World, e: Event)
    requires Inv(w) && (e.Claim? || e.MarkCommand?)
    ensures TablesOk(Step(cfg, w, e).t) && Evolves(w.t, Step(cfg, w, e).t)
  {
    EvolvesReflexive(w.t);
    if e.Claim? && e.command < |w.t.commands| {
      RowWriteKeeps(w.t, e.command, Lease(w.t.commands[e.command], w.now));
    }
    if e.MarkCommand? && InPhase(w, e.task) && w.tasks[e.task].phase.Finished? {
      RowWriteKeeps(w.t, w.tasks[e.task].command, Mark(CommandOf(w, e.task), w.tasks[e.task].phase.out));
    }
  }

  /** The one task a step is about. */
  lemma StepTask(cfg: Config, w: World, e: Event, k: nat)
    requires Inv(w) && k in Step(cfg, w, e).tasks
    requires k !in w.tasks || Step(cfg, w, e).tasks[k] != w.tasks[k]
    ensures TaskOk(Step(cfg, w, e).t, Step(cfg, w, e).tasks[k])
  {
    StepTables(cfg, w, e);
    if k in w.tasks {
      assert TaskOk(w.t, w.tasks[k]);
      match e
      case Hydrate(_, fault) => HydrationOk(cfg, w.t, w.tasks[k].command, fault);
      case Respond(_, estimate, resp) =>
        assert w.tasks[k] == Task(w.tasks[k].command, Hydrated(w.tasks[k].phase.s));
        ResponseOk(w.t, w.tasks[k].command, w.tasks[k].phase.s, estimate, resp);
      case Commit(_, _, _, _) => CommitFinishes(cfg, w, e);
      case _ =>
    }
  }

  /** A commit ends in a retry, a review or success, and never rejects the order. */
  lemma CommitFinishes(cfg: Config, w: World, e: Event)
    requires Inv(w) && e.Commit? && InPhase(w, e.task)
    ensures e.task in Step(cfg, w, e).tasks && Step(cfg, w, e).tasks[e.task].command == w.tasks[e.task].command
    ensures var phase := Step(cfg, w, e).tasks[e.task].phase;
      || phase == w.tasks[e.task].phase
      || phase == Finished(Done) || phase == Finished(Retry) || phase == Finished(NeedsReview)
  {
    assert TaskOk(w.t, w.tasks[e.task]);
    if w.tasks[e.task].phase.Accepted? || w.tasks[e.task].phase.Answered? {
      SecondTxKeeps(cfg, w.t, w.tasks[e.task], e.readPositions, e.leftPositions);
    }
  }

  /** An answer was there before the step, or the step gave it. */
  lemma AnsweredBefore(cfg: Config, w: World, e: Event, k: nat)
    requires k in Step(cfg, w, e).tasks && Step(cfg, w, e).tasks[k].phase.Answered?
    ensures k in w.tasks
    ensures Step(cfg, w, e).tasks[k] == w.tasks[k]
      || (&& e.Respond? && e.task == k && InPhase(w, k) && w.tasks[k].phase.Hydrated?
          && Step(cfg, w, e).tasks[k]
             == Task(w.tasks[k].command, RespondPhase(CommandOf(w, k), w.tasks[k].phase.s, e.estimate, e.resp)))
  {
  }

  lemma StepKeeps(cfg: Config, w: World, e: Event)
    requires Inv(w)
    ensures Inv(Step(cfg, w, e)) && Evolves(w.t, Step(cfg, w, e).t)
  {
    var w' := Step(cfg, w, e);
    StepTables(cfg, w, e);
    forall k | k in w'.tasks
      ensures TaskOk(w'.t, w'.tasks[k])
    {
      if k in w.tasks && w'.tasks[k] == w.tasks[k] {
        TaskStable(w.t, w'.t, w.tasks[k]);
      } else {
        StepTask(cfg, w, e, k);
      }
    }
  }

  lemma {:induction false} ExecKeeps(cfg: Config, w: World, run: seq<Event>)
    requires Inv(w)
    ensures Inv(Exec(cfg, w, run)) && Evolves(w.t, Exec(cfg, w, run).t)
    decreases |run|
  {
    if run == [] {
      EvolvesReflexive(w.t);
    } else {
      var mid := Exec(cfg, w, run[..|run| - 1]);
      ExecKeeps(cfg, w, run[..|run| - 1]);
      StepKeeps(cfg, mid, run[|run| - 1]);
      EvolvesTransitive(w.t, mid.t, Exec(cfg, w, run).t);
    }
  }

  lemma ReachedOk(cfg: Config, w: World)
    requires Reached(cfg, w)
    ensures Inv(w)
  {
    var run :| w == Exec(cfg, INITIAL, run);
    ExecKeeps(cfg, INITIAL, run);
  }
}
