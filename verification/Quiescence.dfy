/** No paper order is forgotten: while it is Pending or CancelRequested, some
  command that will move it on is still queued or leased. */
module Quiescence {
  import opened Types
  import opened OrderState
  import opened Ledger
  import opened Outbox
  import opened OutboxSafety
  import opened OutboxTheorems
  import opened Guarantees

  // ----- the faults that matter -----

  predicate On(w: World, task: nat, key: Key) {
    InPhase(w, task) && CommandOf(w, task).key == key
  }

  /** The commit of a dispatch of this command aborts and is taken for a success. */
  predicate AbortsUnnoticed(cfg: Config, w: World, e: Event, key: Key) {
    && e.Commit? && e.commitFault.SilentAbort? && On(w, e.task, key) && IgnoresAnError(w.tasks[e.task].phase)
    && e.task in Step(cfg, w, e).tasks && Step(cfg, w, e).tasks[e.task].phase == Finished(Done)
  }

  /** A dispatch of this command is escalated before its work is begun: the row
    lock fails, which reads like a missing order (outbox_worker.rs:179-181), or
    no adapter is configured. */
  predicate FailsToHydrate(cfg: Config, w: World, e: Event, key: Key) {
    && e.Hydrate? && On(w, e.task, key) && w.tasks[e.task].phase.Claimed?
    && (e.readFault.LockError? || !Resolves(cfg, CommandOf(w, e.task).mode))
  }

  /** What a run has done to one command. `silent` are the tasks at it whose abort
    went unnoticed, `lost` says that the last one to mark it was such a task, and
    `spoilt` that one of the faults above has struck a dispatch of it. */
  datatype Watch = Watch(silent: set<nat>, lost: bool, spoilt: bool)

  function WatchStep(cfg: Config, w: World, e: Event, key: Key, h: Watch): Watch {
    Watch(
      (if AbortsUnnoticed(cfg, w, e, key) then h.silent + {e.task} else h.silent) * Step(cfg, w, e).tasks.Keys,
      if e.MarkCommand? && !e.dropped && On(w, e.task, key) && w.tasks[e.task].phase.Finished?
      then w.tasks[e.task].phase.out.Done? && e.task in h.silent
      else h.lost,
      h.spoilt || AbortsUnnoticed(cfg, w, e, key) || FailsToHydrate(cfg, w, e, key))
  }

  function Watching(cfg: Config, run: seq<Event>, key: Key): Watch
    decreases |run|
  {
    if run == [] then Watch({}, false, false)
    else
      var front := run[..|run| - 1];
      WatchStep(cfg, Exec(cfg, INITIAL, front), run[|run| - 1], key, Watching(cfg, front, key))
  }

  /** What must have happened to the order before the command may be retired. */
  predicate Settled(t: Tables, key: Key) {
    key.order in t.orders &&
    match key
    case SubmitKey(order) => !t.orders[order].status.Pending?
    case PostCancelKey(order) => t.orders[order].status.IsTerminal()
    case _ => true
  }

  // ----- the invariant -----

  ghost predicate CommandQuiet(t: Tables, c: Command, key: Key, h: Watch) {
    c.key == key && c.mode.Paper? ==>
      && !c.status.PermanentlyRejected?
      && (c.status.ReconciliationRequired? ==> h.spoilt)
      && (h.lost ==> c.status.Delivered?)
      && (c.status.Delivered? ==> h.lost || Settled(t, key))
  }

  ghost predicate TaskQuiet(t: Tables, k: nat, task: Task, key: Key, h: Watch) {
    task.command < |t.commands| &&
    var c := t.commands[task.command];
    c.key == key && c.mode.Paper? && task.phase.Finished? ==>
      && (task.phase.out.NeedsReview? ==> h.spoilt)
      && (task.phase.out.Done? ==> k in h.silent || Settled(t, key))
  }

  ghost predicate WatchOk(w: World, key: Key, h: Watch) {
    && h.silent <= w.tasks.Keys
    && (h.lost ==> HasKey(w.t.commands, key))
    && (h.lost || h.silent != {} ==> h.spoilt && key.Kind().ReconcileOrder?)
  }

  ghost predicate Quiet(w: World, key: Key, h: Watch) {
    && Inv(w) && WatchOk(w, key, h)
    && (forall i {:trigger CommandQuiet(w.t, w.t.commands[i], key, h)} ::
          0 <= i < |w.t.commands| ==> CommandQuiet(w.t, w.t.commands[i], key, h))
    && (forall k {:trigger TaskQuiet(w.t, k, w.tasks[k], key, h)} ::
          k in w.tasks ==> TaskQuiet(w.t, k, w.tasks[k], key, h))
  }

  lemma SettledStable(t: Tables, t': Tables, key: Key)
    requires Settled(t, key) && Evolves(t, t')
    ensures Settled(t', key)
  {
    assert OrderEvolves(t, t', key.order);
  }

  // ----- what a step does to a command row -----

  predicate MarksRow(w: World, e: Event, i: nat) {
    && e.MarkCommand? && !e.dropped && InPhase(w, e.task) && w.tasks[e.task].phase.Finished?
    && w.tasks[e.task].command == i
  }

  /** A row is new and queued, marked with the outcome of a task, leased, or as it was. */
  lemma StepRows(cfg: Config, w: World, e: Event, i: nat)
    requires i < |Step(cfg, w, e).t.commands|
    ensures var c' := Step(cfg, w, e).t.commands[i];
      if i >= |w.t.commands| then c'.status.Queued?
      else if MarksRow(w, e, i) then c' == Mark(w.t.commands[i], w.tasks[e.task].phase.out)
      else c' == w.t.commands[i] || c' == Lease(w.t.commands[i], w.now)
  {
    if e.MarkCommand? {
      MarkRows(cfg, w, e, i);
    }
  }

  lemma MarkRows(cfg: Config, w: World, e: Event, i: nat)
    requires e.MarkCommand? && i < |Step(cfg, w, e).t.commands|
    ensures i < |w.t.commands|
    ensures Step(cfg, w, e).t.commands[i]
      == if MarksRow(w, e, i) then Mark(w.t.commands[i], w.tasks[e.task].phase.out) else w.t.commands[i]
  {
  }

  /** A row is only leased when it was waiting or leased. */
  lemma LeasedRows(cfg: Config, w: World, e: Event, i: nat)
    requires i < |w.t.commands| && i < |Step(cfg, w, e).t.commands| && !MarksRow(w, e, i)
    ensures Step(cfg, w, e).t.commands[i] == w.t.commands[i] || Unfinished(w.t.commands[i])
  {
    StepRows(cfg, w, e, i);
  }

  lemma OneRowPerKey(commands: seq<Command>, i: nat, j: nat)
    requires UniqueKeys(commands) && i < |commands| && j < |commands| && commands[i].key == commands[j].key
    ensures i == j
  {
  }

  // ----- every step keeps it -----

  lemma StepKeepsCommandQuiet(cfg: Config, w: World, e: Event, i: nat, key: Key, h: Watch)
    requires Quiet(w, key, h) && i < |Step(cfg, w, e).t.commands|
    ensures CommandQuiet(Step(cfg, w, e).t, Step(cfg, w, e).t.commands[i], key, WatchStep(cfg, w, e, key, h))
  {
    var w' := Step(cfg, w, e);
    StepKeeps(cfg, w, e);
    var c' := w'.t.commands[i];
    if c'.key == key && c'.mode.Paper? {
      StepRows(cfg, w, e, i);
      if i < |w.t.commands| {
        assert w.t.commands[i].key == key && w.t.commands[i].mode.Paper?;
        if Settled(w.t, key) {
          SettledStable(w.t, w'.t, key);
        }
        OldRowQuiet(cfg, w, e, i, key, h);
      } else {
        NewRowQuiet(cfg, w, e, i, key, h);
      }
    }
  }

  lemma OldRowQuiet(cfg: Config, w: World, e: Event, i: nat, key: Key, h: Watch)
    requires Quiet(w, key, h) && i < |w.t.commands| && i < |Step(cfg, w, e).t.commands|
    requires w.t.commands[i].key == key && w.t.commands[i].mode.Paper?
    requires Settled(w.t, key) ==> Settled(Step(cfg, w, e).t, key)
    ensures CommandQuiet(Step(cfg, w, e).t, Step(cfg, w, e).t.commands[i], key, WatchStep(cfg, w, e, key, h))
  {
    StepRows(cfg, w, e, i);
    assert CommandQuiet(w.t, w.t.commands[i], key, h);
    if MarksRow(w, e, i) {
      assert TaskQuiet(w.t, e.task, w.tasks[e.task], key, h) && TaskOk(w.t, w.tasks[e.task]);
    } else {
      LeasedRows(cfg, w, e, i);
      if e.MarkCommand? && On(w, e.task, key) {
        OneRowPerKey(w.t.commands, i, w.tasks[e.task].command);
      }
    }
  }

  lemma NewRowQuiet(cfg: Config, w: World, e: Event, i: nat, key: Key, h: Watch)
    requires Quiet(w, key, h) && |w.t.commands| <= i < |Step(cfg, w, e).t.commands|
    requires Step(cfg, w, e).t.commands[i].key == key && Inv(Step(cfg, w, e)) && Evolves(w.t, Step(cfg, w, e).t)
    ensures CommandQuiet(Step(cfg, w, e).t, Step(cfg, w, e).t.commands[i], key, WatchStep(cfg, w, e, key, h))
  {
    var w' := Step(cfg, w, e);
    StepRows(cfg, w, e, i);
    if h.lost {
      var j :| 0 <= j < |w.t.commands| && w.t.commands[j].key == key;
      assert w'.t.commands[j].key == key;
      OneRowPerKey(w'.t.commands, i, j);
    }
    if e.MarkCommand? {
      MarkRows(cfg, w, e, i);
    }
  }

  /** A paper dispatch that ends well has settled its order, unless its abort went unnoticed. */
  lemma DoneMeansSettled(cfg: Config, w: World, e: Event, key: Key)
    requires Inv(w) && e.Commit? && On(w, e.task, key) && CommandOf(w, e.task).mode.Paper?
    requires w.tasks[e.task].phase.Accepted? || w.tasks[e.task].phase.Answered?
    ensures e.task in Step(cfg, w, e).tasks
    ensures var phase := Step(cfg, w, e).tasks[e.task].phase;
      && phase != Finished(NeedsReview)
      && (phase == Finished(Done) && !AbortsUnnoticed(cfg, w, e, key) ==> Settled(Step(cfg, w, e).t, key))
  {
    var task, c := w.tasks[e.task], CommandOf(w, e.task);
    assert TaskOk(w.t, task) && CommandOk(w.t.orders, c);
    StepKeeps(cfg, w, e);
    if task.phase.Answered? {
      var s, r := task.phase.s, task.phase.r;
      PersistAmongWorkersCases(cfg, w.t, c, s, r, e.readPositions, e.leftPositions);
      AnswerSettles(w.t, c, s, r);
    }
  }

  lemma AnswerSettles(t: Tables, c: Command, s: ReconcileSnapshot, r: ReconcileResult)
    requires TablesOk(t) && CommandOk(t.orders, c) && c.mode.Paper? && SnapshotOk(t, c, s) && AnswerOk(c, s, r)
    ensures r.newStatus.Some? ==> Legal(s.order.status, r.newStatus.value)
    ensures forall positions ::
      Settled(PersistedTables(t, c.account, s, r, positions), c.key)
  {
    var row := t.orders[c.key.order];
    if c.key.PostCancelKey? {
      assert s.order.status.CancelRequested? || s.order.status.IsTerminal();
      if s.order.status.IsTerminal() {
        assert row.status == s.order.status;
      }
    }
  }

  lemma StepTaskQuiet(cfg: Config, w: World, e: Event, k: nat, key: Key, h: Watch)
    requires Quiet(w, key, h) && k in Step(cfg, w, e).tasks
    ensures TaskQuiet(Step(cfg, w, e).t, k, Step(cfg, w, e).tasks[k], key, WatchStep(cfg, w, e, key, h))
  {
    var w' := Step(cfg, w, e);
    StepKeeps(cfg, w, e);
    assert TaskOk(w'.t, w'.tasks[k]);
    if k in w.tasks && w'.tasks[k] == w.tasks[k] {
      assert TaskQuiet(w.t, k, w.tasks[k], key, h) && TaskOk(w.t, w.tasks[k]);
      if Settled(w.t, key) {
        SettledStable(w.t, w'.t, key);
      }
    } else if w'.tasks[k].phase.Finished? {
      FinishedTaskQuiet(cfg, w, e, k, key, h);
    }
  }

  /** The task that a step finishes: its hydration failed or its commit ended. */
  lemma FinishedTaskQuiet(cfg: Config, w: World, e: Event, k: nat, key: Key, h: Watch)
    requires Quiet(w, key, h) && k in Step(cfg, w, e).tasks && Step(cfg, w, e).tasks[k].phase.Finished?
    requires k !in w.tasks || Step(cfg, w, e).tasks[k] != w.tasks[k]
    requires Inv(Step(cfg, w, e)) && Evolves(w.t, Step(cfg, w, e).t)
    ensures TaskQuiet(Step(cfg, w, e).t, k, Step(cfg, w, e).tasks[k], key, WatchStep(cfg, w, e, key, h))
  {
    FinishingSteps(cfg, w, e, k);
    assert TaskOk(w.t, w.tasks[k]);
    var c := CommandOf(w, k);
    assert CommandOk(w.t.orders, c);
    if c.key == key && c.mode.Paper? && e.Commit? {
      DoneMeansSettled(cfg, w, e, key);
    }
  }

  lemma FinishingSteps(cfg: Config, w: World, e: Event, k: nat)
    requires Inv(w) && k in Step(cfg, w, e).tasks && Step(cfg, w, e).tasks[k].phase.Finished?
    requires k !in w.tasks || Step(cfg, w, e).tasks[k] != w.tasks[k]
    ensures InPhase(w, k) && Step(cfg, w, e).tasks[k].command == w.tasks[k].command
    ensures (e.Hydrate? || e.Respond? || e.Refuse? || e.Commit?) && e.task == k
    ensures e.Hydrate? ==> w.tasks[k].phase.Claimed?
    ensures e.Commit? ==> w.tasks[k].phase.Accepted? || w.tasks[k].phase.Answered?
    ensures e.Respond? || e.Refuse? ==> CommandOf(w, k).mode.Live?
  {
  }

  lemma StepKeepsWatch(cfg: Config, w: World, e: Event, key: Key, h: Watch)
    requires Quiet(w, key, h)
    ensures WatchOk(Step(cfg, w, e), key, WatchStep(cfg, w, e, key, h))
  {
    var h' := WatchStep(cfg, w, e, key, h);
    StepKeeps(cfg, w, e);
    if AbortsUnnoticed(cfg, w, e, key) {
      assert TaskOk(w.t, w.tasks[e.task]);
    }
    if h'.lost {
      if h.lost {
        KeysKept(w.t.commands, Step(cfg, w, e).t.commands, key);
      } else {
        assert w.t.commands[w.tasks[e.task].command].key == key;
        KeysKept(w.t.commands, Step(cfg, w, e).t.commands, key);
      }
    }
  }

  lemma StepKeepsQuiet(cfg: Config, w: World, e: Event, key: Key, h: Watch)
    requires Quiet(w, key, h)
    ensures Quiet(Step(cfg, w, e), key, WatchStep(cfg, w, e, key, h))
  {
    var w', h' := Step(cfg, w, e), WatchStep(cfg, w, e, key, h);
    StepKeeps(cfg, w, e);
    StepKeepsWatch(cfg, w, e, key, h);
    forall i | 0 <= i < |w'.t.commands|
      ensures CommandQuiet(w'.t, w'.t.commands[i], key, h')
    {
      StepKeepsCommandQuiet(cfg, w, e, i, key, h);
    }
    forall k | k in w'.tasks
      ensures TaskQuiet(w'.t, k, w'.tasks[k], key, h')
    {
      StepTaskQuiet(cfg, w, e, k, key, h);
    }
  }

  lemma {:induction false} ExecKeepsQuiet(cfg: Config, run: seq<Event>, key: Key)
    ensures Quiet(Exec(cfg, INITIAL, run), key, Watching(cfg, run, key))
    decreases |run|
  {
    if run != [] {
      var front := run[..|run| - 1];
      ExecKeepsQuiet(cfg, front, key);
      StepKeepsQuiet(cfg, Exec(cfg, INITIAL, front), run[|run| - 1], key, Watching(cfg, front, key));
    }
  }

  // ----- what it means -----

  predicate UnfinishedWithKey(commands: seq<Command>, key: Key) {
    exists i :: 0 <= i < |commands| && commands[i].key == key && Unfinished(commands[i])
  }

  predicate EscalatedWithKey(commands: seq<Command>, key: Key) {
    exists i :: 0 <= i < |commands| && commands[i].key == key && commands[i].status.ReconciliationRequired?
  }

  /** Exactly when an unsettled paper order still has its command. */
  lemma UnsettledExactly(w: World, key: Key, h: Watch)
    requires Quiet(w, key, h) && HasKey(w.t.commands, key) && !Settled(w.t, key)
    requires key.order in w.t.orders && w.t.orders[key.order].mode.Paper?
    ensures UnfinishedWithKey(w.t.commands, key) <==> !EscalatedWithKey(w.t.commands, key) && !h.lost
    ensures EscalatedWithKey(w.t.commands, key) || h.lost ==> h.spoilt
  {
    var i :| 0 <= i < |w.t.commands| && w.t.commands[i].key == key;
    assert CommandQuiet(w.t, w.t.commands[i], key, h) && CommandOk(w.t.orders, w.t.commands[i]);
    forall j | 0 <= j < |w.t.commands| && w.t.commands[j].key == key
      ensures j == i
    {
      OneRowPerKey(w.t.commands, i, j);
    }
  }

  /** In every run, whatever the workers and the faults: a Pending paper order has
    its submit command still unfinished exactly when that command was not
    escalated, and a CancelRequested one its post-cancel reconcile exactly when
    that was neither escalated nor last marked by a task whose abort went
    unnoticed. Only the faults of `Watch` can do either. */
  lemma PaperQuiescence(cfg: Config, run: seq<Event>, order: OrderId)
    requires var t := Exec(cfg, INITIAL, run).t; order in t.orders && t.orders[order].mode.Paper?
    ensures var t := Exec(cfg, INITIAL, run).t;
      var submit, postCancel := Watching(cfg, run, SubmitKey(order)), Watching(cfg, run, PostCancelKey(order));
      && (t.orders[order].status.Pending? ==>
            && (UnfinishedWithKey(t.commands, SubmitKey(order)) <==> !EscalatedWithKey(t.commands, SubmitKey(order)))
            && (!submit.spoilt ==> UnfinishedWithKey(t.commands, SubmitKey(order))))
      && (t.orders[order].status.CancelRequested? ==>
            && (UnfinishedWithKey(t.commands, PostCancelKey(order)) <==>
                  !EscalatedWithKey(t.commands, PostCancelKey(order)) && !postCancel.lost)
            && (!postCancel.spoilt ==> UnfinishedWithKey(t.commands, PostCancelKey(order))))
  {
    var w := Exec(cfg, INITIAL, run);
    ExecKeepsQuiet(cfg, run, SubmitKey(order));
    ExecKeepsQuiet(cfg, run, PostCancelKey(order));
    assert OrderOk(w.t, order);
    if w.t.orders[order].status.Pending? {
      UnsettledExactly(w, SubmitKey(order), Watching(cfg, run, SubmitKey(order)));
    }
    if w.t.orders[order].status.CancelRequested? {
      UnsettledExactly(w, PostCancelKey(order), Watching(cfg, run, PostCancelKey(order)));
    }
  }

  /** So when no command is unfinished, every paper order that no such fault has
    struck is Submitted, Filled or Cancelled. */
  lemma PaperRests(cfg: Config, run: seq<Event>, order: OrderId)
    requires var t := Exec(cfg, INITIAL, run).t; order in t.orders && t.orders[order].mode.Paper?
    requires !Watching(cfg, run, SubmitKey(order)).spoilt && !Watching(cfg, run, PostCancelKey(order)).spoilt
    requires var t := Exec(cfg, INITIAL, run).t; forall i :: 0 <= i < |t.commands| ==> !Unfinished(t.commands[i])
    ensures var status := Exec(cfg, INITIAL, run).t.orders[order].status;
      status.Submitted? || status.Filled? || status.Cancelled?
  {
    PaperQuiescence(cfg, run, order);
    ExecKeeps(cfg, INITIAL, run);
    assert OrderOk(Exec(cfg, INITIAL, run).t, order);
  }

  /** Only a failing hydration can spoil a submit: its second transaction notices
    every error. */
  lemma SubmitsNoticeAborts(cfg: Config, run: seq<Event>, order: OrderId)
    ensures var h := Watching(cfg, run, SubmitKey(order)); h.silent == {} && !h.lost
  {
    ExecKeepsQuiet(cfg, run, SubmitKey(order));
  }

  // ----- orders that nothing will move again -----

  ghost predicate NoneUnfinished(commands: seq<Command>, order: OrderId) {
    forall i :: 0 <= i < |commands| && commands[i].key.order == order ==> !Unfinished(commands[i])
  }

  /** No command of the order is queued or leased, and no worker is at one. */
  ghost predicate Idle(w: World, order: OrderId) {
    && NoneUnfinished(w.t.commands, order)
    && (forall k :: k in w.tasks ==>
          w.tasks[k].command < |w.t.commands| && w.t.commands[w.tasks[k].command].key.order != order)
  }

  lemma InsertKeepsIdle(commands: seq<Command>, account: AccountId, key: Key, mode: ExchangeMode, order: OrderId)
    requires key.order != order
    requires NoneUnfinished(commands, order)
    ensures NoneUnfinished(InsertCommand(commands, account, key, mode), order)
  {
  }

  /** The row and fills of an order without commands at work are out of reach. */
  ghost predicate SameOrder(t: Tables, t': Tables, order: OrderId)
    requires order in t.orders
  {
    order in t'.orders && t'.orders[order] == t.orders[order] && FillsOf(t'.fills, order) == FillsOf(t.fills, order)
  }

  lemma PassKeepsIdle(cfg: Config, w: World, e: Event, order: OrderId)
    requires Inv(w) && order in w.t.orders && Idle(w, order)
    requires e.Commit? && InPhase(w, e.task) && w.tasks[e.task].phase.Answered?
    ensures SameOrder(w.t, Step(cfg, w, e).t, order)
    ensures Step(cfg, w, e).t.commands == w.t.commands
  {
    var phase, c := w.tasks[e.task].phase, CommandOf(w, e.task);
    CommitCases(cfg, w, e, phase.s, phase.r, phase.resp);
    FillsAfterPersist(w.t.fills, c.account, c.key.order, phase.r.fillsToAdd, order);
  }

  lemma AdvanceKeepsIdle(cfg: Config, w: World, e: Event, order: OrderId)
    requires order in w.t.orders && Idle(w, order)
    requires e.Commit? && !(InPhase(w, e.task) && w.tasks[e.task].phase.Answered?)
    ensures SameOrder(w.t, Step(cfg, w, e).t, order)
    ensures NoneUnfinished(Step(cfg, w, e).t.commands, order)
  {
    if InPhase(w, e.task) && w.tasks[e.task].phase.Accepted? {
      var c := CommandOf(w, e.task);
      InsertKeepsIdle(w.t.commands, c.account, InitialKey(c.key.order), c.mode, order);
      InsertKeepsIdle(w.t.commands, c.account, PostCancelKey(c.key.order), c.mode, order);
    }
  }

  lemma OthersKeepIdle(cfg: Config, w: World, e: Event, order: OrderId)
    requires order in w.t.orders && Idle(w, order) && !e.Commit? && !(e.RequestCancel? && e.order == order)
    ensures SameOrder(w.t, Step(cfg, w, e).t, order)
    ensures NoneUnfinished(Step(cfg, w, e).t.commands, order)
  {
  }

  lemma TasksKeepIdle(cfg: Config, w: World, e: Event, order: OrderId)
    requires Inv(w) && Idle(w, order)
    ensures forall k :: k in Step(cfg, w, e).tasks ==>
      && Step(cfg, w, e).tasks[k].command < |w.t.commands|
      && w.t.commands[Step(cfg, w, e).tasks[k].command].key.order != order
  {
  }

  lemma StepKeepsIdle(cfg: Config, w: World, e: Event, order: OrderId)
    requires Inv(w) && order in w.t.orders && Idle(w, order) && !(e.RequestCancel? && e.order == order)
    ensures Idle(Step(cfg, w, e), order) && SameOrder(w.t, Step(cfg, w, e).t, order)
  {
    StepKeeps(cfg, w, e);
    TasksKeepIdle(cfg, w, e, order);
    if e.Commit? && InPhase(w, e.task) && w.tasks[e.task].phase.Answered? {
      PassKeepsIdle(cfg, w, e, order);
    } else if e.Commit? {
      AdvanceKeepsIdle(cfg, w, e, order);
    } else {
      OthersKeepIdle(cfg, w, e, order);
    }
  }

  /** Reconciles are enqueued once, so an order whose commands are all finished
    stays as it is, executed quantity recorded or not, in every run in which
    nobody requests its cancellation. */
  lemma {:induction false} IdleOrderIsFrozen(cfg: Config, w: World, run: seq<Event>, order: OrderId)
    requires Reached(cfg, w) && order in w.t.orders && Idle(w, order)
    requires forall i :: 0 <= i < |run| ==> !(run[i].RequestCancel? && run[i].order == order)
    ensures Idle(Exec(cfg, w, run), order) && SameOrder(w.t, Exec(cfg, w, run).t, order)
    decreases |run|
  {
    if run != [] {
      ReachedOk(cfg, w);
      ExecKeeps(cfg, w, run[..|run| - 1]);
      IdleOrderIsFrozen(cfg, w, run[..|run| - 1], order);
      StepKeepsIdle(cfg, Exec(cfg, w, run[..|run| - 1]), run[|run| - 1], order);
    }
  }
}
