/** The recorded ledger of a live order never runs ahead of the exchange. */
module LiveLedger {
  import opened Types
  import opened Ledger
  import opened Outbox
  import opened OutboxSafety
  import opened OutboxTheorems
  import opened Guarantees
  import opened BinanceAdapter

  // ----- answers come from their responses -----

  ghost predicate TaskAnswers(t: Tables, task: Task) {
    task.command < |t.commands| && t.commands[task.command].mode.Live? && task.phase.Answered? ==>
      BinanceAdapter.ReconcileOrder(task.phase.s, task.phase.resp) == Ok(task.phase.r)
  }

  ghost predicate AllAnswer(w: World) {
    forall k {:trigger w.tasks[k]} :: k in w.tasks ==> TaskAnswers(w.t, w.tasks[k])
  }

  lemma StepAnswers(cfg: Config, w: World, e: Event)
    requires Inv(w) && AllAnswer(w)
    ensures AllAnswer(Step(cfg, w, e))
  {
    var w' := Step(cfg, w, e);
    StepKeeps(cfg, w, e);
    forall k | k in w'.tasks
      ensures TaskAnswers(w'.t, w'.tasks[k])
    {
      if w'.tasks[k].phase.Answered? {
        AnsweredBefore(cfg, w, e, k);
        assert TaskOk(w.t, w.tasks[k]) && TaskAnswers(w.t, w.tasks[k]);
      }
    }
  }

  lemma {:induction false} RunAnswers(cfg: Config, run: seq<Event>)
    ensures Inv(Exec(cfg, INITIAL, run)) && AllAnswer(Exec(cfg, INITIAL, run))
    decreases |run|
  {
    ExecKeeps(cfg, INITIAL, run);
    if run != [] {
      RunAnswers(cfg, run[..|run| - 1]);
      StepAnswers(cfg, Exec(cfg, INITIAL, run[..|run| - 1]), run[|run| - 1]);
    }
  }

  // ----- what an honest exchange reports -----

  /** A reconcile of a live order. */
  predicate Asks(w: World, e: Event) {
    && e.Respond? && InPhase(w, e.task)
    && CommandOf(w, e.task).mode.Live? && CommandOf(w, e.task).key.Kind().ReconcileOrder?
  }

  /** The exchange reports at most its executed quantity of that moment, which
    `Execute` events only ever increase: its answers may be late or incomplete,
    but not invented. A prompt one reports exactly that quantity. */
  predicate Truthful(w: World, e: Event, prompt: bool) {
    Asks(w, e) ==>
      var reported, executed := OrZero(e.resp.executedQty), Executed(w, CommandOf(w, e.task).key.order);
      reported <= executed && (prompt ==> reported == executed)
  }

  ghost predicate TruthfulRun(cfg: Config, run: seq<Event>, prompt: bool) {
    forall i :: 0 <= i < |run| ==> Truthful(Exec(cfg, INITIAL, run[..i]), run[i], prompt)
  }

  ghost predicate OrderBehind(w: World, order: OrderId)
    requires order in w.t.orders
  {
    w.t.orders[order].mode.Live? ==> w.t.orders[order].filled <= Executed(w, order)
  }

  /** An answer in flight was true when it was given, so it is at most true now. */
  ghost predicate TaskBehind(w: World, task: Task, prompt: bool) {
    task.command < |w.t.commands| &&
    var c := w.t.commands[task.command];
    c.mode.Live? && task.phase.Answered? ==>
      var recorded := SumQuantity(task.phase.s.fills);
      && recorded + SumQuantity(task.phase.r.fillsToAdd) <= Executed(w, c.key.order)
      && (prompt ==> recorded <= OrZero(task.phase.resp.executedQty))
  }

  ghost predicate Behind(w: World, prompt: bool) {
    && Inv(w)
    && (forall order :: order in w.executed ==> w.executed[order] >= 0)
    && (forall order {:trigger OrderBehind(w, order)} :: order in w.t.orders ==> OrderBehind(w, order))
    && (forall k {:trigger TaskBehind(w, w.tasks[k], prompt)} :: k in w.tasks ==> TaskBehind(w, w.tasks[k], prompt))
  }

  lemma SnapshotBehind(w: World, c: Command, s: ReconcileSnapshot, prompt: bool)
    requires Behind(w, prompt) && CommandOk(w.t.orders, c) && c.mode.Live? && SnapshotOk(w.t, c, s)
    ensures SumQuantity(s.fills) <= Executed(w, c.key.order)
  {
    assert OrderOk(w.t, c.key.order) && OrderBehind(w, c.key.order);
    PrefixDeterminedBySum(s.fills, FillsOf(w.t.fills, c.key.order));
  }

  lemma ExecutedGrows(cfg: Config, w: World, e: Event, order: OrderId)
    ensures Executed(w, order) <= Executed(Step(cfg, w, e), order)
  {
  }

  /** The answer of a truthful exchange accounts for no more than it has executed. */
  lemma TruthfulAnswer(w: World, c: Command, s: ReconcileSnapshot, resp: Response, r: ReconcileResult, prompt: bool)
    requires Behind(w, prompt) && CommandOk(w.t.orders, c) && c.mode.Live? && SnapshotOk(w.t, c, s)
    requires OrZero(resp.executedQty) <= Executed(w, c.key.order)
    requires BinanceAdapter.ReconcileOrder(s, resp) == Ok(r)
    ensures SumQuantity(s.fills) + SumQuantity(r.fillsToAdd) <= Executed(w, c.key.order)
    ensures SumQuantity(s.fills) <= Executed(w, c.key.order)
  {
    SnapshotBehind(w, c, s, prompt);
    BinanceAdapter.AddsTheExcess(s, resp);
  }

  lemma StepTaskBehind(cfg: Config, w: World, e: Event, k: nat, prompt: bool)
    requires Behind(w, prompt) && Truthful(w, e, prompt) && k in Step(cfg, w, e).tasks
    requires Step(cfg, w, e).tasks[k].phase.Answered?
    ensures TaskBehind(Step(cfg, w, e), Step(cfg, w, e).tasks[k], prompt)
  {
    var w' := Step(cfg, w, e);
    StepKeeps(cfg, w, e);
    assert TaskOk(w'.t, w'.tasks[k]);
    AnsweredBefore(cfg, w, e, k);
    assert TaskOk(w.t, w.tasks[k]) && TaskBehind(w, w.tasks[k], prompt);
    var c := w.t.commands[w.tasks[k].command];
    ExecutedGrows(cfg, w, e, c.key.order);
    if w'.tasks[k] != w.tasks[k] && c.mode.Live? {
      assert CommandOk(w.t.orders, c);
      TruthfulAnswer(w, c, w.tasks[k].phase.s, e.resp, w'.tasks[k].phase.r, prompt);
    }
  }

  lemma CommitBehind(cfg: Config, w: World, e: Event, order: OrderId, prompt: bool)
    requires Behind(w, prompt) && order in w.t.orders && order in Step(cfg, w, e).t.orders
    requires e.Commit? && InPhase(w, e.task) && w.tasks[e.task].phase.Answered?
    ensures OrderBehind(Step(cfg, w, e), order)
  {
    var phase := w.tasks[e.task].phase;
    assert OrderBehind(w, order);
    assert TaskOk(w.t, w.tasks[e.task]) && TaskBehind(w, w.tasks[e.task], prompt);
    assert CommandOk(w.t.orders, CommandOf(w, e.task));
    CommitCases(cfg, w, e, phase.s, phase.r, phase.resp);
    assert Step(cfg, w, e).executed == w.executed;
  }

  /** Only a reconcile pass records quantity. */
  lemma OthersRecordNothing(cfg: Config, w: World, e: Event, order: OrderId)
    requires order in Step(cfg, w, e).t.orders
    requires !(e.Commit? && InPhase(w, e.task) && w.tasks[e.task].phase.Answered?)
    ensures var row' := Step(cfg, w, e).t.orders[order];
      if order in w.t.orders then row'.filled == w.t.orders[order].filled && row'.mode == w.t.orders[order].mode
      else row'.filled == 0
  {
  }

  lemma StepOrderBehind(cfg: Config, w: World, e: Event, order: OrderId, prompt: bool)
    requires Behind(w, prompt) && order in Step(cfg, w, e).t.orders
    ensures OrderBehind(Step(cfg, w, e), order)
  {
    if e.Commit? && InPhase(w, e.task) && w.tasks[e.task].phase.Answered? {
      CommitKeepsOrders(cfg, w, e);
      CommitBehind(cfg, w, e, order, prompt);
    } else {
      OthersRecordNothing(cfg, w, e, order);
      ExecutedGrows(cfg, w, e, order);
      assert order in w.t.orders ==> OrderBehind(w, order);
    }
  }

  lemma CommitKeepsOrders(cfg: Config, w: World, e: Event)
    requires Inv(w) && e.Commit? && InPhase(w, e.task) && w.tasks[e.task].phase.Answered?
    ensures Step(cfg, w, e).t.orders.Keys == w.t.orders.Keys
  {
    var phase := w.tasks[e.task].phase;
    CommitCases(cfg, w, e, phase.s, phase.r, phase.resp);
  }

  lemma StepKeepsBehind(cfg: Config, w: World, e: Event, prompt: bool)
    requires Behind(w, prompt) && Truthful(w, e, prompt)
    ensures Behind(Step(cfg, w, e), prompt)
  {
    var w' := Step(cfg, w, e);
    StepKeeps(cfg, w, e);
    forall order | order in w'.t.orders
      ensures OrderBehind(w', order)
    {
      StepOrderBehind(cfg, w, e, order, prompt);
    }
    forall k | k in w'.tasks
      ensures TaskBehind(w', w'.tasks[k], prompt)
    {
      assert TaskOk(w'.t, w'.tasks[k]);
      if w'.tasks[k].phase.Answered? {
        StepTaskBehind(cfg, w, e, k, prompt);
      }
    }
  }

  lemma {:induction false} ExecKeepsBehind(cfg: Config, run: seq<Event>, prompt: bool)
    requires TruthfulRun(cfg, run, prompt)
    ensures Behind(Exec(cfg, INITIAL, run), prompt)
    decreases |run|
  {
    if run != [] {
      var front := run[..|run| - 1];
      forall i | 0 <= i < |front|
        ensures Truthful(Exec(cfg, INITIAL, front[..i]), front[i], prompt)
      {
        assert front[..i] == run[..i];
      }
      ExecKeepsBehind(cfg, front, prompt);
      StepKeepsBehind(cfg, Exec(cfg, INITIAL, front), run[|run| - 1], prompt);
    }
  }

  /** Over every interleaving of workers holding responses of different ages, the
    recorded quantity of a live order is at most what the exchange has executed. */
  lemma NeverAhead(cfg: Config, run: seq<Event>, order: OrderId)
    requires TruthfulRun(cfg, run, false)
    requires var t := Exec(cfg, INITIAL, run).t; order in t.orders && t.orders[order].mode.Live?
    ensures var w := Exec(cfg, INITIAL, run); w.t.orders[order].filled <= Executed(w, order)
  {
    ExecKeepsBehind(cfg, run, false);
    assert OrderBehind(Exec(cfg, INITIAL, run), order);
  }

  /** The commit of a live pass that changes a status. */
  predicate CommitsStatus(cfg: Config, w: World, e: Event) {
    && e.Commit? && InPhase(w, e.task) && CommandOf(w, e.task).mode.Live? && w.tasks[e.task].phase.Answered?
    && w.tasks[e.task].phase.r.newStatus.Some? && Step(cfg, w, e).t != w.t
  }

  /** Whatever the exchange reports: a pass that commits a status change leaves
    recorded the executed quantity that pass read, or what was recorded before if
    that was more, neither more nor less. */
  lemma CommitRecordsTheLarger(cfg: Config, run: seq<Event>, e: Event)
    requires CommitsStatus(cfg, Exec(cfg, INITIAL, run), e)
    ensures var w := Exec(cfg, INITIAL, run);
      var phase, order := w.tasks[e.task].phase, CommandOf(w, e.task).key.order;
      var reported, recorded := OrZero(phase.resp.executedQty), SumQuantity(phase.s.fills);
      var t' := Step(cfg, w, e).t;
      && order in t'.orders && t'.orders[order].status == phase.r.newStatus.value
      && t'.orders[order].filled == if reported >= recorded then reported else recorded
  {
    RunAnswers(cfg, run);
    var w := Exec(cfg, INITIAL, run);
    var phase := w.tasks[e.task].phase;
    assert TaskOk(w.t, w.tasks[e.task]) && TaskAnswers(w.t, w.tasks[e.task]);
    BinanceAdapter.AddsTheExcess(phase.s, phase.resp);
    CommitCases(cfg, w, e, phase.s, phase.r, phase.resp);
  }

  /** With a prompt exchange that is exactly the executed quantity the pass read. */
  lemma CommitCatchesUp(cfg: Config, run: seq<Event>, e: Event)
    requires TruthfulRun(cfg, run, true) && CommitsStatus(cfg, Exec(cfg, INITIAL, run), e)
    ensures var w := Exec(cfg, INITIAL, run);
      var phase, order := w.tasks[e.task].phase, CommandOf(w, e.task).key.order;
      var t' := Step(cfg, w, e).t;
      && order in t'.orders && t'.orders[order].status == phase.r.newStatus.value
      && t'.orders[order].filled == OrZero(phase.resp.executedQty)
  {
    CommitRecordsTheLarger(cfg, run, e);
    ExecKeepsBehind(cfg, run, true);
    var w := Exec(cfg, INITIAL, run);
    assert TaskBehind(w, w.tasks[e.task], true);
  }
}
