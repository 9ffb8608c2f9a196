/** The quotes behind recorded paper fills. */
module PaperFills {
  import opened Types
  import opened Ledger
  import opened MarketData
  import opened Outbox
  import opened OutboxSafety
  import opened OutboxTheorems
  import opened Guarantees
  import opened Conservation
  import PaperAdapter

  /** At some step of the run a pass at this order was given a fresh quote at this price. */
  ghost predicate Quoted(cfg: Config, run: seq<Event>, order: OrderId, price: int)
    decreases |run|
  {
    run != [] &&
    var w, e := Exec(cfg, INITIAL, run[..|run| - 1]), run[|run| - 1];
    || Quoted(cfg, run[..|run| - 1], order, price)
    || (&& e.Respond? && InPhase(w, e.task) && CommandOf(w, e.task).key.order == order
        && e.estimate.Some? && e.estimate.value.isFresh && e.estimate.value.price == price)
  }

  ghost predicate AnswerQuoted(cfg: Config, run: seq<Event>, t: Tables, task: Task) {
    task.command < |t.commands| && t.commands[task.command].mode.Paper?
    && task.phase.Answered? && task.phase.r.fillsToAdd != [] ==>
      Quoted(cfg, run, t.commands[task.command].key.order, task.phase.r.fillsToAdd[0].price)
  }

  ghost predicate FillsQuoted(cfg: Config, run: seq<Event>, t: Tables, order: OrderId) {
    order in t.orders && t.orders[order].mode.Paper? ==>
      var fills := FillsOf(t.fills, order);
      forall i :: 0 <= i < |fills| ==> Quoted(cfg, run, order, fills[i].price)
  }

  lemma PaperFillIsAtQuote(s: ReconcileSnapshot, estimate: Option<Estimate>)
    ensures var r := PaperAdapter.ReconcileOrder(s, estimate);
      r.fillsToAdd != [] ==>
        estimate.Some? && estimate.value.isFresh && r.fillsToAdd[0].price == estimate.value.price
  {
  }

  lemma AnswersStayQuoted(cfg: Config, run: seq<Event>, e: Event, k: nat)
    requires var w := Exec(cfg, INITIAL, run);
      && Inv(w) && k in Step(cfg, w, e).tasks
      && forall k :: k in w.tasks ==> AnswerQuoted(cfg, run, w.t, w.tasks[k])
    requires Exec(cfg, INITIAL, run + [e]) == Step(cfg, Exec(cfg, INITIAL, run), e)
    ensures var w' := Exec(cfg, INITIAL, run + [e]); AnswerQuoted(cfg, run + [e], w'.t, w'.tasks[k])
  {
    var w, w' := Exec(cfg, INITIAL, run), Exec(cfg, INITIAL, run + [e]);
    assert (run + [e])[..|run|] == run;
    StepKeeps(cfg, w, e);
    if w'.tasks[k].phase.Answered? {
      AnsweredBefore(cfg, w, e, k);
      assert TaskOk(w.t, w.tasks[k]) && AnswerQuoted(cfg, run, w.t, w.tasks[k]);
      if w'.tasks[k] != w.tasks[k] && CommandOf(w, k).mode.Paper? {
        PaperFillIsAtQuote(w.tasks[k].phase.s, e.estimate);
      }
    }
  }

  /** The fills of a paper order after a pass: those before it, and a quoted one at most. */
  lemma PassAddsQuoted(cfg: Config, run: seq<Event>, e: Event, order: OrderId)
    requires var w := Exec(cfg, INITIAL, run);
      && Inv(w) && order in w.t.orders && w.t.orders[order].mode.Paper?
      && e.Commit? && InPhase(w, e.task) && w.tasks[e.task].phase.Answered?
      && AnswerQuoted(cfg, run, w.t, w.tasks[e.task])
    ensures var w := Exec(cfg, INITIAL, run);
      var fills, fills' := FillsOf(w.t.fills, order), FillsOf(Step(cfg, w, e).t.fills, order);
      || fills' == fills
      || exists fill: Fill :: fills' == fills + [fill] && Quoted(cfg, run, order, fill.price)
  {
    var w := Exec(cfg, INITIAL, run);
    var phase, c := w.tasks[e.task].phase, CommandOf(w, e.task);
    assert CommandOk(w.t.orders, c);
    CommitCases(cfg, w, e, phase.s, phase.r, phase.resp);
    FillsAfterPersist(w.t.fills, c.account, c.key.order, phase.r.fillsToAdd, order);
    if phase.r.fillsToAdd != [] {
      assert phase.r.fillsToAdd == [phase.r.fillsToAdd[0]];
    }
  }

  lemma StepAddsQuoted(cfg: Config, run: seq<Event>, e: Event, order: OrderId)
    requires var w := Exec(cfg, INITIAL, run);
      && Inv(w) && order in w.t.orders && w.t.orders[order].mode.Paper?
      && forall k :: k in w.tasks ==> AnswerQuoted(cfg, run, w.t, w.tasks[k])
    ensures var w := Exec(cfg, INITIAL, run);
      var fills, fills' := FillsOf(w.t.fills, order), FillsOf(Step(cfg, w, e).t.fills, order);
      || fills' == fills
      || exists fill: Fill :: fills' == fills + [fill] && Quoted(cfg, run, order, fill.price)
  {
    var w := Exec(cfg, INITIAL, run);
    if e.Commit? && InPhase(w, e.task) && w.tasks[e.task].phase.Answered? {
      PassAddsQuoted(cfg, run, e, order);
    } else {
      OtherStepsLeaveFills(cfg, w, e);
    }
  }

  lemma FillsStayQuoted(cfg: Config, run: seq<Event>, e: Event, order: OrderId)
    requires var w := Exec(cfg, INITIAL, run);
      && Inv(w) && FillsQuoted(cfg, run, w.t, order)
      && forall k :: k in w.tasks ==> AnswerQuoted(cfg, run, w.t, w.tasks[k])
    ensures FillsQuoted(cfg, run + [e], Step(cfg, Exec(cfg, INITIAL, run), e).t, order)
  {
    var w := Exec(cfg, INITIAL, run);
    assert (run + [e])[..|run|] == run;
    StepKeeps(cfg, w, e);
    if order in w.t.orders {
      assert OrderEvolves(w.t, Step(cfg, w, e).t, order);
      if w.t.orders[order].mode.Paper? {
        StepAddsQuoted(cfg, run, e, order);
      }
    } else if order in Step(cfg, w, e).t.orders {
      NewOrdersArePlaced(cfg, w, e, order);
      NoFillsOfUnplaced(w.t, order);
    }
  }

  lemma {:induction false} AllQuoted(cfg: Config, run: seq<Event>)
    ensures var w := Exec(cfg, INITIAL, run);
      && Inv(w)
      && (forall k :: k in w.tasks ==> AnswerQuoted(cfg, run, w.t, w.tasks[k]))
      && (forall order :: FillsQuoted(cfg, run, w.t, order))
    decreases |run|
  {
    ExecKeeps(cfg, INITIAL, run);
    if run != [] {
      var front, e := run[..|run| - 1], run[|run| - 1];
      assert front + [e] == run;
      AllQuoted(cfg, front);
      var w' := Exec(cfg, INITIAL, run);
      forall k | k in w'.tasks
        ensures AnswerQuoted(cfg, run, w'.t, w'.tasks[k])
      {
        AnswersStayQuoted(cfg, front, e, k);
      }
      forall order
        ensures FillsQuoted(cfg, run, w'.t, order)
      {
        FillsStayQuoted(cfg, front, e, order);
      }
    }
  }

  /** In every run each recorded paper fill is at a quote that was fresh when a pass
    at its order was given it, and within the order's limit. */
  lemma PaperFillsAreQuoted(cfg: Config, run: seq<Event>, order: OrderId, i: nat)
    requires var t := Exec(cfg, INITIAL, run).t;
      && order in t.orders && t.orders[order].mode.Paper? && i < |FillsOf(t.fills, order)|
    ensures var t := Exec(cfg, INITIAL, run).t;
      var row, price := t.orders[order], FillsOf(t.fills, order)[i].price;
      && Quoted(cfg, run, order, price)
      && PaperAdapter.WithinLimit(row.orderType, row.side, row.price, price)
  {
    AllQuoted(cfg, run);
    var t := Exec(cfg, INITIAL, run).t;
    assert OrderOk(t, order) && FillsQuoted(cfg, run, t, order);
  }
}
