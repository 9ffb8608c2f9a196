/** The pricing of the fills that a run of the outbox leaves in the table: what
  `Pricing` says of a sequence of responses holds of every reached live order. */
module LivePricing {
  import opened Types
  import opened Ledger
  import opened Outbox
  import opened OutboxSafety
  import opened OutboxTheorems
  import opened Guarantees
  import opened BinanceAdapter
  import opened Pricing
  import opened LiveLedger

  /** The commit of a reconcile of this order that adds a fill. */
  predicate RecordsFill(cfg: Config, w: World, e: Event, order: OrderId) {
    && e.Commit? && InPhase(w, e.task) && w.tasks[e.task].phase.Answered?
    && CommandOf(w, e.task).key.order == order && Step(cfg, w, e).t.fills != w.t.fills
  }

  /** The order as it was, and the response, behind each of its fills. */
  function History(cfg: Config, run: seq<Event>, order: OrderId): seq<Pass>
    decreases |run|
  {
    if run == [] then []
    else
      var w, e := Exec(cfg, INITIAL, run[..|run| - 1]), run[|run| - 1];
      var earlier := History(cfg, run[..|run| - 1], order);
      if RecordsFill(cfg, w, e, order)
      then earlier + [Pass(w.tasks[e.task].phase.s.order, w.tasks[e.task].phase.resp)]
      else earlier
  }

  // ----- the table is the replay of the history -----

  /** The passes account for the fills, one each, and for the last quote. */
  ghost predicate Books(fills: seq<Fill>, passes: seq<Pass>) {
    var book := Replay(EMPTY, passes);
    && book.fills == fills && |passes| == |fills|
    && (fills != [] ==>
          && book.quote == OrZero(passes[|fills| - 1].resp.cumulativeQuote)
          && book.lastQuantity == fills[|fills| - 1].quantity)
  }

  lemma BookOneMore(fills: seq<Fill>, passes: seq<Pass>, pass: Pass, fill: Fill)
    requires Books(fills, passes) && Recorded(fills, pass) == Some(fill)
    ensures Books(fills + [fill], passes + [pass])
  {
    ReplayThen(EMPTY, passes, pass);
  }

  lemma AnswerIsRecorded(s: ReconcileSnapshot, resp: Response, r: ReconcileResult)
    requires BinanceAdapter.ReconcileOrder(s, resp) == Ok(r) && r.fillsToAdd != [] && r.fillsToAdd[0].price > 0
    ensures Recorded(s.fills, Pass(s.order, resp)) == Some(r.fillsToAdd[0])
  {
    assert ReconcileSnapshot(s.order, s.fills) == s;
  }

  lemma FillBooked(cfg: Config, w: World, e: Event, order: OrderId, passes: seq<Pass>)
    requires Inv(w) && AllAnswer(w) && order in w.t.orders && w.t.orders[order].mode.Live?
    requires Books(FillsOf(w.t.fills, order), passes) && RecordsFill(cfg, w, e, order)
    ensures Books(FillsOf(Step(cfg, w, e).t.fills, order),
                  passes + [Pass(w.tasks[e.task].phase.s.order, w.tasks[e.task].phase.resp)])
  {
    var phase := w.tasks[e.task].phase;
    FillAppended(cfg, w, e, order);
    AnswerIsRecorded(phase.s, phase.resp, phase.r);
    BookOneMore(phase.s.fills, passes, Pass(phase.s.order, phase.resp), phase.r.fillsToAdd[0]);
  }

  /** What such a commit adds to the order's fills. */
  lemma FillAppended(cfg: Config, w: World, e: Event, order: OrderId)
    requires Inv(w) && AllAnswer(w) && order in w.t.orders && w.t.orders[order].mode.Live?
    requires RecordsFill(cfg, w, e, order)
    ensures var phase := w.tasks[e.task].phase;
      && BinanceAdapter.ReconcileOrder(phase.s, phase.resp) == Ok(phase.r)
      && phase.s.fills == FillsOf(w.t.fills, order)
      && phase.r.fillsToAdd != [] && phase.r.fillsToAdd[0].price > 0
      && FillsOf(Step(cfg, w, e).t.fills, order) == phase.s.fills + [phase.r.fillsToAdd[0]]
  {
    var phase, c := w.tasks[e.task].phase, CommandOf(w, e.task);
    assert CommandOk(w.t.orders, c) && TaskAnswers(w.t, w.tasks[e.task]) && TaskOk(w.t, w.tasks[e.task]);
    CommitCases(cfg, w, e, phase.s, phase.r, phase.resp);
    FillsAfterPersist(w.t.fills, c.account, order, phase.r.fillsToAdd, order);
    assert w.t.fills + [] == w.t.fills;
  }

  /** Nothing else touches the order's fills. */
  lemma OthersLeaveFills(cfg: Config, w: World, e: Event, order: OrderId)
    requires Inv(w) && !RecordsFill(cfg, w, e, order)
    ensures FillsOf(Step(cfg, w, e).t.fills, order) == FillsOf(w.t.fills, order)
  {
    if e.Commit? && InPhase(w, e.task) && w.tasks[e.task].phase.Answered? {
      var phase, c := w.tasks[e.task].phase, CommandOf(w, e.task);
      CommitCases(cfg, w, e, phase.s, phase.r, phase.resp);
      FillsAfterPersist(w.t.fills, c.account, c.key.order, phase.r.fillsToAdd, order);
    }
  }

  lemma {:induction false} FillsAreReplayed(cfg: Config, run: seq<Event>, order: OrderId)
    ensures var t := Exec(cfg, INITIAL, run).t;
      if order in t.orders then t.orders[order].mode.Live? ==> Books(FillsOf(t.fills, order), History(cfg, run, order))
      else History(cfg, run, order) == []
    decreases |run|
  {
    if run != [] {
      var front, e := run[..|run| - 1], run[|run| - 1];
      var w := Exec(cfg, INITIAL, front);
      FillsAreReplayed(cfg, front, order);
      RunAnswers(cfg, front);
      StepKeeps(cfg, w, e);
      if order !in w.t.orders {
        UnplacedHasNoFills(cfg, w, e, order);
      } else {
        assert OrderEvolves(w.t, Step(cfg, w, e).t, order);
        if w.t.orders[order].mode.Live? && RecordsFill(cfg, w, e, order) {
          FillBooked(cfg, w, e, order, History(cfg, front, order));
        } else if w.t.orders[order].mode.Live? {
          OthersLeaveFills(cfg, w, e, order);
        }
      }
    }
  }

  lemma UnplacedHasNoFills(cfg: Config, w: World, e: Event, order: OrderId)
    requires Inv(w) && order !in w.t.orders
    ensures !RecordsFill(cfg, w, e, order)
    ensures FillsOf(Step(cfg, w, e).t.fills, order) == []
  {
    if e.Commit? && InPhase(w, e.task) {
      assert TaskOk(w.t, w.tasks[e.task]) && CommandOk(w.t.orders, CommandOf(w, e.task));
    }
    NoFillsOfUnplaced(w.t, order);
    OthersLeaveFills(cfg, w, e, order);
  }

  /** Over every run, with any number of workers and all faults: the recorded
    quote of a live order is within half a price unit, on its last fill, of the
    cumulative quote the exchange reported for that fill, provided that each
    response behind a fill fits (`Pricing.AccurateExactlyWhenAllFit`: exactly
    then it is so all along). */
  lemma LivePricingDoesNotDrift(cfg: Config, run: seq<Event>, order: OrderId)
    requires var t := Exec(cfg, INITIAL, run).t; order in t.orders && t.orders[order].mode.Live?
    requires FillsOf(Exec(cfg, INITIAL, run).t.fills, order) != [] && AllFit(EMPTY, History(cfg, run, order))
    ensures var fills, passes := FillsOf(Exec(cfg, INITIAL, run).t.fills, order), History(cfg, run, order);
      && |passes| == |fills|
      && var drift := SumQuote(fills) - OrZero(passes[|fills| - 1].resp.cumulativeQuote);
         -fills[|fills| - 1].quantity <= 2 * drift <= fills[|fills| - 1].quantity
  {
    FillsAreReplayed(cfg, run, order);
    AccurateExactlyWhenAllFit(EMPTY, History(cfg, run, order));
    AccurateAtTheEnd(EMPTY, History(cfg, run, order));
  }
}
