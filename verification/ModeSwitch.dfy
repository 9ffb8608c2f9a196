/** Switching an account between paper and live (routes_exchange.rs) while the
  outbox is running. The guard is a sequence of separate READ COMMITTED counts;
  fills do not lock the account. */
module ModeSwitch {
  import opened Types
  import opened Positions
  import opened Ledger
  import opened Outbox
  import opened OutboxSafety
  import opened OutboxTheorems
  import opened Guarantees
  import opened AdapterContract
  import opened Database
  import opened Conservation

  datatype ExchangeConfig = ExchangeConfig(mode: ExchangeMode, version: int)

  /** A put_exchange_config transaction that holds the account lock, and the next
    count it will run: the route counts orders then positions, the UPDATE trigger
    counts both again. `Ready` is past all of them. */
  datatype Stage = RouteOrders | RoutePositions | TriggerOrders | TriggerPositions | Ready

  datatype Put = Put(mode: ExchangeMode, stage: Stage)

  datatype Site = Site(w: World, configs: map<AccountId, ExchangeConfig>, puts: map<AccountId, Put>)

  datatype SiteEvent =
    | OutboxEvent(e: Event)
    | BeginPut(account: AccountId, mode: ExchangeMode, version: int)
    | RunCount(account: AccountId)
    | CommitPut(account: AccountId)
    | AbandonPut(account: AccountId)

  /** load_exchange_mode: paper until a config row exists. */
  function ConfiguredMode(site: Site, account: AccountId): ExchangeMode {
    if account in site.configs then site.configs[account].mode else Paper
  }

  predicate HasOpenOrder(t: Tables, account: AccountId) {
    exists order :: order in t.orders && t.orders[order].account == account && !t.orders[order].status.IsTerminal()
  }

  predicate HasOpenPosition(t: Tables, account: AccountId) {
    exists i :: 0 <= i < |t.positions| && t.positions[i].open && t.positions[i].quantity > 0
                && t.positions[i].account == account
  }

  /** What one count of the guard sees at its own moment. */
  predicate CountIsZero(t: Tables, account: AccountId, stage: Stage) {
    match stage
    case RouteOrders => !HasOpenOrder(t, account)
    case RoutePositions => !HasOpenPosition(t, account)
    case TriggerOrders => !HasOpenOrder(t, account)
    case TriggerPositions => !HasOpenPosition(t, account)
    case Ready => true
  }

  function NextStage(stage: Stage): Stage {
    match stage
    case RouteOrders => RoutePositions
    case RoutePositions => TriggerOrders
    case TriggerOrders => TriggerPositions
    case _ => Ready
  }

  /** place_order locks the account and stamps the order with the configured mode. */
  predicate Admitted(site: Site, e: Event) {
    e.PlaceOrder? ==> e.row.account !in site.puts && e.row.mode == ConfiguredMode(site, e.row.account)
  }

  function SiteStep(cfg: Config, site: Site, se: SiteEvent): Site {
    match se
    case OutboxEvent(e) => if Admitted(site, e) then site.(w := Step(cfg, site.w, e)) else site
    case BeginPut(account, mode, version) =>
      if account in site.puts then site
      else if account !in site.configs then site.(puts := site.puts[account := Put(mode, Ready)])
      else if site.configs[account].version != version then site
      else if site.configs[account].mode == mode then site.(puts := site.puts[account := Put(mode, Ready)])
      else site.(puts := site.puts[account := Put(mode, RouteOrders)])
    case RunCount(account) =>
      if account !in site.puts then site
      else
        var put := site.puts[account];
        if CountIsZero(site.w.t, account, put.stage)
        then site.(puts := site.puts[account := put.(stage := NextStage(put.stage))])
        else site.(puts := site.puts - {account})
    case CommitPut(account) =>
      if account !in site.puts || !site.puts[account].stage.Ready? then site
      else
        var version := if account in site.configs then site.configs[account].version else 0;
        site.(configs := site.configs[account := ExchangeConfig(site.puts[account].mode, version + 1)],
              puts := site.puts - {account})
    case AbandonPut(account) => site.(puts := site.puts - {account})
  }

  function SiteExec(cfg: Config, site: Site, run: seq<SiteEvent>): Site
    decreases |run|
  {
    if run == [] then site else SiteStep(cfg, SiteExec(cfg, site, run[..|run| - 1]), run[|run| - 1])
  }

  // ----- an account without open orders is frozen -----

  /** A delta only ever touches rows of its own account and symbol. */
  lemma DeltaStaysHome(schema: Schema, ps: seq<Position>, account: AccountId, symbol: Symbol, delta: int, price: int)
    ensures ApplyDelta(schema, ps, account, symbol, delta, price).Some? ==>
      SameElsewhere(ps, ApplyDelta(schema, ps, account, symbol, delta, price).value, account, symbol)
  {
  }

  lemma PassStaysHome(cfg: Config, t: Tables, c: Command, s: ReconcileSnapshot, r: ReconcileResult,
                      readPositions: seq<Position>, leftPositions: seq<Position>)
    requires TablesOk(t) && SnapshotOk(t, c, s) && AnswerOk(c, s, r)
    ensures match PersistAmongWorkers(cfg, t, c.account, s, r, readPositions, leftPositions)
      case Committed(t') =>
        && SameElsewhere(t.positions, t'.positions, c.account, s.order.symbol)
        && (t.orders[c.key.order].status.IsTerminal() ==> t'.positions == t.positions)
      case Aborted(_) => true
  {
    var tx := PersistAmongWorkers(cfg, t, c.account, s, r, readPositions, leftPositions);
    PersistAmongWorkersCases(cfg, t, c, s, r, readPositions, leftPositions);
    if tx.Committed? && cfg.serialPositions {
      SerialPassStaysHome(cfg.schema, t, c, s, r, tx.tables.positions);
    }
  }

  lemma SerialPassStaysHome(schema: Schema, t: Tables, c: Command, s: ReconcileSnapshot, r: ReconcileResult,
                            positions: seq<Position>)
    requires s.order.orderId in t.orders && AnswerOk(c, s, r) && Persistable(schema, t, c.account, s, r, positions)
    ensures SameElsewhere(t.positions, positions, c.account, s.order.symbol)
  {
    if r.fillsToAdd != [] {
      assert OneFill(c.mode, s, r);
      var d := r.positionsDelta[0];
      assert r.positionsDelta[..|r.positionsDelta| - 1] == [];
      assert ApplyDeltas(schema, t.positions, c.account, [], FirstPrice(r.fillsToAdd)) == Some(t.positions);
      DeltaStaysHome(schema, t.positions, c.account, d.symbol, d.quantityDelta, FirstPrice(r.fillsToAdd));
    }
  }

  lemma FrozenOrders(cfg: Config, w: World, e: Event, account: AccountId)
    requires Inv(w) && !HasOpenOrder(w.t, account)
    requires e.PlaceOrder? ==> e.row.account != account
    ensures !HasOpenOrder(Step(cfg, w, e).t, account)
  {
    var t' := Step(cfg, w, e).t;
    StepKeeps(cfg, w, e);
    forall order | order in t'.orders && t'.orders[order].account == account
      ensures t'.orders[order].status.IsTerminal()
    {
      if order in w.t.orders {
        assert OrderEvolves(w.t, t', order);
      } else {
        NewOrdersArePlaced(cfg, w, e, order);
      }
    }
  }

  /** Once all orders of an account are terminal, and as long as no new one is
    placed, neither its orders nor its positions can change. */
  lemma Frozen(cfg: Config, w: World, e: Event, account: AccountId)
    requires Inv(w) && !HasOpenOrder(w.t, account)
    requires e.PlaceOrder? ==> e.row.account != account
    ensures !HasOpenOrder(Step(cfg, w, e).t, account)
    ensures !HasOpenPosition(w.t, account) ==> !HasOpenPosition(Step(cfg, w, e).t, account)
  {
    FrozenOrders(cfg, w, e, account);
    var t' := Step(cfg, w, e).t;
    if e.Commit? && InPhase(w, e.task) && w.tasks[e.task].phase.Answered? {
      var phase, c := w.tasks[e.task].phase, CommandOf(w, e.task);
      assert TaskOk(w.t, w.tasks[e.task]) && CommandOk(w.t.orders, c);
      PassStaysHome(cfg, w.t, c, phase.s, phase.r, e.readPositions, e.leftPositions);
      OpenPositionsKept(w.t, t', c.account, phase.s.order.symbol, account);
    }
  }

  lemma OpenPositionsKept(t: Tables, t': Tables, account: AccountId, symbol: Symbol, other: AccountId)
    requires t'.positions == t.positions
      || (account != other && SameElsewhere(t.positions, t'.positions, account, symbol))
    ensures HasOpenPosition(t', other) ==> HasOpenPosition(t, other)
  {
    if HasOpenPosition(t', other) {
      var i :| 0 <= i < |t'.positions| && t'.positions[i].open && t'.positions[i].quantity > 0
               && t'.positions[i].account == other;
      assert i < |t.positions| && t.positions[i] == t'.positions[i];
    }
  }

  // ----- soundness of the guard -----

  predicate Switching(site: Site, account: AccountId) {
    account in site.puts && account in site.configs && site.configs[account].mode != site.puts[account].mode
  }

  /** What the counts already run still guarantee. */
  ghost predicate GuardHolds(site: Site, account: AccountId) {
    Switching(site, account) ==>
      && (!site.puts[account].stage.RouteOrders? ==> !HasOpenOrder(site.w.t, account))
      && (!site.puts[account].stage.RouteOrders? && !site.puts[account].stage.RoutePositions? ==>
            !HasOpenPosition(site.w.t, account))
  }

  ghost predicate ModeOk(site: Site, order: OrderId)
    requires order in site.w.t.orders
  {
    var row := site.w.t.orders[order];
    row.status.IsTerminal() || row.mode == ConfiguredMode(site, row.account)
  }

  ghost predicate ModesAgree(site: Site, account: AccountId) {
    forall order {:trigger ModeOk(site, order)} ::
      order in site.w.t.orders && site.w.t.orders[order].account == account ==> ModeOk(site, order)
  }

  ghost predicate SiteOk(site: Site) {
    Inv(site.w) && forall account {:trigger GuardHolds(site, account)} :: GuardHolds(site, account)
  }

  lemma SiteStepOk(cfg: Config, site: Site, se: SiteEvent)
    requires SiteOk(site)
    ensures SiteOk(SiteStep(cfg, site, se))
  {
    var site' := SiteStep(cfg, site, se);
    if se.OutboxEvent? && Admitted(site, se.e) {
      StepKeeps(cfg, site.w, se.e);
    }
    forall account
      ensures GuardHolds(site', account)
    {
      assert GuardHolds(site, account);
      if se.OutboxEvent? && Admitted(site, se.e) && Switching(site, account) && !HasOpenOrder(site.w.t, account) {
        Frozen(cfg, site.w, se.e, account);
      }
    }
  }

  lemma {:induction false} SiteExecOk(cfg: Config, site: Site, run: seq<SiteEvent>)
    requires SiteOk(site)
    ensures SiteOk(SiteExec(cfg, site, run))
    decreases |run|
  {
    if run != [] {
      SiteExecOk(cfg, site, run[..|run| - 1]);
      SiteStepOk(cfg, SiteExec(cfg, site, run[..|run| - 1]), run[|run| - 1]);
    }
  }

  /** The first config row of the account goes in as live while it has open orders. */
  predicate FirstGoesLive(site: Site, se: SiteEvent, account: AccountId) {
    && se == CommitPut(account) && account in site.puts && site.puts[account].stage.Ready?
    && account !in site.configs && site.puts[account].mode.Live? && HasOpenOrder(site.w.t, account)
  }

  /** An outbox step keeps the modes right: new orders are stamped with the
    configured mode, old ones keep theirs. */
  lemma OutboxStepAgrees(cfg: Config, site: Site, e: Event, account: AccountId)
    requires SiteOk(site) && ModesAgree(site, account)
    ensures ModesAgree(SiteStep(cfg, site, OutboxEvent(e)), account)
  {
    if Admitted(site, e) {
      var site' := site.(w := Step(cfg, site.w, e));
      StepKeeps(cfg, site.w, e);
      forall order | order in site'.w.t.orders && site'.w.t.orders[order].account == account
        ensures ModeOk(site', order)
      {
        if order in site.w.t.orders {
          assert OrderEvolves(site.w.t, site'.w.t, order) && ModeOk(site, order);
        } else {
          NewOrdersArePlaced(cfg, site.w, e, order);
        }
      }
    }
  }

  lemma PutStepAgrees(cfg: Config, site: Site, se: SiteEvent, account: AccountId)
    requires SiteOk(site) && ModesAgree(site, account) && !se.OutboxEvent?
    ensures ModesAgree(SiteStep(cfg, site, se), account) <==> !FirstGoesLive(site, se, account)
  {
    var site' := SiteStep(cfg, site, se);
    assert GuardHolds(site, account);
    if FirstGoesLive(site, se, account) {
      var order :| order in site.w.t.orders && site.w.t.orders[order].account == account
                   && !site.w.t.orders[order].status.IsTerminal();
      assert ModeOk(site, order) && !ModeOk(site', order);
    } else {
      forall order | order in site'.w.t.orders && site'.w.t.orders[order].account == account
        ensures ModeOk(site', order)
      {
        assert ModeOk(site, order);
      }
    }
  }

  ghost predicate AgreeThroughout(cfg: Config, site: Site, run: seq<SiteEvent>, account: AccountId)
    decreases |run|
  {
    && ModesAgree(SiteExec(cfg, site, run), account)
    && (run != [] ==> AgreeThroughout(cfg, site, run[..|run| - 1], account))
  }

  ghost predicate NeverFirstGoesLive(cfg: Config, site: Site, run: seq<SiteEvent>, account: AccountId)
    decreases |run|
  {
    run != [] ==>
      && NeverFirstGoesLive(cfg, site, run[..|run| - 1], account)
      && !FirstGoesLive(SiteExec(cfg, site, run[..|run| - 1]), run[|run| - 1], account)
  }

  /** Exactly which runs keep every open order at the configured mode, whatever
    is configured when: those in which no first config row goes in as live
    while the account has open orders. The guard covers everything else. */
  lemma {:induction false} ModesAgreeExactly(cfg: Config, site: Site, run: seq<SiteEvent>, account: AccountId)
    requires SiteOk(site) && ModesAgree(site, account)
    ensures AgreeThroughout(cfg, site, run, account) <==> NeverFirstGoesLive(cfg, site, run, account)
    decreases |run|
  {
    if run != [] {
      var front, last := run[..|run| - 1], run[|run| - 1];
      var mid := SiteExec(cfg, site, front);
      ModesAgreeExactly(cfg, site, front, account);
      SiteExecOk(cfg, site, front);
      if AgreeThroughout(cfg, site, front, account) {
        if last.OutboxEvent? {
          OutboxStepAgrees(cfg, mid, last.e, account);
        } else {
          PutStepAgrees(cfg, mid, last, account);
        }
      }
    }
  }

  /** Every order of the account is placed when the account has a config row. */
  ghost predicate ConfiguredFirst(cfg: Config, site: Site, run: seq<SiteEvent>, account: AccountId) {
    forall i :: 0 <= i < |run| && run[i].OutboxEvent? && run[i].e.PlaceOrder? && run[i].e.row.account == account ==>
      account in SiteExec(cfg, site, run[..i]).configs
  }

  predicate NoOrders(t: Tables, account: AccountId) {
    forall order :: order in t.orders ==> t.orders[order].account != account
  }

  lemma StepKeepsNoOrders(cfg: Config, site: Site, se: SiteEvent, account: AccountId)
    requires SiteOk(site) && NoOrders(site.w.t, account)
    requires !(se.OutboxEvent? && se.e.PlaceOrder? && se.e.row.account == account)
    ensures NoOrders(SiteStep(cfg, site, se).w.t, account)
  {
    if se.OutboxEvent? && Admitted(site, se.e) {
      var t' := Step(cfg, site.w, se.e).t;
      StepKeeps(cfg, site.w, se.e);
      forall order | order in t'.orders
        ensures t'.orders[order].account != account
      {
        if order in site.w.t.orders {
          assert OrderEvolves(site.w.t, t', order);
        } else {
          NewOrdersArePlaced(cfg, site.w, se.e, order);
        }
      }
    }
  }

  lemma {:induction false} NoOrdersUntilConfigured(cfg: Config, site: Site, run: seq<SiteEvent>, account: AccountId)
    requires SiteOk(site) && NoOrders(site.w.t, account) && ConfiguredFirst(cfg, site, run, account)
    ensures account in SiteExec(cfg, site, run).configs || NoOrders(SiteExec(cfg, site, run).w.t, account)
    ensures NeverFirstGoesLive(cfg, site, run, account)
    decreases |run|
  {
    if run != [] {
      var front := run[..|run| - 1];
      assert forall i :: 0 <= i < |front| ==> front[..i] == run[..i] && front[i] == run[i];
      NoOrdersUntilConfigured(cfg, site, front, account);
      SiteExecOk(cfg, site, front);
      if account !in SiteExec(cfg, site, front).configs {
        StepKeepsNoOrders(cfg, SiteExec(cfg, site, front), run[|run| - 1], account);
      }
    }
  }

  /** For an account that is configured before its first order, in every run,
    also one that writes the config row itself: an open order always has the
    configured mode. */
  lemma OpenOrdersHaveConfiguredMode(cfg: Config, configs: map<AccountId, ExchangeConfig>, run: seq<SiteEvent>,
                                     account: AccountId, order: OrderId)
    requires ConfiguredFirst(cfg, Site(INITIAL, configs, map[]), run, account)
    requires var t := SiteExec(cfg, Site(INITIAL, configs, map[]), run).w.t;
      order in t.orders && t.orders[order].account == account
    ensures var site := SiteExec(cfg, Site(INITIAL, configs, map[]), run);
      var row := site.w.t.orders[order];
      && account in site.configs
      && (row.status.IsTerminal() || row.mode == site.configs[account].mode)
  {
    var start := Site(INITIAL, configs, map[]);
    NoOrdersUntilConfigured(cfg, start, run, account);
    ModesAgreeExactly(cfg, start, run, account);
    assert ModeOk(SiteExec(cfg, start, run), order);
  }

  /** A committed switch leaves no open order and no open position, although its
    counts were taken one after another while passes kept committing. */
  lemma SwitchLeavesNothingOpen(cfg: Config, configs: map<AccountId, ExchangeConfig>, run: seq<SiteEvent>,
                                account: AccountId)
    requires var site := SiteExec(cfg, Site(INITIAL, configs, map[]), run);
      var site' := SiteStep(cfg, site, CommitPut(account));
      account in site.configs && account in site'.configs && site'.configs[account].mode != site.configs[account].mode
    ensures var site' := SiteStep(cfg, SiteExec(cfg, Site(INITIAL, configs, map[]), run), CommitPut(account));
      var t := site'.w.t;
      && (forall order :: order in t.orders && t.orders[order].account == account ==>
            t.orders[order].status in {Filled, Cancelled, Rejected})
      && (forall i :: 0 <= i < |t.positions| && t.positions[i].account == account && t.positions[i].open ==>
            t.positions[i].quantity <= 0)
  {
    SiteExecOk(cfg, Site(INITIAL, configs, map[]), run);
    assert GuardHolds(SiteExec(cfg, Site(INITIAL, configs, map[]), run), account);
    NothingOpen(SiteExec(cfg, Site(INITIAL, configs, map[]), run).w.t, account);
  }

  /** What the guard's counts mean, row by row. */
  lemma NothingOpen(t: Tables, account: AccountId)
    ensures !HasOpenOrder(t, account) <==>
      forall order :: order in t.orders && t.orders[order].account == account ==>
        t.orders[order].status in {Filled, Cancelled, Rejected}
    ensures !HasOpenPosition(t, account) <==>
      forall i :: 0 <= i < |t.positions| && t.positions[i].account == account && t.positions[i].open ==>
        t.positions[i].quantity <= 0
  {
  }

  /** The outbox of a site is always in a state that some run of the outbox reaches. */
  lemma {:induction false} SiteIsRun(cfg: Config, configs: map<AccountId, ExchangeConfig>, run: seq<SiteEvent>)
    returns (events: seq<Event>)
    ensures SiteExec(cfg, Site(INITIAL, configs, map[]), run).w == Exec(cfg, INITIAL, events)
    decreases |run|
  {
    if run == [] {
      events := [];
    } else {
      var last := run[|run| - 1];
      events := SiteIsRun(cfg, configs, run[..|run| - 1]);
      if last.OutboxEvent? && Admitted(SiteExec(cfg, Site(INITIAL, configs, map[]), run[..|run| - 1]), last.e) {
        ExecThen(cfg, INITIAL, events, last.e);
        events := events + [last.e];
      }
    }
  }

  /** With a single worker a committed switch finds the account flat: its signed
    position is zero in every symbol, and what it bought is what it sold. */
  lemma SwitchFindsFlat(cfg: Config, configs: map<AccountId, ExchangeConfig>, run: seq<SiteEvent>,
                        account: AccountId, symbol: Symbol)
    requires cfg.serialPositions
    requires var site := SiteExec(cfg, Site(INITIAL, configs, map[]), run);
      var site' := SiteStep(cfg, site, CommitPut(account));
      account in site.configs && account in site'.configs && site'.configs[account].mode != site.configs[account].mode
    ensures var t := SiteStep(cfg, SiteExec(cfg, Site(INITIAL, configs, map[]), run), CommitPut(account)).w.t;
      Net(t.positions, account, symbol) == 0 && Bought(t, account, symbol) == Sold(t, account, symbol)
  {
    SwitchLeavesNothingOpen(cfg, configs, run, account);
    var events := SiteIsRun(cfg, configs, run);
    PositionConservation(cfg, Exec(cfg, INITIAL, events), account, symbol);
  }

  /** The first config row skips the guard, so the mode of the open orders is
    right afterwards exactly when they already had it: they were placed as paper,
    so a first config of `live` breaks it as soon as one is open. */
  lemma FirstConfigIsUnguarded(cfg: Config, site: Site, account: AccountId, mode: ExchangeMode, version: int)
    requires account !in site.puts && account !in site.configs
    requires ModesAgree(site, account)
    ensures var site' := SiteStep(cfg, SiteStep(cfg, site, BeginPut(account, mode, version)), CommitPut(account));
      && site'.w == site.w && account in site'.configs && site'.configs[account] == ExchangeConfig(mode, 1)
      && (ModesAgree(site', account) <==> mode.Paper? || !HasOpenOrder(site.w.t, account))
  {
    var site' := SiteStep(cfg, SiteStep(cfg, site, BeginPut(account, mode, version)), CommitPut(account));
    if mode.Live? && HasOpenOrder(site.w.t, account) {
      var order :| order in site.w.t.orders && site.w.t.orders[order].account == account
                   && !site.w.t.orders[order].status.IsTerminal();
      assert ModeOk(site, order) && !ModeOk(site', order);
    } else {
      forall order | order in site'.w.t.orders && site'.w.t.orders[order].account == account
        ensures ModeOk(site', order)
      {
        assert ModeOk(site, order);
      }
    }
  }

  // ----- the handler, statement by statement -----

  datatype PutError = VersionConflict | OpenActivity

  /** What put_exchange_config answers when nothing happens between its statements. */
  function PutOutcome(t: Tables, configs: map<AccountId, ExchangeConfig>, account: AccountId, mode: ExchangeMode,
                      version: int): Result<ExchangeConfig, PutError>
  {
    if account !in configs then Ok(ExchangeConfig(mode, 1))
    else if configs[account].version != version then Err(VersionConflict)
    else if configs[account].mode != mode && (HasOpenOrder(t, account) || HasOpenPosition(t, account))
    then Err(OpenActivity)
    else Ok(ExchangeConfig(mode, configs[account].version + 1))
  }

  /** Lock, four counts, commit, with no step of anyone else in between. */
  function UninterruptedPut(cfg: Config, site: Site, account: AccountId, mode: ExchangeMode, version: int): Site {
    SiteStep(cfg, AfterCounts(cfg, SiteStep(cfg, site, BeginPut(account, mode, version)), account), CommitPut(account))
  }

  /** The handler's answer is what the steps of the protocol amount to. */
  lemma UninterruptedPutIsOutcome(cfg: Config, site: Site, account: AccountId, mode: ExchangeMode, version: int)
    requires account !in site.puts
    ensures var site' := UninterruptedPut(cfg, site, account, mode, version);
      && site'.w == site.w && account !in site'.puts
      && site'.configs == match PutOutcome(site.w.t, site.configs, account, mode, version)
                          case Ok(config) => site.configs[account := config]
                          case Err(_) => site.configs
  {
    var begun := SiteStep(cfg, site, BeginPut(account, mode, version));
    if account in begun.puts {
      assert begun == site.(puts := site.puts[account := begun.puts[account]]);
      FourCounts(cfg, begun, account);
    }
  }

  function AfterCounts(cfg: Config, site: Site, account: AccountId): Site {
    var counted1 := SiteStep(cfg, site, RunCount(account));
    var counted2 := SiteStep(cfg, counted1, RunCount(account));
    var counted3 := SiteStep(cfg, counted2, RunCount(account));
    SiteStep(cfg, counted3, RunCount(account))
  }

  /** The counts of a put that starts at the first, or past the last, of them. */
  lemma FourCounts(cfg: Config, site: Site, account: AccountId)
    requires account in site.puts && (site.puts[account].stage.RouteOrders? || site.puts[account].stage.Ready?)
    ensures var put := site.puts[account];
      AfterCounts(cfg, site, account)
        == if put.stage.RouteOrders? && (HasOpenOrder(site.w.t, account) || HasOpenPosition(site.w.t, account))
           then site.(puts := site.puts - {account})
           else site.(puts := site.puts[account := put.(stage := Ready)])
  {
    var put := site.puts[account];
    if put.stage.Ready? {
      CountAgain(cfg, site, account, Ready);
      assert site.puts[account := put] == site.puts;
    } else {
      assert put == put.(stage := RouteOrders);
      assert site.puts[account := put] == site.puts;
      CountAgain(cfg, site, account, RouteOrders);
      CountAgain(cfg, site, account, RoutePositions);
      CountAgain(cfg, site, account, TriggerOrders);
      CountAgain(cfg, site, account, TriggerPositions);
    }
  }

  /** One count, from any stage of the same put. */
  lemma CountAgain(cfg: Config, site: Site, account: AccountId, stage: Stage)
    requires account in site.puts
    ensures var put := site.puts[account];
      var at := site.(puts := site.puts[account := put.(stage := stage)]);
      SiteStep(cfg, at, RunCount(account))
        == if CountIsZero(site.w.t, account, stage)
           then site.(puts := site.puts[account := put.(stage := NextStage(stage))])
           else site.(puts := site.puts - {account})
  {
    var put := site.puts[account];
    assert site.puts[account := put.(stage := stage)][account := put.(stage := NextStage(stage))]
      == site.puts[account := put.(stage := NextStage(stage))];
    assert site.puts[account := put.(stage := stage)] - {account} == site.puts - {account};
  }

  class ExchangeConfigStore {
    var configs: map<AccountId, ExchangeConfig>
    const store: Store

    constructor (store: Store)
      ensures this.store == store && configs == map[]
    {
      this.store := store;
      configs := map[];
    }

    /** Two counts, the second only if the first is zero. */
    method HasOpenActivity(account: AccountId) returns (open: bool)
      ensures open <==>
        || (exists order :: order in store.orders && store.orders[order].account == account
                            && store.orders[order].status !in {Filled, Cancelled, Rejected})
        || (exists i :: 0 <= i < |store.positions| && store.positions[i].account == account
                        && store.positions[i].open && store.positions[i].quantity > 0)
    {
      var orders := store.orders;
      var openOrders := set order | order in orders && orders[order].account == account
                                    && !orders[order].status.IsTerminal();
      if |openOrders| > 0 {
        var order :| order in openOrders;
        return true;
      }
      assert openOrders == {};
      assert forall order :: order in orders && orders[order].account == account ==>
          order in openOrders || orders[order].status.IsTerminal();
      var openPositions := 0;
      for i := 0 to |store.positions|
        invariant openPositions >= 0
        invariant openPositions > 0 <==>
          exists j :: 0 <= j < i && store.positions[j].open && store.positions[j].quantity > 0
                      && store.positions[j].account == account
      {
        var p := store.positions[i];
        if p.account == account && p.open && p.quantity > 0 {
          openPositions := openPositions + 1;
        }
      }
      return openPositions > 0;
    }

    method PutExchangeConfig(account: AccountId, mode: ExchangeMode, version: int)
      returns (result: Result<ExchangeConfig, PutError>)
      modifies this
      ensures result == PutOutcome(store.View(), old(configs), account, mode, version)
      ensures result == Err(VersionConflict) <==> account in old(configs) && old(configs)[account].version != version
      ensures result.Ok? ==> result.value.mode == mode
      ensures result.Ok? ==> result.value.version == if account in old(configs) then version + 1 else 1
      ensures result == Err(OpenActivity) <==>
        && account in old(configs) && old(configs)[account].version == version && old(configs)[account].mode != mode
        && (|| (exists order :: order in store.orders && store.orders[order].account == account
                                && store.orders[order].status !in {Filled, Cancelled, Rejected})
            || (exists i :: 0 <= i < |store.positions| && store.positions[i].account == account
                            && store.positions[i].open && store.positions[i].quantity > 0))
      ensures configs == if result.Ok? then old(configs)[account := result.value] else old(configs)
    {
      var currentVersion := 0;
      if account in configs {
        currentVersion := configs[account].version;
        if currentVersion != version {
          return Err(VersionConflict);
        }
        if configs[account].mode != mode {
          var open := HasOpenActivity(account);
          NothingOpen(store.View(), account);
          if open {
            return Err(OpenActivity);
          }
        }
      }
      configs := configs[account := ExchangeConfig(mode, currentVersion + 1)];
      return Ok(configs[account]);
    }
  }
}
