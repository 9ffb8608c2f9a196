/** Account-level state and its audit log (routes.rs): equity, kill switch and
  circuit breaker. Every handler holds the account row's lock for its whole
  transaction, so one account's requests are served one after another. */
module Account {
  import opened RiskEngine

  type Date = int

  datatype Status = Active | Killed | Suspended

  /** `daily_pnl` of one UTC date. */
  datatype Daily = Daily(realizedLoss: int, tripped: bool)

  /** An equity request carries the decimal the client sent, in units of 10^-10;
    the column keeps whole units. `old` in the event is the stored value,
    `requested` the client's. `OrderDecided` is the `order_placed` or
    `order_rejected` event of place_order. */
  datatype AuditEvent =
    | AccountCreated(requested: real)
    | EquityChanged(old_: int, requested: real)
    | KillSwitchOn
    | KillSwitchOff
    | BreakerTripped(date: Date)
    | TradeEvaluated(date: Date, decision: Decision)
    | OrderDecided(date: Date, decision: Decision)

  datatype AccountState = AccountState(
    equity: int, status: Status, killSwitchEngaged: bool, limits: RiskConfig, daily: map<Date, Daily>,
    events: seq<AuditEvent>)

  datatype Request =
    | PutEquity(equity: real)
    | EngageKillSwitch
    | ReleaseKillSwitch
    | EvaluateTrade(date: Date, intent: TradeIntent, positions: seq<OpenPosition>, groups: map<Symbol, string>)
    | PlaceOrder(date: Date, intent: TradeIntent, positions: seq<OpenPosition>, groups: map<Symbol, string>)
    | LimitsWritten(limits: RiskConfig)
    | LossRecorded(date: Date, realizedLoss: nat)

  /** What NUMERIC(30,10) stores: the nearest unit, half away from zero. */
  function Stored(requested: real): int {
    (requested + 0.5).Floor
  }

  predicate Representable(requested: real) {
    requested == requested.Floor as real
  }

  function FromUnits(units: int): real {
    units as real / 10000000000.0
  }

  function Today(s: AccountState, date: Date): Daily {
    if date in s.daily then s.daily[date] else Daily(0, false)
  }

  /** The two routes that put an intent to the risk engine. */
  predicate Decides(r: Request) {
    r.EvaluateTrade? || r.PlaceOrder?
  }

  /** load_snapshot inside the deciding transaction. */
  function Snapshot(s: AccountState, r: Request): AccountSnapshot
    requires Decides(r)
  {
    AccountSnapshot(FromUnits(s.equity), FromUnits(Today(s, r.date).realizedLoss), s.killSwitchEngaged,
                    Today(s, r.date).tripped, r.positions, r.groups)
  }

  /** The Unicode property White_Space, which trimming removes. */
  predicate IsWhitespace(c: char) {
    var n := c as int;
    || 0x9 <= n <= 0xD || n == 0x20 || n == 0x85 || n == 0xA0 || n == 0x1680 || 0x2000 <= n <= 0x200A
    || n == 0x2028 || n == 0x2029 || n == 0x202F || n == 0x205F || n == 0x3000
  }

  predicate Blank(symbol: Symbol) {
    forall i :: 0 <= i < |symbol| ==> IsWhitespace(symbol[i])
  }

  predicate Accepted(r: Request)
    requires Decides(r)
  {
    !Blank(r.intent.symbol) && if r.PlaceOrder? then r.intent.quantity > 0.0
                               else r.intent.quantity >= 0.0 && r.intent.price >= 0.0
  }

  /** A trip that this evaluation is the first to see. */
  predicate DetectsTrip(s: AccountState, r: Request)
    requires r.EvaluateTrade?
  {
    !Today(s, r.date).tripped && CircuitBreakerShouldTrip(Snapshot(s, r), s.limits)
  }

  function Log(s: AccountState, e: AuditEvent): AccountState {
    s.(events := s.events + [e])
  }

  function Trip(s: AccountState, date: Date): AccountState {
    Log(s.(daily := s.daily[date := Today(s, date).(tripped := true)]), BreakerTripped(date))
  }

  function Create(equity: real, limits: RiskConfig): AccountState {
    AccountState(Stored(equity), Active, false, limits, map[], [AccountCreated(equity)])
  }

  function Handle(s: AccountState, r: Request): AccountState {
    match r
    case PutEquity(equity) =>
      if equity < 0.0 then s
      else Log(s.(equity := Stored(equity)), EquityChanged(s.equity, equity))
    case EngageKillSwitch =>
      if s.killSwitchEngaged then s else Log(s.(status := Killed, killSwitchEngaged := true), KillSwitchOn)
    case ReleaseKillSwitch =>
      if !s.killSwitchEngaged then s else Log(s.(status := Active, killSwitchEngaged := false), KillSwitchOff)
    case EvaluateTrade(date, intent, _, _) =>
      if !Accepted(r) then s
      else
        var decision := Decide(intent, Snapshot(s, r), s.limits);
        Log(if DetectsTrip(s, r) then Trip(s, date) else s, TradeEvaluated(date, decision))
    case PlaceOrder(date, intent, _, _) =>
      if !Accepted(r) then s else Log(s, OrderDecided(date, Decide(intent, Snapshot(s, r), s.limits)))
    case LimitsWritten(limits) => s.(limits := limits)
    case LossRecorded(date, loss) => s.(daily := s.daily[date := Today(s, date).(realizedLoss := loss)])
  }

  function Serve(s: AccountState, requests: seq<Request>): AccountState
    decreases |requests|
  {
    if requests == [] then s else Handle(Serve(s, requests[..|requests| - 1]), requests[|requests| - 1])
  }

  /** What the evaluation of a stored account looks at, and the trip it detects, in
    the account's own columns. */
  lemma TripExactly(s: AccountState, r: Request)
    requires r.EvaluateTrade?
    ensures var equity, day := s.equity as real / 10000000000.0, Today(s, r.date);
      var loss := day.realizedLoss as real / 10000000000.0;
      && DetectsTrip(s, r) == (!day.tripped && if equity <= 0.0 then loss > 0.0
                               else loss >= equity * s.limits.dailyMaxLossPct / 100.0)
      && (Decide(r.intent, Snapshot(s, r), s.limits).Approved? <==>
            Permitted(r.intent, AccountSnapshot(equity, loss, s.killSwitchEngaged, day.tripped, r.positions, r.groups),
                      s.limits))
  {
    ApprovedExactlyWhenPermitted(r.intent, Snapshot(s, r), s.limits);
  }

  /** What a decided request changes: the trip of its date, if it is an evaluation
    that detects one, and the log. Recorded losses, equity and switch stay. */
  lemma DecisionLeaves(s: AccountState, r: Request, date: Date)
    requires Decides(r)
    ensures var s' := Handle(s, r);
      && s'.equity == s.equity && s'.status == s.status && s'.killSwitchEngaged == s.killSwitchEngaged
      && s'.limits == s.limits && s.events <= s'.events
      && Today(s', date).realizedLoss == Today(s, date).realizedLoss
      && (Today(s', date).tripped <==>
            Today(s, date).tripped || (r.EvaluateTrade? && date == r.date && Accepted(r) && DetectsTrip(s, r)))
      && (Accepted(r) ==>
            var decision := Decide(r.intent, Snapshot(s, r), s.limits);
            |s'.events| > |s.events|
            && s'.events[|s'.events| - 1]
               == if r.EvaluateTrade? then TradeEvaluated(r.date, decision) else OrderDecided(r.date, decision))
  {
  }

  /** What the equity column keeps: the nearest unit, half a unit going up. */
  lemma StoredIsNearest(requested: real)
    ensures Stored(requested) as real - 0.5 <= requested < Stored(requested) as real + 0.5
  {
  }

  // ----- the handlers, statement by statement -----

  class AccountStore {
    var equity: int
    var status: Status
    var killSwitchEngaged: bool
    var limits: RiskConfig
    var daily: map<Date, Daily>
    var events: seq<AuditEvent>

    function View(): AccountState
      reads this
    {
      AccountState(equity, status, killSwitchEngaged, limits, daily, events)
    }

    constructor (equity: real, limits: RiskConfig)
      ensures View() == Create(equity, limits)
    {
      this.equity, status, killSwitchEngaged := Stored(equity), Active, false;
      this.limits, daily, events := limits, map[], [AccountCreated(equity)];
    }

    method InsertRiskEvent(e: AuditEvent)
      modifies this`events
      ensures events == old(events) + [e]
    {
      events := events + [e];
    }

    method PutEquity(newEquity: real) returns (ok: bool)
      modifies this
      ensures View() == Handle(old(View()), Request.PutEquity(newEquity))
      ensures ok <==> newEquity >= 0.0
      ensures ok ==> equity == Stored(newEquity) && events == old(events) + [EquityChanged(old(equity), newEquity)]
      ensures !ok ==> View() == old(View())
    {
      if newEquity < 0.0 {
        return false;
      }
      var old_ := equity;
      equity := Stored(newEquity);
      InsertRiskEvent(EquityChanged(old_, newEquity));
      return true;
    }

    method EngageKillSwitch()
      modifies this
      ensures View() == Handle(old(View()), Request.EngageKillSwitch)
    {
      if !killSwitchEngaged {
        status, killSwitchEngaged := Killed, true;
        InsertRiskEvent(KillSwitchOn);
      }
    }

    method ReleaseKillSwitch() returns (reported: Status)
      modifies this
      ensures View() == Handle(old(View()), Request.ReleaseKillSwitch)
      ensures reported == status
    {
      if killSwitchEngaged {
        status, killSwitchEngaged := Active, false;
        InsertRiskEvent(KillSwitchOff);
        reported := Active;
      } else {
        reported := status;
      }
    }

    /** INSERT ... ON CONFLICT: keeps the first trip. */
    method TripCircuitBreaker(date: Date)
      modifies this`daily
      ensures daily == old(daily)[date := Daily(if date in old(daily) then old(daily)[date].realizedLoss else 0, true)]
    {
      if date in daily {
        daily := daily[date := daily[date].(tripped := true)];
      } else {
        daily := daily[date := Daily(0, true)];
      }
    }

    method EvaluateTrade(date: Date, intent: TradeIntent, positions: seq<OpenPosition>, groups: map<Symbol, string>)
      returns (decision: Decision, ok: bool)
      modifies this
      ensures var r := Request.EvaluateTrade(date, intent, positions, groups);
        && View() == Handle(old(View()), r)
        && ok == Accepted(r)
        && (ok ==> decision == Decide(intent, Snapshot(old(View()), r), old(limits)))
      ensures ok <==> !Blank(intent.symbol) && intent.quantity >= 0.0 && intent.price >= 0.0
    {
      var r := Request.EvaluateTrade(date, intent, positions, groups);
      decision, ok := Rejected([]), false;
      if Blank(intent.symbol) || intent.quantity < 0.0 || intent.price < 0.0 {
        return;
      }
      ok := true;
      var snapshot := Snapshot(View(), r);
      decision := Evaluate(intent, snapshot, limits);
      if !snapshot.circuitBreakerTripped && CircuitBreakerShouldTrip(snapshot, limits) {
        TripCircuitBreaker(date);
        InsertRiskEvent(BreakerTripped(date));
      }
      InsertRiskEvent(TradeEvaluated(date, decision));
    }

    /** The account side of place_order: it decides and logs, but does not persist
      a breaker trip that it detects. */
    method PlaceOrder(date: Date, intent: TradeIntent, positions: seq<OpenPosition>, groups: map<Symbol, string>)
      returns (decision: Decision, ok: bool)
      modifies this
      ensures var r := Request.PlaceOrder(date, intent, positions, groups);
        && View() == Handle(old(View()), r)
        && ok == Accepted(r)
        && (ok ==> decision == Decide(intent, Snapshot(old(View()), r), old(limits)))
      ensures ok <==> !Blank(intent.symbol) && intent.quantity > 0.0
    {
      decision, ok := Rejected([]), false;
      if Blank(intent.symbol) || intent.quantity <= 0.0 {
        return;
      }
      ok := true;
      decision := Evaluate(intent, Snapshot(View(), Request.PlaceOrder(date, intent, positions, groups)), limits);
      InsertRiskEvent(OrderDecided(date, decision));
    }
  }

  // ----- the audit log replays to the state -----

  /** The equity an auditor reads off the log. */
  function ReplayEquity(events: seq<AuditEvent>): real {
    if events == [] then 0.0
    else
      var last := events[|events| - 1];
      if last.AccountCreated? || last.EquityChanged? then last.requested
      else ReplayEquity(events[..|events| - 1])
  }

  /** The kill switch an auditor reads off the log. */
  function ReplayKilled(events: seq<AuditEvent>): bool {
    if events == [] then false
    else
      var last := events[|events| - 1];
      if last.KillSwitchOn? then true
      else if last.KillSwitchOff? then false
      else ReplayKilled(events[..|events| - 1])
  }

  predicate Approves(e: AuditEvent) {
    (e.TradeEvaluated? || e.OrderDecided?) && e.decision.Approved?
  }

  /** Each kill-switch event undoes the one before it, each equity event starts
    from what was stored for the one before it, and nothing is approved between
    an engage and the next release. */
  ghost predicate WellLogged(events: seq<AuditEvent>)
    decreases |events|
  {
    events != [] ==>
      var before, last := events[..|events| - 1], events[|events| - 1];
      && WellLogged(before)
      && (last.KillSwitchOn? ==> !ReplayKilled(before))
      && (last.KillSwitchOff? ==> ReplayKilled(before))
      && (last.EquityChanged? ==> last.old_ == Stored(ReplayEquity(before)))
      && (Approves(last) ==> !ReplayKilled(before))
  }

  function TripCount(events: seq<AuditEvent>, date: Date): nat {
    if events == [] then 0
    else TripCount(events[..|events| - 1], date) + if events[|events| - 1] == BreakerTripped(date) then 1 else 0
  }

  ghost predicate Audited(s: AccountState) {
    && WellLogged(s.events)
    && s.equity == Stored(ReplayEquity(s.events))
    && s.killSwitchEngaged == ReplayKilled(s.events)
    && s.status == (if s.killSwitchEngaged then Killed else Active)
    && forall date :: TripCount(s.events, date) == if Today(s, date).tripped then 1 else 0
  }

  /** A request that logs nothing and leaves the audited fields alone. */
  lemma UnloggedKeepsAudit(s: AccountState, s': AccountState)
    requires Audited(s) && s'.events == s.events && s'.equity == s.equity && s'.status == s.status
    requires s'.killSwitchEngaged == s.killSwitchEngaged
    requires forall date :: Today(s', date).tripped == Today(s, date).tripped
    ensures Audited(s')
  {
    forall date
      ensures TripCount(s'.events, date) == if Today(s', date).tripped then 1 else 0
    {
      assert TripCount(s.events, date) == if Today(s, date).tripped then 1 else 0;
    }
  }

  /** One event that is neither a trip nor a decision. */
  lemma EventKeepsAudit(s: AccountState, s': AccountState, e: AuditEvent)
    requires Audited(s) && s'.events == s.events + [e] && s'.daily == s.daily
    requires match e
      case EquityChanged(old_, requested) =>
        && old_ == s.equity && s'.equity == Stored(requested)
        && s'.status == s.status && s'.killSwitchEngaged == s.killSwitchEngaged
      case KillSwitchOn =>
        !s.killSwitchEngaged && s'.killSwitchEngaged && s'.status == Killed && s'.equity == s.equity
      case KillSwitchOff =>
        s.killSwitchEngaged && !s'.killSwitchEngaged && s'.status == Active && s'.equity == s.equity
      case _ => false
    ensures Audited(s')
  {
    assert s'.events[..|s.events|] == s.events;
    forall date
      ensures TripCount(s'.events, date) == if Today(s', date).tripped then 1 else 0
    {
      assert TripCount(s.events, date) == if Today(s, date).tripped then 1 else 0;
    }
  }

  lemma HandleKeepsAudit(s: AccountState, r: Request)
    requires Audited(s)
    ensures Audited(Handle(s, r))
  {
    var s' := Handle(s, r);
    match r
    case PutEquity(equity) =>
      if equity >= 0.0 {
        EventKeepsAudit(s, s', EquityChanged(s.equity, equity));
      }
    case EngageKillSwitch =>
      if !s.killSwitchEngaged {
        EventKeepsAudit(s, s', KillSwitchOn);
      }
    case ReleaseKillSwitch =>
      if s.killSwitchEngaged {
        EventKeepsAudit(s, s', KillSwitchOff);
      }
    case EvaluateTrade(_, _, _, _) =>
      if Accepted(r) {
        EvaluationKeepsAudit(s, r);
      }
    case PlaceOrder(date, intent, _, _) =>
      if Accepted(r) {
        DecisionKeepsAudit(s, OrderDecided(date, Decide(intent, Snapshot(s, r), s.limits)));
      }
    case _ => UnloggedKeepsAudit(s, s');
  }

  lemma TripKeepsAudit(s: AccountState, date: Date)
    requires Audited(s) && !Today(s, date).tripped
    ensures Audited(Trip(s, date))
  {
    var s' := Trip(s, date);
    assert s'.events[..|s.events|] == s.events;
    forall other
      ensures TripCount(s'.events, other) == if Today(s', other).tripped then 1 else 0
    {
      assert TripCount(s.events, other) == if Today(s, other).tripped then 1 else 0;
    }
  }

  lemma DecisionKeepsAudit(s: AccountState, e: AuditEvent)
    requires Audited(s) && (e.TradeEvaluated? || e.OrderDecided?) && (Approves(e) ==> !s.killSwitchEngaged)
    ensures Audited(Log(s, e))
  {
    var s' := Log(s, e);
    assert s'.events[..|s.events|] == s.events;
    forall other
      ensures TripCount(s'.events, other) == if Today(s', other).tripped then 1 else 0
    {
      assert TripCount(s.events, other) == if Today(s, other).tripped then 1 else 0;
    }
  }

  lemma EvaluationKeepsAudit(s: AccountState, r: Request)
    requires Audited(s) && r.EvaluateTrade? && Accepted(r)
    ensures Audited(Handle(s, r))
  {
    if DetectsTrip(s, r) {
      TripKeepsAudit(s, r.date);
    }
    var decision := Decide(r.intent, Snapshot(s, r), s.limits);
    DecisionKeepsAudit(if DetectsTrip(s, r) then Trip(s, r.date) else s, TradeEvaluated(r.date, decision));
  }

  lemma {:induction false} ServeKeepsAudit(s: AccountState, requests: seq<Request>)
    requires Audited(s)
    ensures Audited(Serve(s, requests))
    decreases |requests|
  {
    if requests != [] {
      ServeKeepsAudit(s, requests[..|requests| - 1]);
      HandleKeepsAudit(Serve(s, requests[..|requests| - 1]), requests[|requests| - 1]);
    }
  }

  lemma CreatedIsAudited(equity: real, limits: RiskConfig)
    ensures Audited(Create(equity, limits))
  {
    var s := Create(equity, limits);
    assert s.events[..0] == [];
    forall date
      ensures TripCount(s.events, date) == 0
    {
      assert TripCount([], date) == 0;
    }
  }

  /** Over any run the log replays to the state: the kill switch exactly, with
    engage and release strictly alternating and nothing approved while engaged;
    the equity up to the column's rounding, that is exactly when the last
    requested equity has at most ten decimals; and one trip event for each
    tripped date. */
  lemma LogReplaysToState(equity: real, limits: RiskConfig, requests: seq<Request>, date: Date)
    ensures var s := Serve(Create(equity, limits), requests);
      && WellLogged(s.events)
      && s.killSwitchEngaged == ReplayKilled(s.events)
      && s.status == (if ReplayKilled(s.events) then Killed else Active)
      && s.equity == Stored(ReplayEquity(s.events))
      && (s.equity as real == ReplayEquity(s.events) <==> Representable(ReplayEquity(s.events)))
      && TripCount(s.events, date) == if Today(s, date).tripped then 1 else 0
  {
    CreatedIsAudited(equity, limits);
    ServeKeepsAudit(Create(equity, limits), requests);
    var s := Serve(Create(equity, limits), requests);
    StoredExactlyWhenRepresentable(ReplayEquity(s.events));
  }

  lemma StoredExactlyWhenRepresentable(requested: real)
    ensures Stored(requested) as real == requested <==> Representable(requested)
  {
    var n := requested.Floor;
    if requested == n as real {
      FloorOf(requested + 0.5, n);
    }
    if Stored(requested) as real == requested {
      FloorOf(requested, Stored(requested));
    }
  }

  lemma FloorOf(x: real, n: int)
    requires n as real <= x < n as real + 1.0
    ensures x.Floor == n
  {
  }

  // ----- the breaker is sticky -----

  /** From event `from` on, nothing was approved on `date`. */
  predicate NothingApproved(events: seq<AuditEvent>, from: nat, date: Date) {
    forall i :: from <= i < |events| && Approves(events[i]) ==> events[i].date != date
  }

  lemma TrippedRejects(s: AccountState, r: Request)
    requires Decides(r) && (Today(s, r.date).tripped || CircuitBreakerShouldTrip(Snapshot(s, r), s.limits))
    ensures Decide(r.intent, Snapshot(s, r), s.limits).Rejected?
  {
    ApprovedExactlyWhenPermitted(r.intent, Snapshot(s, r), s.limits);
  }

  /** One request on a tripped date. */
  lemma TrippedStep(s: AccountState, r: Request, date: Date)
    requires Today(s, date).tripped
    ensures Today(Handle(s, r), date).tripped
    ensures s.events <= Handle(s, r).events
    ensures NothingApproved(Handle(s, r).events, |s.events|, date)
  {
    if Decides(r) {
      if r.date == date {
        TrippedRejects(s, r);
      }
      DecisionLeaves(s, r, date);
    }
  }

  lemma {:induction false} TrippedStays(s: AccountState, requests: seq<Request>, date: Date)
    requires Today(s, date).tripped
    ensures Today(Serve(s, requests), date).tripped
    ensures s.events <= Serve(s, requests).events
    ensures NothingApproved(Serve(s, requests).events, |s.events|, date)
    decreases |requests|
  {
    if requests != [] {
      TrippedStays(s, requests[..|requests| - 1], date);
      TrippedStep(Serve(s, requests[..|requests| - 1]), requests[|requests| - 1], date);
    }
  }

  /** Once an evaluation detects a trip, neither it nor any later evaluation or
    order on that date approves anything, whatever happens to equity, limits,
    recorded losses and the kill switch in between; and only one trip is ever
    logged. */
  lemma BreakerIsSticky(equity: real, limits: RiskConfig, before: seq<Request>, r: Request, after: seq<Request>)
    requires r.EvaluateTrade? && Accepted(r)
    requires DetectsTrip(Serve(Create(equity, limits), before), r)
    ensures var s := Serve(Create(equity, limits), before);
      var end := Serve(Handle(s, r), after);
      && NothingApproved(end.events, |s.events|, r.date)
      && TripCount(end.events, r.date) == 1 && TripCount(s.events, r.date) == 0
  {
    var s := Serve(Create(equity, limits), before);
    CreatedIsAudited(equity, limits);
    ServeKeepsAudit(Create(equity, limits), before);
    HandleKeepsAudit(s, r);
    ServeKeepsAudit(Handle(s, r), after);
    TrippedRejects(s, r);
    TrippedStays(Handle(s, r), after, r.date);
    var end := Serve(Handle(s, r), after);
    var tripped := Handle(s, r).events;
    assert NothingApproved(tripped, |s.events|, r.date);
    assert forall i :: 0 <= i < |tripped| ==> end.events[i] == tripped[i];
    assert Today(end, r.date).tripped;
    assert TripCount(s.events, r.date) == if Today(s, r.date).tripped then 1 else 0;
  }
}
