/** The risk engine (crates/core/src/engine.rs). Decimals are exact reals. */
module RiskEngine {
  import Types

  type Symbol = Types.Symbol

  datatype TradeSide = Buy | Sell

  datatype PositionSide = Long | Short

  datatype TradeIntent = TradeIntent(symbol: Symbol, side: TradeSide, quantity: real, price: real) {
    function Notional(): real {
      quantity * price
    }
  }

  datatype OpenPosition = OpenPosition(symbol: Symbol, side: PositionSide, quantity: real, notional: real)

  datatype RiskConfig = RiskConfig(
    dailyMaxLossPct: real, maxPositionPctEquity: real, maxConcurrentPositions: int, maxCorrelatedExposurePct: real)

  datatype AccountSnapshot = AccountSnapshot(
    equity: real, todayRealizedLoss: real, killSwitchEngaged: bool, circuitBreakerTripped: bool,
    openPositions: seq<OpenPosition>, correlationGroups: map<Symbol, string>)

  datatype Violation =
    | KillSwitchEngaged
    | InvalidIntent(quantity: real, price: real)
    | CircuitBreakerTripped(todayRealizedLoss: real, dailyLossLimit: real)
    | NonPositiveEquity(equity: real)
    | PositionSizeExceeded(tradeNotional: real, limitNotional: real, limitPct: real)
    | MaxConcurrentPositionsExceeded(openCount: int, limit: int)
    | CorrelatedExposureExceeded(group: string, combinedNotional: real, limitNotional: real, limitPct: real)

  datatype Decision = Approved | Rejected(violations: seq<Violation>)

  function Share(equity: real, pct: real): real {
    equity * pct / 100.0
  }

  predicate CircuitBreakerShouldTrip(s: AccountSnapshot, cfg: RiskConfig) {
    if s.equity <= 0.0 then s.todayRealizedLoss > 0.0
    else s.todayRealizedLoss >= Share(s.equity, cfg.dailyMaxLossPct)
  }

  predicate Opposes(trade: TradeSide, position: PositionSide) {
    (trade.Sell? && position.Long?) || (trade.Buy? && position.Short?)
  }

  predicate Reduces(intent: TradeIntent, p: OpenPosition) {
    p.symbol == intent.symbol && Opposes(intent.side, p.side) && intent.quantity <= p.quantity
  }

  predicate ReducesExistingPosition(intent: TradeIntent, s: AccountSnapshot) {
    exists i :: 0 <= i < |s.openPositions| && Reduces(intent, s.openPositions[i])
  }

  predicate AlreadyOpen(symbol: Symbol, positions: seq<OpenPosition>) {
    exists i :: 0 <= i < |positions| && positions[i].symbol == symbol
  }

  /** The notional of all open positions in a correlation group. */
  function GroupExposure(groups: map<Symbol, string>, group: string, positions: seq<OpenPosition>): real {
    if positions == [] then 0.0
    else
      var last := positions[|positions| - 1];
      GroupExposure(groups, group, positions[..|positions| - 1])
      + if last.symbol in groups && groups[last.symbol] == group then last.notional else 0.0
  }

  function SizeViolations(intent: TradeIntent, s: AccountSnapshot, cfg: RiskConfig): seq<Violation> {
    if s.equity <= 0.0 then [NonPositiveEquity(s.equity)]
    else
      var limit := Share(s.equity, cfg.maxPositionPctEquity);
      if intent.Notional() > limit
      then [PositionSizeExceeded(intent.Notional(), limit, cfg.maxPositionPctEquity)]
      else []
  }

  function ConcurrencyViolations(intent: TradeIntent, s: AccountSnapshot, cfg: RiskConfig): seq<Violation> {
    if AlreadyOpen(intent.symbol, s.openPositions) then []
    else if |s.openPositions| >= cfg.maxConcurrentPositions
    then [MaxConcurrentPositionsExceeded(|s.openPositions|, cfg.maxConcurrentPositions)]
    else []
  }

  function CorrelationViolations(intent: TradeIntent, s: AccountSnapshot, cfg: RiskConfig): seq<Violation> {
    if intent.symbol !in s.correlationGroups || s.equity <= 0.0 then []
    else
      var group := s.correlationGroups[intent.symbol];
      var combined := GroupExposure(s.correlationGroups, group, s.openPositions) + intent.Notional();
      var limit := Share(s.equity, cfg.maxCorrelatedExposurePct);
      if combined > limit
      then [CorrelatedExposureExceeded(group, combined, limit, cfg.maxCorrelatedExposurePct)]
      else []
  }

  function BreakerViolations(s: AccountSnapshot, cfg: RiskConfig): seq<Violation> {
    if s.circuitBreakerTripped || CircuitBreakerShouldTrip(s, cfg)
    then [CircuitBreakerTripped(s.todayRealizedLoss,
                                if s.equity > 0.0 then Share(s.equity, cfg.dailyMaxLossPct) else 0.0)]
    else []
  }

  /** The decision as a function of intent, snapshot and limits. */
  function Decide(intent: TradeIntent, s: AccountSnapshot, cfg: RiskConfig): Decision {
    if s.killSwitchEngaged then Rejected([KillSwitchEngaged])
    else if intent.quantity < 0.0 || intent.price < 0.0 then Rejected([InvalidIntent(intent.quantity, intent.price)])
    else
      var breaker := BreakerViolations(s, cfg);
      var violations := if ReducesExistingPosition(intent, s) then breaker
                        else breaker + SizeViolations(intent, s, cfg) + ConcurrencyViolations(intent, s, cfg)
                             + CorrelationViolations(intent, s, cfg);
      if violations == [] then Approved else Rejected(violations)
  }

  // ----- the engine, pushing onto one list -----

  method CheckPositionSize(intent: TradeIntent, s: AccountSnapshot, cfg: RiskConfig, before: seq<Violation>)
    returns (violations: seq<Violation>)
    ensures violations == before + SizeViolations(intent, s, cfg)
  {
    violations := before;
    if s.equity <= 0.0 {
      violations := violations + [NonPositiveEquity(s.equity)];
      return;
    }
    var limitNotional := Share(s.equity, cfg.maxPositionPctEquity);
    var tradeNotional := intent.Notional();
    if tradeNotional > limitNotional {
      violations := violations + [PositionSizeExceeded(tradeNotional, limitNotional, cfg.maxPositionPctEquity)];
    }
  }

  method CheckConcurrentPositions(intent: TradeIntent, s: AccountSnapshot, cfg: RiskConfig, before: seq<Violation>)
    returns (violations: seq<Violation>)
    ensures violations == before + ConcurrencyViolations(intent, s, cfg)
  {
    violations := before;
    if AlreadyOpen(intent.symbol, s.openPositions) {
      return;
    }
    var openCount := |s.openPositions|;
    if openCount >= cfg.maxConcurrentPositions {
      violations := violations + [MaxConcurrentPositionsExceeded(openCount, cfg.maxConcurrentPositions)];
    }
  }

  method CheckCorrelatedExposure(intent: TradeIntent, s: AccountSnapshot, cfg: RiskConfig, before: seq<Violation>)
    returns (violations: seq<Violation>)
    ensures violations == before + CorrelationViolations(intent, s, cfg)
  {
    violations := before;
    if intent.symbol !in s.correlationGroups {
      return;
    }
    var group := s.correlationGroups[intent.symbol];
    if s.equity <= 0.0 {
      return;
    }
    var combined := GroupExposure(s.correlationGroups, group, s.openPositions) + intent.Notional();
    var limitNotional := Share(s.equity, cfg.maxCorrelatedExposurePct);
    if combined > limitNotional {
      violations := violations
        + [CorrelatedExposureExceeded(group, combined, limitNotional, cfg.maxCorrelatedExposurePct)];
    }
  }

  method Evaluate(intent: TradeIntent, s: AccountSnapshot, cfg: RiskConfig) returns (decision: Decision)
    ensures decision == Decide(intent, s, cfg)
    ensures decision.Approved? <==> Permitted(intent, s, cfg)
  {
    ApprovedExactlyWhenPermitted(intent, s, cfg);
    if s.killSwitchEngaged {
      return Rejected([KillSwitchEngaged]);
    }
    if intent.quantity < 0.0 || intent.price < 0.0 {
      return Rejected([InvalidIntent(intent.quantity, intent.price)]);
    }
    var violations := [];
    var dailyLossLimit := if s.equity > 0.0 then Share(s.equity, cfg.dailyMaxLossPct) else 0.0;
    if s.circuitBreakerTripped || CircuitBreakerShouldTrip(s, cfg) {
      violations := violations + [CircuitBreakerTripped(s.todayRealizedLoss, dailyLossLimit)];
    }
    assert violations == BreakerViolations(s, cfg);
    if !ReducesExistingPosition(intent, s) {
      violations := CheckPositionSize(intent, s, cfg, violations);
      violations := CheckConcurrentPositions(intent, s, cfg, violations);
      violations := CheckCorrelatedExposure(intent, s, cfg, violations);
    }
    return if violations == [] then Approved else Rejected(violations);
  }

  // ----- relational properties -----

  /** Positions and trades as signed numbers: long and buy positive. */
  function SignedPosition(p: OpenPosition): real {
    if p.side.Long? then p.quantity else -p.quantity
  }

  function SignedTrade(intent: TradeIntent): real {
    if intent.side.Buy? then intent.quantity else -intent.quantity
  }

  function Size(signed: real): real {
    if signed < 0.0 then -signed else signed
  }

  /** What the reduce exemption exempts: a trade that takes its whole quantity off
    the size of a position in its symbol. A trade of nothing counts when it faces
    the position. */
  predicate Shrinks(intent: TradeIntent, p: OpenPosition) {
    && p.symbol == intent.symbol
    && Size(SignedPosition(p) + SignedTrade(intent)) == p.quantity - intent.quantity
    && (intent.quantity == 0.0 ==> if p.side.Long? then intent.side.Sell? else intent.side.Buy?)
  }

  lemma ReducesExactly(intent: TradeIntent, p: OpenPosition)
    requires intent.quantity >= 0.0
    ensures Reduces(intent, p) <==> Shrinks(intent, p)
  {
  }

  /** The rule book in plain arithmetic, without the violation lists. */
  ghost predicate Permitted(intent: TradeIntent, s: AccountSnapshot, cfg: RiskConfig) {
    && !s.killSwitchEngaged && !s.circuitBreakerTripped
    && (if s.equity <= 0.0 then s.todayRealizedLoss <= 0.0
        else s.todayRealizedLoss < s.equity * cfg.dailyMaxLossPct / 100.0)
    && intent.quantity >= 0.0 && intent.price >= 0.0
    && (|| (exists i :: 0 <= i < |s.openPositions| && Shrinks(intent, s.openPositions[i]))
        || (&& s.equity > 0.0
            && intent.quantity * intent.price <= s.equity * cfg.maxPositionPctEquity / 100.0
            && (|| (exists i :: 0 <= i < |s.openPositions| && s.openPositions[i].symbol == intent.symbol)
                || |s.openPositions| < cfg.maxConcurrentPositions)
            && (intent.symbol in s.correlationGroups ==>
                  GroupExposure(s.correlationGroups, s.correlationGroups[intent.symbol], s.openPositions)
                  + intent.quantity * intent.price <= s.equity * cfg.maxCorrelatedExposurePct / 100.0)))
  }

  lemma ReductionIsShrinking(intent: TradeIntent, s: AccountSnapshot)
    requires intent.quantity >= 0.0
    ensures ReducesExistingPosition(intent, s) <==>
      exists i :: 0 <= i < |s.openPositions| && Shrinks(intent, s.openPositions[i])
  {
    forall i | 0 <= i < |s.openPositions|
      ensures Reduces(intent, s.openPositions[i]) <==> Shrinks(intent, s.openPositions[i])
    {
      ReducesExactly(intent, s.openPositions[i]);
    }
  }

  lemma ApprovedExactlyWhenPermitted(intent: TradeIntent, s: AccountSnapshot, cfg: RiskConfig)
    ensures Decide(intent, s, cfg).Approved? <==> Permitted(intent, s, cfg)
  {
    if intent.quantity >= 0.0 {
      ReductionIsShrinking(intent, s);
    }
  }

  /** What is approved above the size limit leaves some position of its symbol
    smaller by the whole traded quantity. */
  lemma OversizeOnlyShrinks(intent: TradeIntent, s: AccountSnapshot, cfg: RiskConfig)
    requires Decide(intent, s, cfg).Approved?
    requires intent.quantity * intent.price > s.equity * cfg.maxPositionPctEquity / 100.0
    ensures exists i ::
      && 0 <= i < |s.openPositions| && s.openPositions[i].symbol == intent.symbol
      && Size(SignedPosition(s.openPositions[i]) + SignedTrade(intent))
         == Size(SignedPosition(s.openPositions[i])) - intent.quantity
  {
    ApprovedExactlyWhenPermitted(intent, s, cfg);
    var i :| 0 <= i < |s.openPositions| && Shrinks(intent, s.openPositions[i]);
    assert Size(SignedPosition(s.openPositions[i])) == s.openPositions[i].quantity;
  }

  /** The exposure of a group is additive, and each position counts with its
    notional exactly when its symbol is in the group. */
  lemma {:induction false} ExposureExactly(groups: map<Symbol, string>, group: string, a: seq<OpenPosition>,
                                           b: seq<OpenPosition>)
    ensures GroupExposure(groups, group, a + b) == GroupExposure(groups, group, a) + GroupExposure(groups, group, b)
    ensures |b| == 1 ==>
      GroupExposure(groups, group, b)
      == if b[0].symbol in groups && groups[b[0].symbol] == group then b[0].notional else 0.0
    decreases |b|
  {
    if b == [] {
      assert a + b == a;
    } else {
      assert (a + b)[..|a + b| - 1] == a + b[..|b| - 1];
      ExposureExactly(groups, group, a, b[..|b| - 1]);
    }
  }

  function Found(decision: Decision): seq<Violation> {
    if decision.Approved? then [] else decision.violations
  }

  /** No open position is shrunk by the trade, so the sizing rules apply. */
  ghost predicate Sized(intent: TradeIntent, s: AccountSnapshot) {
    forall i :: 0 <= i < |s.openPositions| ==> !Shrinks(intent, s.openPositions[i])
  }

  /** The two amounts that the rules compare: the percentage of the equity, and
    the price of the whole quantity. */
  lemma AmountsExactly(intent: TradeIntent, equity: real, pct: real)
    ensures 100.0 * Share(equity, pct) == equity * pct
    ensures intent.Notional() == intent.quantity * intent.price
  {
  }

  /** When rule `v` is broken, and with which numbers (`AmountsExactly`). */
  ghost predicate Broken(intent: TradeIntent, s: AccountSnapshot, cfg: RiskConfig, v: Violation) {
    match v
    case KillSwitchEngaged => false
    case InvalidIntent(_, _) => false
    case CircuitBreakerTripped(loss, limit) =>
      && (|| s.circuitBreakerTripped
          || (if s.equity <= 0.0 then s.todayRealizedLoss > 0.0
              else s.todayRealizedLoss >= Share(s.equity, cfg.dailyMaxLossPct)))
      && loss == s.todayRealizedLoss
      && limit == (if s.equity > 0.0 then Share(s.equity, cfg.dailyMaxLossPct) else 0.0)
    case NonPositiveEquity(equity) => Sized(intent, s) && equity == s.equity <= 0.0
    case PositionSizeExceeded(notional, limit, pct) =>
      && Sized(intent, s) && s.equity > 0.0 && notional == intent.Notional() > limit
      && limit == Share(s.equity, cfg.maxPositionPctEquity) && pct == cfg.maxPositionPctEquity
    case MaxConcurrentPositionsExceeded(count, limit) =>
      && Sized(intent, s)
      && (forall i :: 0 <= i < |s.openPositions| ==> s.openPositions[i].symbol != intent.symbol)
      && count == |s.openPositions| >= limit && limit == cfg.maxConcurrentPositions
    case CorrelatedExposureExceeded(group, combined, limit, pct) =>
      && Sized(intent, s) && s.equity > 0.0 && intent.symbol in s.correlationGroups
      && group == s.correlationGroups[intent.symbol]
      && combined == GroupExposure(s.correlationGroups, group, s.openPositions) + intent.Notional() > limit
      && limit == Share(s.equity, cfg.maxCorrelatedExposurePct) && pct == cfg.maxCorrelatedExposurePct
  }

  lemma BreakerListed(intent: TradeIntent, s: AccountSnapshot, cfg: RiskConfig, v: Violation)
    ensures v in BreakerViolations(s, cfg) <==> v.CircuitBreakerTripped? && Broken(intent, s, cfg, v)
  {
  }

  lemma SizeListed(intent: TradeIntent, s: AccountSnapshot, cfg: RiskConfig, v: Violation)
    requires Sized(intent, s)
    ensures v in SizeViolations(intent, s, cfg)
      <==> (v.NonPositiveEquity? || v.PositionSizeExceeded?) && Broken(intent, s, cfg, v)
  {
  }

  lemma CountListed(intent: TradeIntent, s: AccountSnapshot, cfg: RiskConfig, v: Violation)
    requires Sized(intent, s)
    ensures v in ConcurrencyViolations(intent, s, cfg)
      <==> v.MaxConcurrentPositionsExceeded? && Broken(intent, s, cfg, v)
  {
  }

  lemma GroupListed(intent: TradeIntent, s: AccountSnapshot, cfg: RiskConfig, v: Violation)
    requires Sized(intent, s)
    ensures v in CorrelationViolations(intent, s, cfg)
      <==> v.CorrelatedExposureExceeded? && Broken(intent, s, cfg, v)
  {
  }

  /** Every broken rule is reported, with its own numbers, and nothing else is:
    the list is complete, not just the first violation found. */
  lemma EveryViolationReported(intent: TradeIntent, s: AccountSnapshot, cfg: RiskConfig, v: Violation)
    requires !s.killSwitchEngaged && intent.quantity >= 0.0 && intent.price >= 0.0
    ensures v in Found(Decide(intent, s, cfg)) <==> Broken(intent, s, cfg, v)
  {
    ReductionIsShrinking(intent, s);
    BreakerListed(intent, s, cfg, v);
    if Sized(intent, s) {
      SizeListed(intent, s, cfg, v);
      CountListed(intent, s, cfg, v);
      GroupListed(intent, s, cfg, v);
    }
  }

  /** The kill switch and a negative intent are reported alone, in this order. */
  lemma ReportedAlone(intent: TradeIntent, s: AccountSnapshot, cfg: RiskConfig)
    ensures s.killSwitchEngaged ==> Decide(intent, s, cfg) == Rejected([KillSwitchEngaged])
    ensures !s.killSwitchEngaged && (intent.quantity < 0.0 || intent.price < 0.0) ==>
      Decide(intent, s, cfg) == Rejected([InvalidIntent(intent.quantity, intent.price)])
  {
  }

  /** The order in which broken rules are listed. */
  function Rank(v: Violation): nat {
    match v
    case CircuitBreakerTripped(_, _) => 1
    case NonPositiveEquity(_) => 2
    case PositionSizeExceeded(_, _, _) => 2
    case MaxConcurrentPositionsExceeded(_, _) => 3
    case CorrelatedExposureExceeded(_, _, _, _) => 4
    case _ => 0
  }

  /** Violations come in rank order, each rule once. */
  lemma ListedInOrder(intent: TradeIntent, s: AccountSnapshot, cfg: RiskConfig, i: nat, j: nat)
    requires i < j < |Found(Decide(intent, s, cfg))|
    ensures Rank(Found(Decide(intent, s, cfg))[i]) < Rank(Found(Decide(intent, s, cfg))[j])
  {
    var breaker, size := BreakerViolations(s, cfg), SizeViolations(intent, s, cfg);
    var concurrent, correlated := ConcurrencyViolations(intent, s, cfg), CorrelationViolations(intent, s, cfg);
    assert Found(Decide(intent, s, cfg)) == breaker
        || Found(Decide(intent, s, cfg)) == breaker + size + concurrent + correlated;
  }

  lemma NotionalMonotone(intent: TradeIntent, quantity: real, price: real)
    requires 0.0 <= quantity <= intent.quantity && 0.0 <= price <= intent.price
    ensures intent.(quantity := quantity, price := price).Notional() <= intent.Notional()
  {
    assert quantity * price <= quantity * intent.price;
    assert quantity * intent.price <= intent.quantity * intent.price;
  }

  /** Approval is downward closed: whatever is approved is approved in any smaller
    size and at any lower price, also where the smaller trade crosses from new
    exposure into the reduce exemption. */
  lemma ApprovalDownwardClosed(intent: TradeIntent, s: AccountSnapshot, cfg: RiskConfig, quantity: real, price: real)
    requires Decide(intent, s, cfg).Approved?
    requires 0.0 <= quantity <= intent.quantity && 0.0 <= price <= intent.price
    ensures Decide(intent.(quantity := quantity, price := price), s, cfg).Approved?
  {
    var smaller := intent.(quantity := quantity, price := price);
    NotionalMonotone(intent, quantity, price);
    ApprovedExactlyWhenPermitted(intent, s, cfg);
    assert Permitted(smaller, s, cfg) by {
      if i :| 0 <= i < |s.openPositions| && Shrinks(intent, s.openPositions[i]) {
        ReducesExactly(intent, s.openPositions[i]);
        ReducesExactly(smaller, s.openPositions[i]);
      }
    }
    ApprovedExactlyWhenPermitted(smaller, s, cfg);
  }

  lemma {:induction false} ExposureIgnoresOrder(groups: map<Symbol, string>, group: string,
                                                a: seq<OpenPosition>, b: seq<OpenPosition>)
    requires multiset(a) == multiset(b)
    ensures |a| == |b| && GroupExposure(groups, group, a) == GroupExposure(groups, group, b)
    decreases |a|
  {
    assert |multiset(a)| == |a| && |multiset(b)| == |b|;
    if a != [] {
      var i := Types.RemoveLast(a, b);
      ExposureIgnoresOrder(groups, group, a[..|a| - 1], b[..i] + b[i + 1..]);
      ExposureAtIndex(groups, group, b, i);
    }
  }

  lemma {:induction false} ExposureAtIndex(groups: map<Symbol, string>, group: string,
                                           positions: seq<OpenPosition>, i: nat)
    requires i < |positions|
    ensures GroupExposure(groups, group, positions)
      == GroupExposure(groups, group, positions[..i] + positions[i + 1..])
         + if positions[i].symbol in groups && groups[positions[i].symbol] == group then positions[i].notional else 0.0
    decreases |positions|
  {
    var rest, front := positions[..i] + positions[i + 1..], positions[..|positions| - 1];
    if i == |positions| - 1 {
      assert rest == front;
    } else {
      ExposureAtIndex(groups, group, front, i);
      assert front[..i] + front[i + 1..] == rest[..|rest| - 1];
      assert rest[|rest| - 1] == positions[|positions| - 1];
    }
  }

  lemma SameMembers<T>(a: seq<T>, b: seq<T>)
    requires multiset(a) == multiset(b)
    ensures forall x :: x in a <==> x in b
  {
    forall x
      ensures x in a <==> x in b
    {
      assert x in multiset(a) <==> x in multiset(b);
    }
  }

  /** The whole decision, violations and all, is the same in whatever order the
    open positions are listed. */
  lemma DecisionIgnoresOrder(intent: TradeIntent, s: AccountSnapshot, cfg: RiskConfig, reordered: seq<OpenPosition>)
    requires multiset(reordered) == multiset(s.openPositions)
    ensures Decide(intent, s.(openPositions := reordered), cfg) == Decide(intent, s, cfg)
  {
    var s' := s.(openPositions := reordered);
    assert ReducesExistingPosition(intent, s') == ReducesExistingPosition(intent, s)
           && ConcurrencyViolations(intent, s', cfg) == ConcurrencyViolations(intent, s, cfg) by {
      SameMembers(s.openPositions, reordered);
      SameAny(s.openPositions, reordered, intent);
      assert |multiset(reordered)| == |reordered| && |multiset(s.openPositions)| == |s.openPositions|;
    }
    assert CorrelationViolations(intent, s', cfg) == CorrelationViolations(intent, s, cfg) by {
      if intent.symbol in s.correlationGroups {
        ExposureIgnoresOrder(s.correlationGroups, s.correlationGroups[intent.symbol], reordered, s.openPositions);
      }
    }
    assert SizeViolations(intent, s', cfg) == SizeViolations(intent, s, cfg);
    assert BreakerViolations(s', cfg) == BreakerViolations(s, cfg);
  }

  lemma SameAny(a: seq<OpenPosition>, b: seq<OpenPosition>, intent: TradeIntent)
    requires forall p :: p in a <==> p in b
    ensures AlreadyOpen(intent.symbol, a) <==> AlreadyOpen(intent.symbol, b)
    ensures (exists i :: 0 <= i < |a| && Reduces(intent, a[i])) <==> (exists i :: 0 <= i < |b| && Reduces(intent, b[i]))
  {
    forall i | 0 <= i < |a|
      ensures exists j :: 0 <= j < |b| && b[j] == a[i]
    {
      assert a[i] in b;
    }
    forall i | 0 <= i < |b|
      ensures exists j :: 0 <= j < |a| && a[j] == b[i]
    {
      assert b[i] in a;
    }
  }
}
