/** What the server relies on when it persists an adapter's answer. The source
  states it only in comments (outbox_worker.rs, the note on at most one fill
  per pass); each adapter module proves it for itself. */
module AdapterContract {
  import opened Types

  ghost predicate Contract(venue: ExchangeMode, s: ReconcileSnapshot, r: ReconcileResult) {
    && (s.order.status.IsTerminal() ==> r == NO_CHANGE)
    && (r.newStatus.None? ==> r == NO_CHANGE)
    && (r.fillsToAdd == [] || |r.fillsToAdd| == 1)
    && (r.fillsToAdd == [] ==> r.positionsDelta == [])
    && (r.fillsToAdd != [] ==> OneFill(venue, s, r))
  }

  /** One positive fill under the next ordinal, and the position delta that matches it. */
  ghost predicate OneFill(venue: ExchangeMode, s: ReconcileSnapshot, r: ReconcileResult)
    requires r.fillsToAdd != []
  {
    var fill := r.fillsToAdd[0];
    && fill.quantity > 0
    && fill.tradeId == TradeId(s.order.orderId, venue, |s.fills|)
    && r.positionsDelta == [PositionDelta(s.order.symbol, Signed(s.order.side, fill.quantity))]
  }
}

/** Local matching against a conservative quote (paper/matching_engine.rs). */
module MatchingEngine {
  import opened Types
  import opened MarketData

  predicate Touched(side: OrderSide, price: int, limit: int) {
    if side.Buy? then price <= limit else price >= limit
  }

  function TryFill(orderType: OrderType, side: OrderSide, quantity: int, limitPrice: Option<int>,
                   estimate: Option<Estimate>, tradeId: TradeId): (fill: Option<Fill>)
    ensures fill.Some? ==>
      && estimate.Some? && estimate.value.isFresh && fill.value.price == estimate.value.price
      && (orderType.Limit? ==> limitPrice.Some? && Touched(side, fill.value.price, limitPrice.value))
  {
    match orderType
    case Market =>
      if estimate.None? || !estimate.value.isFresh then None
      else Some(Fill(tradeId, quantity, estimate.value.price))
    case Limit =>
      if estimate.None? || !estimate.value.isFresh then None
      else if limitPrice.None? then None
      else if !Touched(side, estimate.value.price, limitPrice.value) then None
      else Some(Fill(tradeId, quantity, estimate.value.price))
  }
}

/** The paper adapter (paper/mod.rs). `submit` and `cancel` always accept. */
module PaperAdapter {
  import opened Types
  import opened AdapterContract
  import opened MarketData
  import opened MatchingEngine

  /** `estimate` is the shared book's answer at the moment of the call. */
  function ReconcileOrder(s: ReconcileSnapshot, estimate: Option<Estimate>): ReconcileResult {
    var order := s.order;
    if order.status.IsTerminal() then NO_CHANGE
    else if order.status.CancelRequested? then ReconcileResult(Some(Cancelled), [], [])
    else
      var alreadyFilled := SumQuantity(s.fills);
      var remaining := order.quantity - alreadyFilled;
      if remaining <= 0 then NO_CHANGE
      else
        var tradeId := TradeId(order.orderId, Paper, |s.fills|);
        match TryFill(order.orderType, order.side, remaining, order.price, estimate, tradeId)
        case None => NO_CHANGE
        case Some(fill) =>
          var newFilled := alreadyFilled + fill.quantity;
          var newStatus := if newFilled >= order.quantity then Filled else PartiallyFilled;
          ReconcileResult(Some(newStatus), [fill],
                          [PositionDelta(order.symbol, Signed(order.side, fill.quantity))])
  }

  /** A limit order is only ever filled at its limit or better. */
  ghost predicate WithinLimit(orderType: OrderType, side: OrderSide, limit: Option<int>, price: int) {
    orderType.Limit? ==> limit.Some? && Touched(side, price, limit.value)
  }

  /** The quotes at which an open order can be matched. */
  ghost predicate Matchable(order: OrderSnapshot, estimate: Option<Estimate>) {
    && estimate.Some? && estimate.value.isFresh
    && WithinLimit(order.orderType, order.side, order.price, estimate.value.price)
  }

  /** All a paper answer can be: nothing, a confirmed cancel, or one fill of the
    whole remainder. A partial fill is not among them. */
  ghost predicate Answer(s: ReconcileSnapshot, r: ReconcileResult) {
    || (!s.order.status.CancelRequested? && r == NO_CHANGE)
    || (s.order.status.CancelRequested? && r == ReconcileResult(Some(Cancelled), [], []))
    || (&& !s.order.status.IsTerminal() && !s.order.status.CancelRequested?
        && r.newStatus == Some(Filled)
        && |r.fillsToAdd| == 1
        && r.fillsToAdd[0].quantity == s.order.quantity - SumQuantity(s.fills)
        && WithinLimit(s.order.orderType, s.order.side, s.order.price, r.fillsToAdd[0].price))
  }

  lemma MeetsContract(s: ReconcileSnapshot, estimate: Option<Estimate>)
    ensures Contract(Paper, s, ReconcileOrder(s, estimate))
    ensures Answer(s, ReconcileOrder(s, estimate))
  {
  }

  /** A pass fills an open order exactly when something remains and the current
    quote is fresh and touches the limit; the fill is at that quote. */
  lemma FillsExactlyWhenMatchable(s: ReconcileSnapshot, estimate: Option<Estimate>)
    requires !s.order.status.IsTerminal() && !s.order.status.CancelRequested?
    ensures ReconcileOrder(s, estimate).fillsToAdd != []
      <==> SumQuantity(s.fills) < s.order.quantity && Matchable(s.order, estimate)
    ensures ReconcileOrder(s, estimate).fillsToAdd != []
      ==> ReconcileOrder(s, estimate).fillsToAdd[0].price == estimate.value.price
  {
  }
}

/** The live adapter's mapping of an order-status response (binance/reconcile.rs). */
module BinanceAdapter {
  import opened Types
  import opened AdapterContract

  /** The parsed fields of `GET /api/v3/order`; a missing or unparsable number is None. */
  datatype Response = Response(
    status: Option<string>, executedQty: Option<int>, cumulativeQuote: Option<int>, price: Option<int>)

  function OrZero(field: Option<int>): int {
    if field.Some? then field.value else 0
  }

  function MapStatus(status: string): Option<OrderStatus> {
    if status == "NEW" then Some(Submitted)
    else if status == "PARTIALLY_FILLED" then Some(PartiallyFilled)
    else if status == "FILLED" then Some(Filled)
    else if status == "CANCELED" || status == "EXPIRED" then Some(Cancelled)
    else if status == "REJECTED" then Some(Rejected)
    else if status == "PENDING_CANCEL" then Some(CancelRequested)
    else None
  }

  /** The exchange's words for each of our statuses; Pending is ours alone. */
  function Words(status: OrderStatus): set<string> {
    match status
    case Pending => {}
    case Submitted => {"NEW"}
    case PartiallyFilled => {"PARTIALLY_FILLED"}
    case Filled => {"FILLED"}
    case CancelRequested => {"PENDING_CANCEL"}
    case Cancelled => {"CANCELED", "EXPIRED"}
    case Rejected => {"REJECTED"}
  }

  /** A word means the one status whose word it is; any other word is an error. */
  lemma MapStatusInvertsWords(word: string, status: OrderStatus)
    ensures MapStatus(word) == Some(status) <==> word in Words(status)
    ensures MapStatus(word).None? <==> forall any :: word !in Words(any)
  {
    assert word in Words(Submitted) <==> word == "NEW";
    assert word in Words(PartiallyFilled) <==> word == "PARTIALLY_FILLED";
    assert word in Words(Filled) <==> word == "FILLED";
    assert word in Words(CancelRequested) <==> word == "PENDING_CANCEL";
    assert word in Words(Cancelled) <==> word == "CANCELED" || word == "EXPIRED";
    assert word in Words(Rejected) <==> word == "REJECTED";
    assert |"NEW"| == 3 && |"FILLED"| == 6 && |"EXPIRED"| == 7 && |"CANCELED"| == 8 && |"REJECTED"| == 8;
    assert |"PENDING_CANCEL"| == 14 && |"PARTIALLY_FILLED"| == 16;
    assert "CANCELED"[0] != "REJECTED"[0];
  }

  /** Division rounded to the stored scale, half away from zero. */
  function RoundDiv(amount: int, quantity: int): int
    requires amount > 0 && quantity > 0
  {
    (2 * amount + quantity) / (2 * quantity)
  }

  /** The price of `delta` newly executed units: the quote spent on them alone,
    or the submitted price when the response gives no usable quote. */
  function FillPrice(recordedQuote: int, cumulativeQuote: int, submittedPrice: int, delta: int): int
    requires delta > 0
  {
    var incrementalQuote := cumulativeQuote - recordedQuote;
    if incrementalQuote > 0 then RoundDiv(incrementalQuote, delta) else submittedPrice
  }

  function MapOrderStatusResponse(s: ReconcileSnapshot, resp: Response): Result<ReconcileResult, ExchangeError> {
    var order := s.order;
    if resp.status.None? then Err(MarketDataError)
    else match MapStatus(resp.status.value)
      case None => Err(MarketDataError)
      case Some(newStatus) =>
        if newStatus == order.status then Ok(NO_CHANGE)
        else
          var delta := OrZero(resp.executedQty) - SumQuantity(s.fills);
          if delta > 0 then
            var price := FillPrice(SumQuote(s.fills), OrZero(resp.cumulativeQuote), OrZero(resp.price), delta);
            var fill := Fill(TradeId(order.orderId, Live, |s.fills|), delta, price);
            Ok(ReconcileResult(Some(newStatus), [fill],
                               [PositionDelta(order.symbol, Signed(order.side, delta))]))
          else Ok(ReconcileResult(Some(newStatus), [], []))
  }

  /** The terminal guard answers before any request is made. */
  function ReconcileOrder(s: ReconcileSnapshot, resp: Response): Result<ReconcileResult, ExchangeError> {
    if s.order.status.IsTerminal() then Ok(NO_CHANGE) else MapOrderStatusResponse(s, resp)
  }

  lemma MeetsContract(s: ReconcileSnapshot, resp: Response)
    ensures ReconcileOrder(s, resp).Ok? ==> Contract(Live, s, ReconcileOrder(s, resp).value)
  {
  }

  /** Which status an answer reports: the one whose word the exchange used, exactly
    when that is news, and whether or not units were executed. */
  lemma ReportsTheWord(s: ReconcileSnapshot, resp: Response, to: OrderStatus)
    requires !s.order.status.IsTerminal()
    requires resp.status.Some? && resp.status.value in Words(to)
    ensures ReconcileOrder(s, resp).Ok?
    ensures ReconcileOrder(s, resp).value.newStatus == if to == s.order.status then None else Some(to)
  {
    MapStatusInvertsWords(resp.status.value, to);
  }

  /** A reported status brings the recorded quantity up to the executed one, and
    never down; without a status nothing is added. */
  lemma AddsTheExcess(s: ReconcileSnapshot, resp: Response)
    requires ReconcileOrder(s, resp).Ok?
    ensures var recorded, executed := SumQuantity(s.fills), OrZero(resp.executedQty);
      var r := ReconcileOrder(s, resp).value;
      recorded + SumQuantity(r.fillsToAdd)
        == if r.newStatus.Some? && executed >= recorded then executed else recorded
  {
    var fills := ReconcileOrder(s, resp).value.fillsToAdd;
    if fills != [] {
      assert fills[..|fills| - 1] == [];
    }
  }

  /** Exactly when the answer to a known status word accounts for what the exchange
    says it executed: when that was recorded already, or when more was executed,
    the order is open and its status has changed. While the word stays the same,
    executions are dropped. Persisting the answer needs more
    (`CatchUp.PassCatchesUpExactly`). */
  lemma AnswerCatchesUpExactly(s: ReconcileSnapshot, resp: Response)
    requires resp.status.Some? && MapStatus(resp.status.value).Some?
    ensures ReconcileOrder(s, resp).Ok?
    ensures var recorded, executed := SumQuantity(s.fills), OrZero(resp.executedQty);
      recorded + SumQuantity(ReconcileOrder(s, resp).value.fillsToAdd) == executed <==>
        || executed == recorded
        || (&& executed > recorded && !s.order.status.IsTerminal()
            && MapStatus(resp.status.value) != Some(s.order.status))
  {
    AddsTheExcess(s, resp);
  }
}
