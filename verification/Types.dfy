/** Plain data shared by the adapters, the database layer and the worker.

  Quantities and prices are integers in units of 10^-10, the scale of the
  NUMERIC(30,10) columns; a quote amount (quantity times price) is an integer
  in units of 10^-20, so products are exact. */
module Types {
  datatype Option<+T> = None | Some(value: T)

  datatype Result<+T, +E> = Ok(value: T) | Err(error: E)

  type OrderId = nat
  type AccountId = nat
  type Symbol = string

  datatype OrderSide = Buy | Sell

  datatype OrderType = Limit | Market

  datatype OrderStatus =
    | Pending | Submitted | PartiallyFilled | Filled | CancelRequested | Cancelled | Rejected
  {
    predicate IsTerminal() {
      Filled? || Cancelled? || Rejected?
    }
  }

  datatype ExchangeMode = Paper | Live

  /** `{client_order_id}:paper:{n}` or `{client_order_id}:reconcile:{n}`. The
    client order id is the order's own UUID; `TradeIdText` shows that the text
    form identifies the three components. */
  datatype TradeId = TradeId(order: OrderId, venue: ExchangeMode, ordinal: nat)

  datatype Fill = Fill(tradeId: TradeId, quantity: int, price: int)

  datatype OrderSnapshot = OrderSnapshot(
    orderId: OrderId, symbol: Symbol, side: OrderSide, orderType: OrderType,
    quantity: int, price: Option<int>, status: OrderStatus)

  datatype ReconcileSnapshot = ReconcileSnapshot(order: OrderSnapshot, fills: seq<Fill>)

  datatype PositionDelta = PositionDelta(symbol: Symbol, quantityDelta: int)

  datatype ReconcileResult = ReconcileResult(
    newStatus: Option<OrderStatus>, fillsToAdd: seq<Fill>, positionsDelta: seq<PositionDelta>)

  /** The `Default` result: nothing to persist. */
  const NO_CHANGE := ReconcileResult(None, [], [])

  datatype ExchangeError =
    | InsufficientBalance | MarketDataError | InvalidTransition
    | SymbolNotFound | FilterViolation | EncryptionError | HttpError

  function Signed(side: OrderSide, quantity: int): int {
    if side.Buy? then quantity else -quantity
  }

  function SumQuantity(fills: seq<Fill>): int {
    if fills == [] then 0 else SumQuantity(fills[..|fills| - 1]) + fills[|fills| - 1].quantity
  }

  function SumQuote(fills: seq<Fill>): int {
    if fills == [] then 0
    else
      var last := fills[|fills| - 1];
      SumQuote(fills[..|fills| - 1]) + last.quantity * last.price
  }

  lemma SumQuantityAppend(fills: seq<Fill>, fill: Fill)
    ensures SumQuantity(fills + [fill]) == SumQuantity(fills) + fill.quantity
  {
    assert (fills + [fill])[..|fills|] == fills;
  }

  lemma SumQuoteAppend(fills: seq<Fill>, fill: Fill)
    ensures SumQuote(fills + [fill]) == SumQuote(fills) + fill.quantity * fill.price
  {
    assert (fills + [fill])[..|fills|] == fills;
  }

  ghost predicate AllPositive(fills: seq<Fill>) {
    forall i :: 0 <= i < |fills| ==> fills[i].quantity > 0
  }

  /** Every fill is worth at least one unit, so a fill list is never longer than its sum. */
  lemma {:induction false} CountAtMostSum(fills: seq<Fill>)
    requires AllPositive(fills)
    ensures |fills| <= SumQuantity(fills)
  {
    if fills != [] {
      CountAtMostSum(fills[..|fills| - 1]);
    }
  }

  /** The argument against ABA: among the prefixes of a list of positive fills,
    the sum determines the prefix. */
  lemma {:induction false} PrefixDeterminedBySum(older: seq<Fill>, newer: seq<Fill>)
    requires older <= newer && AllPositive(newer)
    ensures SumQuantity(older) <= SumQuantity(newer)
    ensures SumQuantity(older) == SumQuantity(newer) <==> older == newer
  {
    if |older| < |newer| {
      assert older <= newer[..|newer| - 1];
      PrefixDeterminedBySum(older, newer[..|newer| - 1]);
    } else {
      assert older == newer;
    }
  }

  /** Sums depend only on which fills there are: rows read back without an
    ORDER BY give the same totals. */
  lemma {:induction false} SumsIgnoreOrder(a: seq<Fill>, b: seq<Fill>)
    requires multiset(a) == multiset(b)
    ensures |a| == |b| && SumQuantity(a) == SumQuantity(b) && SumQuote(a) == SumQuote(b)
  {
    assert |multiset(a)| == |a| && |multiset(b)| == |b|;
    if a != [] {
      var i := RemoveLast(a, b);
      SumsIgnoreOrder(a[..|a| - 1], b[..i] + b[i + 1..]);
      SumsAtIndex(b, i);
    }
  }

  lemma RemoveLast<T>(a: seq<T>, b: seq<T>) returns (i: nat)
    requires a != [] && multiset(a) == multiset(b)
    ensures i < |b| && b[i] == a[|a| - 1]
    ensures multiset(a[..|a| - 1]) == multiset(b[..i] + b[i + 1..])
  {
    var last := a[|a| - 1];
    assert last in multiset(b);
    i :| 0 <= i < |b| && b[i] == last;
    assert a == a[..|a| - 1] + [last];
    assert b == b[..i] + ([last] + b[i + 1..]);
    var rest := b[..i] + b[i + 1..];
    assert multiset(a) == multiset(a[..|a| - 1]) + multiset{last};
    assert multiset(b) == multiset(rest) + multiset{last};
    assert multiset(a[..|a| - 1]) == multiset(a) - multiset{last};
  }

  lemma {:induction false} SumsAtIndex(fills: seq<Fill>, i: nat)
    requires i < |fills|
    ensures SumQuantity(fills) == SumQuantity(fills[..i] + fills[i + 1..]) + fills[i].quantity
    ensures SumQuote(fills) == SumQuote(fills[..i] + fills[i + 1..]) + fills[i].quantity * fills[i].price
  {
    var rest := fills[..i] + fills[i + 1..];
    var front := fills[..|fills| - 1];
    if i == |fills| - 1 {
      assert rest == front;
    } else {
      SumsAtIndex(front, i);
      assert front[..i] + front[i + 1..] == rest[..|rest| - 1];
      assert rest[|rest| - 1] == fills[|fills| - 1];
    }
  }
}
