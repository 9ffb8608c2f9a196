/** The incremental pricing of live fills does not accumulate rounding error
  (binance/reconcile.rs). Quotes are in units of 10^-20, so one unit of drift
  per unit of quantity is 10^-10 of price. */
module Pricing {
  import opened Types
  import opened BinanceAdapter

  /** One reconcile pass over an order: what the order looked like, what the exchange answered. */
  datatype Pass = Pass(order: OrderSnapshot, resp: Response)

  /** The fill a pass records on top of `fills`: what the adapter adds, unless the
    table's `price > 0` CHECK refuses it. */
  function Recorded(fills: seq<Fill>, pass: Pass): Option<Fill> {
    match ReconcileOrder(ReconcileSnapshot(pass.order, fills), pass.resp)
    case Err(_) => None
    case Ok(r) =>
      if r.fillsToAdd != [] && r.fillsToAdd[0].price > 0 then Some(r.fillsToAdd[0]) else None
  }

  /** The stored fills, and the cumulative quote and quantity of the last pass that recorded one. */
  datatype Book = Book(fills: seq<Fill>, quote: int, lastQuantity: int)

  const EMPTY := Book([], 0, 0)

  function Record(book: Book, pass: Pass): Book {
    match Recorded(book.fills, pass)
    case None => book
    case Some(fill) => Book(book.fills + [fill], OrZero(pass.resp.cumulativeQuote), fill.quantity)
  }

  function Replay(book: Book, passes: seq<Pass>): Book
    decreases |passes|
  {
    if passes == [] then book else Replay(Record(book, passes[0]), passes[1..])
  }

  /** |sum of q_i * p_i - cumulative quote| is at most half a price unit on the last fill. */
  ghost predicate Accurate(book: Book) {
    && 2 * (SumQuote(book.fills) - book.quote) <= book.lastQuantity
    && 2 * (book.quote - SumQuote(book.fills)) <= book.lastQuantity
  }

  /** Every recorded increment of the exchange's quote exceeds half a price unit on
    the fill before it, so that it exceeds whatever that fill's rounding left over. */
  ghost predicate Steady(book: Book, passes: seq<Pass>)
    decreases |passes|
  {
    passes != [] ==>
      && (Recorded(book.fills, passes[0]).Some? ==>
            2 * (OrZero(passes[0].resp.cumulativeQuote) - book.quote) > book.lastQuantity)
      && Steady(Record(book, passes[0]), passes[1..])
  }

  lemma RoundDivIsNearest(amount: int, quantity: int)
    requires amount > 0 && quantity > 0
    ensures 2 * (quantity * RoundDiv(amount, quantity) - amount) <= quantity
    ensures 2 * (amount - quantity * RoundDiv(amount, quantity)) <= quantity
  {
    var n, d := 2 * amount + quantity, 2 * quantity;
    var q := n / d;
    assert n == d * q + n % d;
    assert 0 <= n % d < d;
    assert d * q == 2 * (quantity * q);
  }

  /** The response can be booked within the rounding of its own fill: its quote
    exceeds what is recorded already, or the submitted price happens to fit. */
  ghost predicate Fits(book: Book, pass: Pass) {
    Recorded(book.fills, pass).Some? ==>
      var quantity := Recorded(book.fills, pass).value.quantity;
      var quote := OrZero(pass.resp.cumulativeQuote);
      var drift := SumQuote(book.fills) + quantity * OrZero(pass.resp.price) - quote;
      quote > SumQuote(book.fills) || -quantity <= 2 * drift <= quantity
  }

  /** What one pass does to the total: the rounding error of earlier passes is
    charged to this one, so only its own rounding remains. Accuracy after the
    pass needs no accuracy before it. */
  lemma OnePass(book: Book, pass: Pass)
    requires Recorded(book.fills, pass).Some?
    ensures Accurate(Record(book, pass)) <==> Fits(book, pass)
  {
    var fill := Recorded(book.fills, pass).value;
    var quote := OrZero(pass.resp.cumulativeQuote);
    SumQuoteAppend(book.fills, fill);
    if quote > SumQuote(book.fills) {
      RoundDivIsNearest(quote - SumQuote(book.fills), fill.quantity);
    }
  }

  ghost predicate AccurateThroughout(book: Book, passes: seq<Pass>)
    decreases |passes|
  {
    && Accurate(book)
    && (passes != [] ==> AccurateThroughout(Record(book, passes[0]), passes[1..]))
  }

  ghost predicate AllFit(book: Book, passes: seq<Pass>)
    decreases |passes|
  {
    passes != [] ==> Fits(book, passes[0]) && AllFit(Record(book, passes[0]), passes[1..])
  }

  /** Exactly which runs stay accurate all along, steady or not. */
  lemma {:induction false} AccurateExactlyWhenAllFit(book: Book, passes: seq<Pass>)
    requires Accurate(book)
    ensures AccurateThroughout(book, passes) <==> AllFit(book, passes)
    decreases |passes|
  {
    if passes != [] {
      var next := Record(book, passes[0]);
      if Recorded(book.fills, passes[0]).Some? {
        OnePass(book, passes[0]);
      }
      if Accurate(next) {
        AccurateExactlyWhenAllFit(next, passes[1..]);
      }
    }
  }

  lemma {:induction false} AccurateAtTheEnd(book: Book, passes: seq<Pass>)
    requires AccurateThroughout(book, passes)
    ensures Accurate(Replay(book, passes))
    decreases |passes|
  {
    if passes != [] {
      AccurateAtTheEnd(Record(book, passes[0]), passes[1..]);
    }
  }

  /** A sufficient condition on the exchange's own numbers. */
  lemma {:induction false} SteadyRunsFit(book: Book, passes: seq<Pass>)
    requires Accurate(book) && Steady(book, passes)
    ensures AllFit(book, passes)
    decreases |passes|
  {
    if passes != [] {
      if Recorded(book.fills, passes[0]).Some? {
        OnePass(book, passes[0]);
      }
      SteadyRunsFit(Record(book, passes[0]), passes[1..]);
    }
  }

  /** Live pricing does not drift: over any number of passes the recorded total
    stays within the rounding of the last fill. */
  lemma NoDrift(book: Book, passes: seq<Pass>)
    requires Accurate(book) && Steady(book, passes)
    ensures Accurate(Replay(book, passes))
  {
    SteadyRunsFit(book, passes);
    AccurateExactlyWhenAllFit(book, passes);
    AccurateAtTheEnd(book, passes);
  }

  lemma {:induction false} ReplayThen(book: Book, passes: seq<Pass>, pass: Pass)
    ensures Replay(book, passes + [pass]) == Record(Replay(book, passes), pass)
    decreases |passes|
  {
    if passes == [] {
      assert passes + [pass] == [pass] && [pass][1..] == [];
      assert Replay(Record(book, pass), []) == Record(book, pass);
    } else {
      assert (passes + [pass])[1..] == passes[1..] + [pass];
      ReplayThen(Record(book, passes[0]), passes[1..], pass);
    }
  }

  /** Without steady increments the claim fails: three units for a quote of five
    are recorded at two each, so a next unit that brings the quote to six finds
    no increment left and is booked at the submitted price. */
  lemma SmallIncrementMisprices(order: OrderSnapshot)
    requires order.status == Submitted
    ensures
      var partial := Pass(order, Response(Some("PARTIALLY_FILLED"), Some(3), Some(5), Some(100)));
      var full := Pass(order.(status := PartiallyFilled),
                       Response(Some("FILLED"), Some(4), Some(6), Some(100)));
      && Accurate(Replay(EMPTY, [partial]))
      && !Accurate(Replay(EMPTY, [partial, full]))
  {
    var partial := Pass(order, Response(Some("PARTIALLY_FILLED"), Some(3), Some(5), Some(100)));
    var full := Pass(order.(status := PartiallyFilled),
                     Response(Some("FILLED"), Some(4), Some(6), Some(100)));
    var first := Record(EMPTY, partial);
    assert first.fills[..0] == [];
    assert SumQuantity(first.fills) == 3 && SumQuote(first.fills) == 6;
    OnePass(first, full);
    assert [partial, full][1..] == [full];
    assert Replay(EMPTY, [partial]) == first;
    assert Replay(EMPTY, [partial, full]) == Replay(first, [full]) == Record(first, full);
  }
}
