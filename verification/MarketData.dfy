/** The in-memory book top that prices paper fills (paper/market_data.rs). */
module MarketData {
  import opened Types

  datatype BookTop = BookTop(bid: int, ask: int, lastUpdate: int)

  datatype Estimate = Estimate(price: int, isFresh: bool)

  /** What the shared book says at one moment. */
  datatype Feed = Feed(books: map<Symbol, BookTop>, maxAge: nat, now: int) {
    /** `Instant::duration_since` saturates to zero for a later instant. */
    predicate IsFresh(top: BookTop) {
      (if now < top.lastUpdate then 0 else now - top.lastUpdate) <= maxAge
    }

    /** The ask for buys, the bid for sells. */
    function Conservative(symbol: Symbol, isBuy: bool): Option<Estimate> {
      if symbol !in books then None
      else
        var top := books[symbol];
        Some(Estimate(if isBuy then top.ask else top.bid, IsFresh(top)))
    }

    /** Every quoted price is positive. */
    ghost predicate Positive() {
      forall symbol :: symbol in books ==> books[symbol].bid > 0 && books[symbol].ask > 0
    }
  }

  class MarketDataProvider {
    var books: map<Symbol, BookTop>
    const maxAge: nat

    constructor (maxAge: nat)
      ensures this.maxAge == maxAge && books == map[]
    {
      this.maxAge := maxAge;
      books := map[];
    }

    /** After an update at time `at`, and until the next one, buys are quoted the
      ask and sells the bid, fresh exactly while the quote is at most `maxAge`
      old; no other symbol is affected. */
    method Update(symbol: Symbol, bid: int, ask: int, at: int)
      modifies this
      ensures books.Keys == old(books).Keys + {symbol}
      ensures forall isBuy, now ::
        ConservativeEstimate(symbol, isBuy, now)
        == Some(Estimate(if isBuy then ask else bid, now <= at + maxAge))
      ensures forall other, isBuy, now :: other != symbol ==>
        ConservativeEstimate(other, isBuy, now) == old(ConservativeEstimate(other, isBuy, now))
    {
      books := books[symbol := BookTop(bid, ask, at)];
    }

    function At(now: int): Feed
      reads this
    {
      Feed(books, maxAge, now)
    }

    function ConservativeEstimate(symbol: Symbol, isBuy: bool, now: int): Option<Estimate>
      reads this
    {
      At(now).Conservative(symbol, isBuy)
    }

    /** Freshness only ever decays: a quote that is stale stays stale until it is replaced. */
    lemma StaleStaysStale(symbol: Symbol, isBuy: bool, now: int, later: int)
      requires symbol in books && now <= later
      requires !ConservativeEstimate(symbol, isBuy, now).value.isFresh
      ensures !ConservativeEstimate(symbol, !isBuy, later).value.isFresh
    {
      assert books[symbol].lastUpdate <= now;
    }
  }
}
