/** The K-line cache of `get_historical_klines` (demo.py:49-86): a two-level
    dictionary from symbol to interval to the last fetched price arrays. */
module KlineCache {
  import opened Wrappers

  /** The tuple `(times, high_prices, low_prices, close_prices)`. */
  datatype Klines = Klines(times: seq<int>, highPrices: seq<real>, lowPrices: seq<real>, closePrices: seq<real>)

  type Store = map<string, map<string, Klines>>

  /** The cached entry for (symbol, interval), if both levels have it. */
  function Lookup(store: Store, symbol: string, interval: string): (r: Option<Klines>)
    ensures r.Some? <==> symbol in store && interval in store[symbol]
    ensures r.Some? ==> r.value == store[symbol][interval]
  {
    if symbol in store && interval in store[symbol] then Some(store[symbol][interval]) else None
  }

  /** demo.py:77-79: create the symbol's inner dictionary if missing, then set
      the interval's entry. Exactly that entry changes. */
  function Put(store: Store, symbol: string, interval: string, k: Klines): (s: Store)
    ensures Lookup(s, symbol, interval) == Some(k)
    ensures forall sym, iv :: (sym != symbol || iv != interval) ==> Lookup(s, sym, iv) == Lookup(store, sym, iv)
    ensures s.Keys == store.Keys + {symbol}
  {
    var inner := if symbol in store then store[symbol] else map[];
    store[symbol := inner[interval := k]]
  }

  /** What one call returns and what the cache holds afterwards. */
  datatype Step = Step(result: Option<Klines>, store: Store)

  /** One call of `get_historical_klines`, with the exchange's answer given as
      `fetched` (None when the request or its parsing raised). */
  function GetKlines(store: Store, symbol: string, interval: string, fetched: Option<Klines>): (step: Step)
    ensures Lookup(store, symbol, interval).Some? ==> step.store == store
    ensures step.result.Some? ==> Lookup(step.store, symbol, interval) == step.result
    ensures step.result.None? ==> step.store == store && fetched.None?
  {
    match Lookup(store, symbol, interval)
    case Some(k) => Step(Some(k), store)
    case None =>
      match fetched
      case Some(k) => Step(Some(k), Put(store, symbol, interval, k))
      case None => Step(None, store)
  }

  /** A hit returns the stored tuple and leaves the cache as it was, whatever
      the exchange would have answered. */
  lemma HitIgnoresFetch(store: Store, symbol: string, interval: string, k: Klines, fetched: Option<Klines>)
    requires Lookup(store, symbol, interval) == Some(k)
    ensures GetKlines(store, symbol, interval, fetched) == Step(Some(k), store)
  {
  }

  /** A successful miss returns the fetched tuple and adds exactly the entry
      [symbol][interval]. */
  lemma MissStoresOnlyThatEntry(store: Store, symbol: string, interval: string, k: Klines)
    requires Lookup(store, symbol, interval) == None
    ensures var step := GetKlines(store, symbol, interval, Some(k));
      step.result == Some(k) &&
      Lookup(step.store, symbol, interval) == Some(k) &&
      forall sym, iv :: (sym != symbol || iv != interval) ==> Lookup(step.store, sym, iv) == Lookup(store, sym, iv)
  {
  }

  /** A failed fetch returns nothing and leaves the cache untouched. */
  lemma FailedFetchLeavesCache(store: Store, symbol: string, interval: string)
    requires Lookup(store, symbol, interval) == None
    ensures GetKlines(store, symbol, interval, None) == Step(None, store)
  {
  }

  /** No call disturbs the entry of any other (symbol, interval). */
  lemma OtherEntriesUnchanged(store: Store, symbol: string, interval: string, fetched: Option<Klines>,
                              sym: string, iv: string)
    requires sym != symbol || iv != interval
    ensures Lookup(GetKlines(store, symbol, interval, fetched).store, sym, iv) == Lookup(store, sym, iv)
  {
  }

  /** Once a call has produced a tuple, repeating it returns the same tuple
      and changes nothing, whatever the exchange answers the second time. */
  lemma RepeatedGetIsStable(store: Store, symbol: string, interval: string, first: Option<Klines>, second: Option<Klines>)
    requires GetKlines(store, symbol, interval, first).result.Some?
    ensures var s1 := GetKlines(store, symbol, interval, first);
      GetKlines(s1.store, symbol, interval, second) == s1
  {
    var s1 := GetKlines(store, symbol, interval, first);
    assert Lookup(s1.store, symbol, interval) == s1.result;
  }

  /** The trader object, reduced to its cache (`self.historical_klines`). */
  class BinanceTrader {
    var historicalKlines: Store

    constructor ()
      ensures historicalKlines == map[]
    {
      historicalKlines := map[];
    }

    /** demo.py:49-86, with the exchange's answer as the `fetched` argument;
        `None` stands for the all-`None` tuple. */
    method GetHistoricalKlines(symbol: string, interval: string, fetched: Option<Klines>) returns (r: Option<Klines>)
      modifies this
      ensures Step(r, historicalKlines) == GetKlines(old(historicalKlines), symbol, interval, fetched)
    {
      if symbol in historicalKlines && interval in historicalKlines[symbol] {
        r := Some(historicalKlines[symbol][interval]);
      } else {
        r := None;
        if fetched.Some? {
          var k := fetched.value;
          if symbol !in historicalKlines {
            historicalKlines := historicalKlines[symbol := map[]];
          }
          historicalKlines := historicalKlines[symbol := historicalKlines[symbol][interval := k]];
          r := Some(k);
        }
      }
    }
  }
}
