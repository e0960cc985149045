/** One pass of the trading loop of `run_strategy` (demo.py:157-189), without
    the exchange calls: append the latest price, recompute the whole envelope,
    record the latest bands, and decide whether to exit. */
module Strategy {
  import opened Wrappers
  import opened Indicator
  import opened Signals
  import opened Exit

  /** The ATR window and band multiplier `run_strategy` passes (demo.py:145, 164). */
  const Period: int := 10
  const Multiplier: real := 3.0

  /** demo.py:161-189 for one new price. */
  method StrategyTick(close: seq<real>, price: real, upperBound: BoundList, lowerBound: BoundList,
                      stopLossPct: real, takeProfitPct: real)
    returns (closeAfter: seq<real>, st: SuperTrend, d: Decision)
    modifies upperBound, lowerBound
    ensures closeAfter == close + [price]
    ensures st == SuperTrendOf(closeAfter, Period, Multiplier)
    ensures d == ExitDecision(price, Last(st.trend), stopLossPct, takeProfitPct)
    ensures upperBound != lowerBound ==>
      upperBound.values == old(upperBound.values) + [Last(st.upperBand)] &&
      lowerBound.values == old(lowerBound.values) + [Last(st.lowerBand)]
    ensures upperBound == lowerBound ==>
      upperBound.values == old(upperBound.values) + [Last(st.upperBand), Last(st.lowerBand)]
  {
    closeAfter := close + [price];
    st := CalculateSuperTrend(closeAfter, Period, Multiplier, upperBound, lowerBound, true, true);
    d := ExitDecision(price, Last(st.trend), stopLossPct, takeProfitPct);
  }

  /** Until `Period` closes have been seen the trend is undefined and every
      tick holds; from then on the latest trend is defined. */
  lemma TickTrendDefinedOnceWindowFills(close: seq<real>, price: real, stopLossPct: real, takeProfitPct: real)
    ensures var st := SuperTrendOf(close + [price], Period, Multiplier);
      |st.trend| == |close| + 1 &&
      (Last(st.trend).Some? <==> |close| + 1 >= Period) &&
      (|close| + 1 < Period ==> ExitDecision(price, Last(st.trend), stopLossPct, takeProfitPct) == Hold)
  {
  }
}
