/** The exit test inside the trading loop of `run_strategy`
    (demo.py:169-189): stop-loss first, then take-profit, otherwise hold. */
module Exit {
  import opened Wrappers

  datatype Decision = StopLoss | TakeProfit | Hold

  /** `price` against the latest trend value. An undefined trend (NaN in the
      source) makes both comparisons false, so the position is held. */
  function ExitDecision(price: real, trend: Option<real>, stopLossPct: real, takeProfitPct: real): (d: Decision)
    ensures trend.None? ==> d == Hold
    ensures d == StopLoss <==> trend.Some? && price <= (1.0 - stopLossPct) * trend.value
    ensures d == TakeProfit ==> trend.Some? && price >= (1.0 + takeProfitPct) * trend.value
  {
    match trend
    case None => Hold
    case Some(t) =>
      if price <= (1.0 - stopLossPct) * t then StopLoss
      else if price >= (1.0 + takeProfitPct) * t then TakeProfit
      else Hold
  }

  /** The stop-loss test runs first, so it wins when both thresholds are met. */
  lemma StopLossWinsTie(price: real, t: real, stopLossPct: real, takeProfitPct: real)
    requires price <= (1.0 - stopLossPct) * t && price >= (1.0 + takeProfitPct) * t
    ensures ExitDecision(price, Some(t), stopLossPct, takeProfitPct) == StopLoss
  {
  }

  /** Both thresholds can be met at once for a positive trend only when the
      percentages overlap, i.e. their sum is not positive. */
  lemma TieNeedsOverlappingPercentages(price: real, t: real, stopLossPct: real, takeProfitPct: real)
    requires t > 0.0
    requires price <= (1.0 - stopLossPct) * t && price >= (1.0 + takeProfitPct) * t
    ensures stopLossPct + takeProfitPct <= 0.0
  {
    assert (stopLossPct + takeProfitPct) * t <= 0.0;
  }

  /** The decision as a partition of the price axis: stop-loss at or below the
      lower threshold, take-profit at or above the upper one (and above the
      lower), hold strictly in between. */
  lemma DecisionRegions(price: real, t: real, stopLossPct: real, takeProfitPct: real)
    ensures var d := ExitDecision(price, Some(t), stopLossPct, takeProfitPct);
      (d == StopLoss <==> price <= (1.0 - stopLossPct) * t) &&
      (d == TakeProfit <==> (1.0 - stopLossPct) * t < price && (1.0 + takeProfitPct) * t <= price) &&
      (d == Hold <==> (1.0 - stopLossPct) * t < price < (1.0 + takeProfitPct) * t)
  {
  }

  /** A lower price never leaves the stop-loss region, and a higher price never
      leaves the take-profit region. */
  lemma ExitMonotone(p: real, q: real, trend: Option<real>, stopLossPct: real, takeProfitPct: real)
    requires q <= p
    ensures ExitDecision(p, trend, stopLossPct, takeProfitPct) == StopLoss ==>
      ExitDecision(q, trend, stopLossPct, takeProfitPct) == StopLoss
    ensures ExitDecision(q, trend, stopLossPct, takeProfitPct) == TakeProfit ==>
      ExitDecision(p, trend, stopLossPct, takeProfitPct) == TakeProfit
  {
  }

  /** With trend 100 and a 2% stop-loss, 97.9 stops out and 98.1 holds. */
  lemma StopLossFixture()
    ensures ExitDecision(97.9, Some(100.0), 0.02, 0.02) == StopLoss
    ensures ExitDecision(98.1, Some(100.0), 0.02, 0.02) == Hold
  {
  }
}
