# SuperTrend trader: a Dafny model

This project models the computational core of a small Binance futures trading
script (`demo.py`). The script fetches hourly K-lines, computes a SuperTrend
envelope over the close prices, and on every new price decides whether to exit
a position by stop-loss or take-profit. The model covers four parts:

- **Running extremes** (`Extremes`). `high_prices` and `low_prices` are the
  running maximum and minimum of the closes, both seeded with `close[0]` and
  filled by a loop over two arrays. The method `RunningExtremes` keeps that
  loop. It is proved equal to the prefix maximum and minimum, and lemmas prove
  that both are monotone and do not change when a price is appended.
- **Envelope** (`Indicator`). This covers the true range against the previous
  close, its simple moving average (the ATR), bands `mid ± multiplier * ATR`
  around the running midpoint, and the trend value. Prices are exact `real`s.
  An indicator value that is not yet defined (NaN in the source) is `None`.
- **Signal recording and exit rule** (`Signals`, `Exit`, `Strategy`). The
  latest bands are appended to lists that the caller owns. Each list is an
  object of its own, so passing one list for both is modelled too. The exit
  rule checks stop-loss first, then take-profit, and otherwise holds. One tick
  of the trading loop puts these together.
- **K-line cache** (`KlineCache`). This is the nested dictionary
  symbol → interval → `(times, high, low, close)`. A hit returns the stored
  tuple. A miss stores the tuple only when the fetch succeeded. The exchange's
  answer is an `Option` argument.

Two behaviours of the code are easy to misread; the model follows the code as
written:

- `np.roll(close_prices, 1)` wraps around. So the "previous close" of index 0
  is the **last** close, not `close[0]`. The true range at index 0 is therefore
  `|close[0] - close[n-1]|`, which is not always 0. This changes the ATR of the
  first full window (`EnvelopeFirstWindowNotStable`).
- `np.maximum(a, b, c)` takes only two operands. Its third positional argument
  is the `out` array. As written, the true range is therefore
  `max(high - low, |high - prev|)`. `TrueRange` models that.
  `TrueRangeMatchesThreeTerm` proves it equals the textbook three-term maximum
  on every input, because over running extremes the third term never wins.

The code never rejects NaN, negative prices or a non-positive multiplier, and
the model adds no such checks. Two inputs make the code raise: an empty close
sequence (`IndexError` at demo.py:105) and, inside `talib.SMA`, a period below
2. The model requires a non-empty close sequence and a period of at least 1; the
period of 1 it accepts beyond TA-Lib is listed under "Left out".

## Model

| member | source | states |
|---|---|---|
| `Extremes.RunningHigh` | demo.py:103-111 | one running high per close, starting at `close[0]` |
| `Extremes.RunningLow` | demo.py:103-111 | one running low per close, starting at `close[0]` |
| `Extremes.RunningExtremes` | demo.py:103-111 | the array loop yields exactly the running maximum and minimum of the closes |
| `Extremes.RunningExtremesArePrefixExtremes` | demo.py:105-110 | both series start at `close[0]`; `high[i]` bounds every close up to `i` from above and `low[i]` from below, and each is one of those closes, so `low[i] <= close[i] <= high[i]` |
| `Extremes.RunningExtremesMonotone` | demo.py:107-111 | `high` is non-decreasing and `low` is non-increasing |
| `Extremes.RunningExtremesStep` | demo.py:109-110 | each entry is `max(close[i], high[i-1])` and `min(close[i], low[i-1])`, the loop's recurrence |
| `Extremes.RunningExtremesAppend` | demo.py:103-111 | appending a close leaves all earlier extremes unchanged and extends each series by one loop step |
| `Extremes.RunningExtremesAppendAt` | demo.py:103-111 | the per-index form of prefix stability under append |
| `Indicator.PrevClose` | demo.py:113-114 | `np.roll(close, 1)[i]` is `close[i-1]`, and for index 0 it is the last close |
| `Indicator.TrueRange` | demo.py:113-114 | one true range per close, at least both the width `high - low` and the gap `abs(high - prev)`, and equal to one of the two |
| `Indicator.TrueRangeValues` | demo.py:113-114 | the true range is at least `high - low >= 0`; it equals `high - low` from index 1 on; at index 0 it is the distance between the first and last close |
| `Indicator.TrueRangeMatchesThreeTerm` | demo.py:113-114 | the two-operand maximum as written equals the three-term true range on every input |
| `Indicator.TrueRangeAppend` | demo.py:113-114 | appending a close keeps every true range except index 0 |
| `Indicator.TrueRangeFirstNotStable` | demo.py:113-114 | index 0 is not stable under append: `[100]` gives 0 there and `[100, 102]` gives 2 |
| `Indicator.Sma` | demo.py:115 | the moving average has one entry per input and is defined exactly from index `period - 1` on |
| `Indicator.SmaNonNegative` | demo.py:115 | every defined entry of the moving average of non-negative values is non-negative |
| `Indicator.SmaConstant` | demo.py:115 | the moving average of a constant run is that constant |
| `Indicator.Atr` | demo.py:113-115 | the ATR has one entry per close, is defined exactly from index `period - 1` on, and is never negative |
| `Indicator.AtrWindowAppend` | demo.py:113-115 | appending a close keeps the true-range window of every index whose window starts after index 0 |
| `Indicator.Bands` | demo.py:118-120 | the upper band, lower band and trend each have one entry per close |
| `Indicator.BandsShape` | demo.py:118-120 | each band and trend entry is defined exactly where the ATR is, and each trend entry is the upper or the lower band entry |
| `Indicator.SuperTrendOf` | demo.py:103-120 | the bands and trend have one entry per close, are each defined exactly from index `period - 1` on, and the trend is always one of the two bands |
| `Indicator.BandsLocal` | demo.py:118-120 | the bands and trend at an index depend only on the close, the extremes and the ATR at that index |
| `Indicator.BandsSymmetric` | demo.py:118-119 | `upper + lower = high + low`; `upper - lower = 2 * multiplier * ATR` with `ATR >= 0`; with a non-negative multiplier, `lower <= (high + low) / 2 <= upper` |
| `Indicator.TrendIsABand` | demo.py:120 | the trend is always one of the two bands: the lower band when the close is above the upper band, the upper band otherwise; it is undefined where the bands are; with a non-negative multiplier it never exceeds the upper band |
| `Indicator.ConstantPricesFlatEnvelope` | demo.py:103-120 | for a constant price `c`, the ATR is 0 and every defined band and trend value is `c` |
| `Indicator.EnvelopeAppend` | demo.py:103-120 | recomputing with one more close keeps the bands and trend at every index whose ATR window starts after index 0 |
| `Indicator.EnvelopeFirstWindowNotStable` | demo.py:113-118 | the window that reaches index 0 does change: with period 2 and multiplier 1, the upper band at index 1 goes from 100 to 102 when 104 is appended to `[100, 100]` |
| `Indicator.ScenarioFixture` | demo.py:103-120 | for closes `[100, 102, 101, 105, 98]`, period 3 and multiplier 2, index 4 has upper band 665/6, lower band 553/6 and trend 665/6 |
| `Indicator.CalculateBands` | demo.py:103-120 | the loop plus the band computation yields exactly the envelope of the closes |
| `Signals.BoundList.Append` | demo.py:124 | `list.append` adds one element at the end and leaves the rest unchanged |
| `Signals.Recorded` | demo.py:123-126 | a set flag contributes exactly the one value, an unset flag contributes nothing |
| `Signals.CalculateSuperTrend` | demo.py:88-129 | returns the envelope of the closes; with `buySignal` set, `upperBound` grows by exactly the latest upper band; with `sellSignal` set, `lowerBound` grows by exactly the latest lower band; with a flag off, its list is unchanged; one list passed for both gets the upper band and then the lower band |
| `Exit.StopLossWinsTie` | demo.py:169-189 | when both thresholds are met, the decision is stop-loss |
| `Exit.TieNeedsOverlappingPercentages` | demo.py:170-181 | for a positive trend, both thresholds can be met only if `stop_loss_pct + take_profit_pct <= 0` |
| `Exit.ExitDecision` | demo.py:169-189 | no trend value means hold; stop-loss exactly when the price is at or below `(1 - sl) * trend`; take-profit only when the price is at or above `(1 + tp) * trend` |
| `Exit.DecisionRegions` | demo.py:169-189 | stop-loss iff `price <= (1 - sl) * trend`; take-profit iff above that and `price >= (1 + tp) * trend`; hold iff strictly between the two |
| `Exit.ExitMonotone` | demo.py:169-189 | a lower price stays in stop-loss, and a higher price stays in take-profit |
| `Exit.StopLossFixture` | demo.py:170 | with trend 100 and a 2% stop-loss, price 97.9 stops out and 98.1 holds |
| `KlineCache.Lookup` | demo.py:59-60 | a hit exactly when the symbol is a key and the interval is a key under it, and then the stored tuple |
| `KlineCache.Put` | demo.py:76-79 | after storing, the entry `[symbol][interval]` is the new tuple, every other entry is unchanged, and the symbol is now a key |
| `KlineCache.GetKlines` | demo.py:58-86 | a hit leaves the cache unchanged; a produced tuple is then what the cache holds for that key; no tuple means a failed fetch and an unchanged cache |
| `KlineCache.HitIgnoresFetch` | demo.py:59-60 | a hit returns the stored tuple and leaves the cache unchanged, whatever the fetch would give |
| `KlineCache.MissStoresOnlyThatEntry` | demo.py:61-79 | a successful miss returns the fetched tuple and adds only the entry `[symbol][interval]` |
| `KlineCache.FailedFetchLeavesCache` | demo.py:62-83 | a failed fetch returns the all-`None` tuple and leaves the cache unchanged |
| `KlineCache.OtherEntriesUnchanged` | demo.py:58-86 | no call changes the entry of any other (symbol, interval) |
| `KlineCache.RepeatedGetIsStable` | demo.py:58-86 | once a call has produced a tuple, repeating the call returns the same tuple and leaves the cache unchanged |
| `KlineCache.BinanceTrader.constructor` | demo.py:34 | the cache starts empty |
| `KlineCache.BinanceTrader.GetHistoricalKlines` | demo.py:49-86 | the dictionary updates in place give exactly the result and the new cache of `GetKlines` |
| `Strategy.StrategyTick` | demo.py:157-189 | one tick appends the price, recomputes the envelope with period 10 and multiplier 3, appends the latest bands to both lists, and decides on the latest trend |
| `Strategy.TickTrendDefinedOnceWindowFills` | demo.py:145-181 | the latest trend is defined exactly once there are 10 closes; before that every tick holds |

## Left out

- Exchange I/O is left out: `Client(...)`, `futures_klines` and `create_order` (demo.py:32, 65, 151, 171-186). The fetch result is a parameter, and an order is represented by the exit decision that triggers it.
- Parsing raw K-line rows into float arrays is left out (demo.py:68-74, 154-158). The model takes sequences of `real`. If parsing failed after `times` was assigned, the source would return a partly filled tuple and cache nothing. The model treats every fetch failure as all-`None`.
- The `limit` argument of `get_historical_klines` only reaches the fetch, so it is not modelled. The cache key ignores it, and a hit returns whatever was stored regardless of `limit`.
- The polling loop itself is left out (demo.py:148-202): `while True`, `time.sleep(60)`, `break` after an order and the catch-all `except … continue`. `StrategyTick` models one pass without them. As written, the loop passes the previous numpy band arrays as the bound lists (demo.py:165-166), so `.append` at demo.py:124 raises. It also rebinds `time` at demo.py:158, so `time.sleep` would raise. Both errors are swallowed. The model passes real lists and does not reproduce these failures.
- The initial fetch and calculation are not modelled (demo.py:142-145). If that fetch fails, `calculate_super_trend(None, …)` raises outside any handler.
- The constructor's and destructor's error handling, the module-level credentials and parameters, and the prints are left out (demo.py:7-25, 29-47, 205-212). They hold no logic.
- Floating point is not modelled. Values are exact reals, and NaN appears only as an undefined indicator (`None`).
- `Indicator.Sma` follows the textbook definition of `talib.SMA`. TA-Lib itself accepts only time periods from 2 to 100000 and raises otherwise. The model accepts any period of at least 1. The script always uses 10.
- `Signals.CalculateSuperTrend` requires a non-empty close sequence. On an empty one the source raises `IndexError` at demo.py:105.
- `Signals.CalculateSuperTrend` always takes two list objects. The integer defaults `upper_bound=0, lower_bound=0` of demo.py:88 are not modelled: with a flag set and a default left in place, `0.append` raises at demo.py:124 or 126. No call site relies on those defaults.
- There is no incremental one-sample updater and no separate entry or state machine for opening a position, because the source has neither. It recomputes the whole batch every tick, and it has only exit logic. `Indicator.EnvelopeAppend` and `Indicator.EnvelopeFirstWindowNotStable` state what that recomputation keeps and what it changes.
