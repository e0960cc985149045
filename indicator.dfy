/** The SuperTrend envelope of `calculate_super_trend` (demo.py:113-120):
    true range against the previous close, its simple moving average (ATR),
    symmetric bands around the running midpoint, and the trend value. Prices
    are exact reals; "undefined" (NaN in the source) is `None`. */
module Indicator {
  import opened Wrappers
  import opened Extremes

  function Abs(x: real): real { if x < 0.0 then -x else x }

  /** `np.roll(close_prices, 1)[i]`: the close before index i, where the roll
      wraps index 0 round to the last close. */
  function PrevClose(close: seq<real>, i: int): (p: real)
    requires 0 <= i < |close|
    ensures i > 0 ==> p == close[i - 1]
    ensures i == 0 ==> p == close[|close| - 1]
  {
    close[(i + |close| - 1) % |close|]
  }

  /** The true range as demo.py:113-114 computes it. `np.maximum` takes two
      operands; the third array it is handed is its `out` parameter, which is
      overwritten, so only two terms enter the maximum. */
  function TrueRange(close: seq<real>, high: seq<real>, low: seq<real>): (tr: seq<real>)
    requires |high| == |close| && |low| == |close|
    ensures |tr| == |close|
    ensures forall i :: 0 <= i < |close| ==>
      tr[i] >= high[i] - low[i] && tr[i] >= Abs(high[i] - PrevClose(close, i))
    ensures forall i :: 0 <= i < |close| ==>
      tr[i] == high[i] - low[i] || tr[i] == Abs(high[i] - PrevClose(close, i))
  {
    seq(|close|, i requires 0 <= i < |close| =>
      Max(high[i] - low[i], Abs(high[i] - PrevClose(close, i))))
  }

  /** The textbook three-term true range, the reference for TrueRange. */
  function TrueRangeThreeTerm(close: seq<real>, high: seq<real>, low: seq<real>): seq<real>
    requires |high| == |close| && |low| == |close|
  {
    seq(|close|, i requires 0 <= i < |close| =>
      Max(high[i] - low[i], Max(Abs(high[i] - PrevClose(close, i)), Abs(low[i] - PrevClose(close, i)))))
  }

  /** The true range of `close` over its own running extremes. */
  function TrueRangeOf(close: seq<real>): seq<real>
  {
    TrueRange(close, RunningHigh(close), RunningLow(close))
  }

  /** From index 1 on the true range is the width `high - low`, since the
      previous close lies between the running extremes; index 0 measures the
      wrap-around distance from the last close. Either way it is at least the
      width, so never negative, and the dropped third term never wins. */
  lemma TrueRangeValues(close: seq<real>, i: int)
    requires 0 <= i < |close|
    ensures |TrueRangeOf(close)| == |close|
    ensures TrueRangeOf(close)[i] >= RunningHigh(close)[i] - RunningLow(close)[i] >= 0.0
    ensures i > 0 ==> TrueRangeOf(close)[i] == RunningHigh(close)[i] - RunningLow(close)[i]
    ensures i == 0 ==> TrueRangeOf(close)[i] == Abs(close[0] - close[|close| - 1])
    ensures TrueRangeOf(close)[i] == TrueRangeThreeTerm(close, RunningHigh(close), RunningLow(close))[i]
  {
    var high, low := RunningHigh(close)[i], RunningLow(close)[i];
    var p := PrevClose(close, i);
    RunningExtremesArePrefixExtremes(close, i);
    if i > 0 {
      assert low <= close[i - 1] <= high;
    }
    assert TrueRangeOf(close)[i] == Max(high - low, Abs(high - p));
    assert TrueRangeThreeTerm(close, RunningHigh(close), RunningLow(close))[i]
      == Max(high - low, Max(Abs(high - p), Abs(low - p)));
  }

  /** Over the running extremes the dropped third term never wins, so the
      true range as written equals the three-term true range on every input. */
  lemma TrueRangeMatchesThreeTerm(close: seq<real>)
    ensures TrueRangeOf(close) == TrueRangeThreeTerm(close, RunningHigh(close), RunningLow(close))
  {
    forall i | 0 <= i < |close|
      ensures TrueRangeOf(close)[i] == TrueRangeThreeTerm(close, RunningHigh(close), RunningLow(close))[i]
    {
      TrueRangeValues(close, i);
    }
  }

  /** Appending a close changes no true range except possibly index 0, whose
      wrapped "previous close" is the close just appended. */
  lemma TrueRangeAppend(close: seq<real>, x: real, i: int)
    requires 1 <= i < |close|
    ensures TrueRangeOf(close + [x])[i] == TrueRangeOf(close)[i]
  {
    RunningExtremesAppendAt(close, x, i);
  }

  /** Index 0 is not stable under append: [100] has true range 0 there, while
      [100, 102] has 2, the distance to the wrapped-in last close. */
  lemma TrueRangeFirstNotStable()
    ensures TrueRangeOf([100.0])[0] == 0.0
    ensures TrueRangeOf([100.0, 102.0])[0] == 2.0
  {
    TrueRangeValues([100.0], 0);
    TrueRangeValues([100.0, 102.0], 0);
  }

  function Sum(s: seq<real>): real
  {
    if s == [] then 0.0 else Sum(s[..|s| - 1]) + s[|s| - 1]
  }

  lemma {:induction false} SumNonNegative(s: seq<real>)
    requires forall k :: 0 <= k < |s| ==> s[k] >= 0.0
    ensures Sum(s) >= 0.0
  {
    if s != [] {
      SumNonNegative(s[..|s| - 1]);
    }
  }

  lemma {:induction false} SumConstant(s: seq<real>, c: real)
    requires forall k :: 0 <= k < |s| ==> s[k] == c
    ensures Sum(s) == |s| as real * c
  {
    if s != [] {
      SumConstant(s[..|s| - 1], c);
    }
  }

  /** `talib.SMA(x, period)`: undefined until a full window of `period` values
      is available, then the mean of the last `period` values. */
  function Sma(x: seq<real>, period: int): (avg: seq<Option<real>>)
    requires period >= 1
    ensures |avg| == |x|
    ensures forall i :: 0 <= i < |x| ==> (avg[i].Some? <==> i >= period - 1)
  {
    seq(|x|, i requires 0 <= i < |x| =>
      if i < period - 1 then None else Some(Sum(x[i - period + 1..i + 1]) / period as real))
  }

  /** The moving average of non-negative values is non-negative. */
  lemma SmaNonNegative(x: seq<real>, period: int)
    requires period >= 1
    requires forall k :: 0 <= k < |x| ==> x[k] >= 0.0
    ensures forall i :: 0 <= i < |x| && Sma(x, period)[i].Some? ==> Sma(x, period)[i].value >= 0.0
  {
    forall i | period - 1 <= i < |x| ensures Sma(x, period)[i].value >= 0.0 {
      SumNonNegative(x[i - period + 1..i + 1]);
    }
  }

  /** The moving average of a constant run is that constant. */
  lemma SmaConstant(x: seq<real>, c: real, period: int, i: int)
    requires period >= 1 && 0 <= i < |x|
    requires forall k :: 0 <= k < |x| ==> x[k] == c
    ensures Sma(x, period)[i].Some? ==> Sma(x, period)[i].value == c
  {
    if i >= period - 1 {
      var w := x[i - period + 1..i + 1];
      SumConstant(w, c);
      assert |w| == period;
    }
  }

  /** The ATR of `close` (demo.py:115): defined exactly from index
      `period - 1` on, and never negative. */
  function Atr(close: seq<real>, period: int): (atr: seq<Option<real>>)
    requires period >= 1
    ensures |atr| == |close|
    ensures forall i :: 0 <= i < |close| ==> (atr[i].Some? <==> i >= period - 1)
    ensures forall i :: 0 <= i < |close| && atr[i].Some? ==> atr[i].value >= 0.0
  {
    SmaNonNegative(TrueRangeOf(close), period);
    Sma(TrueRangeOf(close), period)
  }

  /** The three arrays `calculate_super_trend` returns. */
  datatype SuperTrend = SuperTrend(upperBand: seq<Option<real>>, lowerBand: seq<Option<real>>, trend: seq<Option<real>>)

  /** `mid + offset * atr`, undefined (NaN in the source) where the ATR is. */
  function Offset(mid: real, offset: real, atr: Option<real>): Option<real>
  {
    if atr.Some? then Some(mid + offset * atr.value) else None
  }

  /** demo.py:118-120: bands around the running midpoint at `multiplier`
      times the ATR, and the trend chosen between them. */
  function Bands(close: seq<real>, high: seq<real>, low: seq<real>, atr: seq<Option<real>>, multiplier: real): (st: SuperTrend)
    requires |high| == |close| && |low| == |close| && |atr| == |close|
    ensures |st.upperBand| == |close| && |st.lowerBand| == |close| && |st.trend| == |close|
  {
    var upper := seq(|close|, i requires 0 <= i < |close| => Offset((high[i] + low[i]) / 2.0, multiplier, atr[i]));
    var lower := seq(|close|, i requires 0 <= i < |close| => Offset((high[i] + low[i]) / 2.0, -multiplier, atr[i]));
    // `close > NaN` is false, so an undefined band yields the (undefined) upper band
    var trend := seq(|close|, i requires 0 <= i < |close| =>
      if upper[i].Some? && close[i] > upper[i].value then lower[i] else upper[i]);
    SuperTrend(upper, lower, trend)
  }

  /** The bands and trend at index i, read off the extremes and ATR there. */
  lemma BandsAt(close: seq<real>, high: seq<real>, low: seq<real>, atr: seq<Option<real>>, multiplier: real, i: int)
    requires |high| == |close| && |low| == |close| && |atr| == |close| && 0 <= i < |close|
    ensures Bands(close, high, low, atr, multiplier).upperBand[i] == Offset((high[i] + low[i]) / 2.0, multiplier, atr[i])
    ensures Bands(close, high, low, atr, multiplier).lowerBand[i] == Offset((high[i] + low[i]) / 2.0, -multiplier, atr[i])
    ensures var st := Bands(close, high, low, atr, multiplier);
      st.trend[i] == (if st.upperBand[i].Some? && close[i] > st.upperBand[i].value then st.lowerBand[i] else st.upperBand[i])
  {
  }

  /** Every band and trend entry is defined exactly where the ATR is, and the
      trend entry is one of the two band entries. */
  lemma BandsShape(close: seq<real>, high: seq<real>, low: seq<real>, atr: seq<Option<real>>, multiplier: real)
    requires |high| == |close| && |low| == |close| && |atr| == |close|
    ensures var st := Bands(close, high, low, atr, multiplier);
      forall i :: 0 <= i < |close| ==>
        (st.upperBand[i].Some? <==> atr[i].Some?) &&
        (st.lowerBand[i].Some? <==> atr[i].Some?) &&
        (st.trend[i].Some? <==> atr[i].Some?) &&
        (st.trend[i] == st.upperBand[i] || st.trend[i] == st.lowerBand[i])
  {
  }

  /** The whole of demo.py:103-120 as one function of the close prices: the
      bands and trend are defined exactly where the ATR window is full, and
      the trend is always one of the two bands. */
  function SuperTrendOf(close: seq<real>, period: int, multiplier: real): (st: SuperTrend)
    requires period >= 1
    ensures |st.upperBand| == |close| && |st.lowerBand| == |close| && |st.trend| == |close|
    ensures forall i :: 0 <= i < |close| ==>
      (st.upperBand[i].Some? <==> i >= period - 1) &&
      (st.lowerBand[i].Some? <==> i >= period - 1) &&
      (st.trend[i].Some? <==> i >= period - 1)
    ensures forall i :: 0 <= i < |close| ==> st.trend[i] == st.upperBand[i] || st.trend[i] == st.lowerBand[i]
  {
    BandsShape(close, RunningHigh(close), RunningLow(close), Atr(close, period), multiplier);
    Bands(close, RunningHigh(close), RunningLow(close), Atr(close, period), multiplier)
  }

  /** The bands sit symmetrically around the running midpoint, `2 * multiplier
      * ATR` apart; with a non-negative multiplier the lower band is below the
      midpoint and the upper band above it. */
  lemma BandsSymmetric(close: seq<real>, period: int, multiplier: real, i: int)
    requires period >= 1 && period - 1 <= i < |close|
    ensures var st := SuperTrendOf(close, period, multiplier);
      var high, low := RunningHigh(close)[i], RunningLow(close)[i];
      var atr := Atr(close, period)[i];
      atr.Some? && atr.value >= 0.0 &&
      st.upperBand[i].Some? && st.lowerBand[i].Some? &&
      st.upperBand[i].value + st.lowerBand[i].value == high + low &&
      st.upperBand[i].value - st.lowerBand[i].value == 2.0 * multiplier * atr.value &&
      (multiplier >= 0.0 ==> st.lowerBand[i].value <= (high + low) / 2.0 <= st.upperBand[i].value)
  {
    var high, low, atr := RunningHigh(close), RunningLow(close), Atr(close, period);
    BandsAt(close, high, low, atr, multiplier, i);
    var a := atr[i].value;
    assert multiplier >= 0.0 ==> multiplier * a >= 0.0;
  }

  /** The trend is always one of the two bands: the lower band exactly when
      the close is above the upper band, the upper band otherwise. With a
      non-negative multiplier it never exceeds the upper band. */
  lemma TrendIsABand(close: seq<real>, period: int, multiplier: real, i: int)
    requires period >= 1 && 0 <= i < |close|
    ensures var st := SuperTrendOf(close, period, multiplier);
      (st.trend[i] == st.upperBand[i] || st.trend[i] == st.lowerBand[i]) &&
      (st.trend[i].Some? ==> st.upperBand[i].Some? && st.lowerBand[i].Some?) &&
      (st.trend[i].Some? && close[i] > st.upperBand[i].value ==> st.trend[i] == st.lowerBand[i]) &&
      (st.trend[i].Some? && close[i] <= st.upperBand[i].value ==> st.trend[i] == st.upperBand[i]) &&
      (st.trend[i].Some? && multiplier >= 0.0 ==> st.trend[i].value <= st.upperBand[i].value)
  {
    if i >= period - 1 {
      BandsSymmetric(close, period, multiplier, i);
    }
  }

  /** For a constant price sequence every defined band and trend value is that
      price: the range is flat, so the ATR is zero. */
  lemma ConstantPricesFlatEnvelope(close: seq<real>, c: real, period: int, multiplier: real, i: int)
    requires period >= 1 && 0 <= i < |close|
    requires forall k :: 0 <= k < |close| ==> close[k] == c
    ensures var st := SuperTrendOf(close, period, multiplier);
      Atr(close, period)[i].Some? ==> Atr(close, period)[i].value == 0.0
    ensures var st := SuperTrendOf(close, period, multiplier);
      (st.upperBand[i].Some? ==> st.upperBand[i].value == c) &&
      (st.lowerBand[i].Some? ==> st.lowerBand[i].value == c) &&
      (st.trend[i].Some? ==> st.trend[i].value == c)
  {
    var tr, high, low := TrueRangeOf(close), RunningHigh(close), RunningLow(close);
    forall k | 0 <= k < |close| ensures high[k] == c && low[k] == c {
      RunningExtremesArePrefixExtremes(close, k);
    }
    forall k | 0 <= k < |tr| ensures tr[k] == 0.0 {
      assert PrevClose(close, k) == c;
    }
    SmaConstant(tr, 0.0, period, i);
    BandsAt(close, high, low, Atr(close, period), multiplier, i);
    assert (high[i] + low[i]) / 2.0 == c;
  }

  /** Recomputing after one more close keeps the ATR window of every index
      whose window starts after index 0. */
  lemma AtrWindowAppend(close: seq<real>, x: real, period: int, i: int)
    requires period >= 1 && period - 1 < i < |close|
    ensures |TrueRangeOf(close + [x])| == |close| + 1 && |TrueRangeOf(close)| == |close|
    ensures TrueRangeOf(close + [x])[i - period + 1..i + 1] == TrueRangeOf(close)[i - period + 1..i + 1]
  {
    var w := TrueRangeOf(close + [x])[i - period + 1..i + 1];
    var v := TrueRangeOf(close)[i - period + 1..i + 1];
    forall k | 0 <= k < period ensures w[k] == v[k] {
      TrueRangeAppend(close, x, i - period + 1 + k);
    }
    assert w == v;
  }

  /** The bands and trend at index i depend only on the close, the running
      extremes and the ATR at i. */
  lemma BandsLocal(close1: seq<real>, high1: seq<real>, low1: seq<real>, atr1: seq<Option<real>>,
                   close2: seq<real>, high2: seq<real>, low2: seq<real>, atr2: seq<Option<real>>,
                   multiplier: real, i: int)
    requires |high1| == |close1| && |low1| == |close1| && |atr1| == |close1|
    requires |high2| == |close2| && |low2| == |close2| && |atr2| == |close2|
    requires 0 <= i < |close1| && i < |close2|
    requires close1[i] == close2[i] && high1[i] == high2[i] && low1[i] == low2[i] && atr1[i] == atr2[i]
    ensures Bands(close1, high1, low1, atr1, multiplier).upperBand[i] == Bands(close2, high2, low2, atr2, multiplier).upperBand[i]
    ensures Bands(close1, high1, low1, atr1, multiplier).lowerBand[i] == Bands(close2, high2, low2, atr2, multiplier).lowerBand[i]
    ensures Bands(close1, high1, low1, atr1, multiplier).trend[i] == Bands(close2, high2, low2, atr2, multiplier).trend[i]
  {
  }

  /** The ATR at a full window is the mean of the window's true ranges. */
  lemma AtrAt(close: seq<real>, period: int, i: int)
    requires period >= 1 && period - 1 <= i < |close|
    ensures |TrueRangeOf(close)| == |close|
    ensures Atr(close, period)[i] == Some(Sum(TrueRangeOf(close)[i - period + 1..i + 1]) / period as real)
  {
  }

  /** Recomputing after one more close keeps the bands and trend at every index
      whose ATR window starts after index 0. */
  lemma EnvelopeAppend(close: seq<real>, x: real, period: int, multiplier: real, i: int)
    requires period >= 1 && period - 1 < i < |close|
    ensures SuperTrendOf(close + [x], period, multiplier).upperBand[i] == SuperTrendOf(close, period, multiplier).upperBand[i]
    ensures SuperTrendOf(close + [x], period, multiplier).lowerBand[i] == SuperTrendOf(close, period, multiplier).lowerBand[i]
    ensures SuperTrendOf(close + [x], period, multiplier).trend[i] == SuperTrendOf(close, period, multiplier).trend[i]
  {
    RunningExtremesAppendAt(close, x, i);
    AtrWindowAppend(close, x, period, i);
    AtrAt(close, period, i);
    AtrAt(close + [x], period, i);
    BandsLocal(close + [x], RunningHigh(close + [x]), RunningLow(close + [x]), Atr(close + [x], period),
               close, RunningHigh(close), RunningLow(close), Atr(close, period), multiplier, i);
  }

  /** The window that reaches index 0 is not stable: with period 2 and
      multiplier 1, the upper band at index 1 is 100 for [100, 100] and 102
      once 104 is appended, because the wrapped true range at index 0 changes. */
  lemma EnvelopeFirstWindowNotStable()
    ensures SuperTrendOf([100.0, 100.0], 2, 1.0).upperBand[1] == Some(100.0)
    ensures SuperTrendOf([100.0, 100.0, 104.0], 2, 1.0).upperBand[1] == Some(102.0)
  {
    var a, b := [100.0, 100.0], [100.0, 100.0, 104.0];
    RunningExtremesArePrefixExtremes(a, 0);
    RunningExtremesArePrefixExtremes(b, 0);
    RunningExtremesStep(a, 1);
    RunningExtremesStep(b, 1);
    assert TrueRangeOf(a)[0] == 0.0 && TrueRangeOf(a)[1] == 0.0;
    assert TrueRangeOf(b)[0] == 4.0 && TrueRangeOf(b)[1] == 0.0;
    assert TrueRangeOf(a)[0..2] == [0.0, 0.0];
    assert TrueRangeOf(b)[0..2] == [4.0, 0.0];
    SumOfTwo(0.0, 0.0);
    SumOfTwo(4.0, 0.0);
    BandsAt(a, RunningHigh(a), RunningLow(a), Atr(a, 2), 1.0, 1);
    BandsAt(b, RunningHigh(b), RunningLow(b), Atr(b, 2), 1.0, 1);
  }

  lemma SumOfTwo(a: real, b: real)
    ensures Sum([a, b]) == a + b
  {
    assert [a, b][..1] == [a];
    assert [a][..0] == [];
    assert Sum([a]) == a;
  }

  /** The regression fixture close = [100, 102, 101, 105, 98], period 3,
      multiplier 2: ATR at index 4 is (2 + 5 + 7) / 3, the midpoint 101.5,
      so the bands are 665/6 and 553/6, and the close 98 is not above the
      upper band, so the trend is the upper band. */
  lemma ScenarioFixture()
    ensures var st := SuperTrendOf([100.0, 102.0, 101.0, 105.0, 98.0], 3, 2.0);
      st.upperBand[4] == Some(665.0 / 6.0) &&
      st.lowerBand[4] == Some(553.0 / 6.0) &&
      st.trend[4] == Some(665.0 / 6.0)
  {
    var close := [100.0, 102.0, 101.0, 105.0, 98.0];
    RunningExtremesArePrefixExtremes(close, 0);
    RunningExtremesStep(close, 1);
    RunningExtremesStep(close, 2);
    RunningExtremesStep(close, 3);
    RunningExtremesStep(close, 4);
    var high, low := RunningHigh(close), RunningLow(close);
    assert high[1] == 102.0 && low[1] == 100.0;
    assert high[2] == 102.0 && low[2] == 100.0;
    assert high[3] == 105.0 && low[3] == 100.0;
    assert high[4] == 105.0 && low[4] == 98.0;
    var tr := TrueRangeOf(close);
    assert tr[2] == 2.0 && tr[3] == 5.0 && tr[4] == 7.0;
    assert tr[2..5] == [2.0, 5.0, 7.0];
    assert [2.0, 5.0, 7.0][..2] == [2.0, 5.0];
    SumOfTwo(2.0, 5.0);
    assert Atr(close, 3)[4] == Some(14.0 / 3.0);
    BandsAt(close, high, low, Atr(close, 3), 2.0, 4);
  }

  /** demo.py:103-120: the extremes are filled by the loop, the rest is
      computed from them. */
  method CalculateBands(close: seq<real>, period: int, multiplier: real) returns (st: SuperTrend)
    requires |close| > 0 && period >= 1
    ensures st == SuperTrendOf(close, period, multiplier)
  {
    var high, low := RunningExtremes(close);
    var atr := Sma(TrueRange(close, high, low), period);
    st := Bands(close, high, low, atr, multiplier);
  }
}
