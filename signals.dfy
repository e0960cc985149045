/** The signal recording at the end of `calculate_super_trend`
    (demo.py:122-126): the latest band values are appended to lists the caller
    owns. */
module Signals {
  import opened Wrappers
  import opened Indicator

  /** A caller-owned Python list of band values. Entries may be undefined,
      since the latest band is NaN until the ATR window fills. */
  class BoundList {
    var values: seq<Option<real>>

    constructor (init: seq<Option<real>>)
      ensures values == init
    {
      values := init;
    }

    /** `list.append`: one element at the end, the rest unchanged. */
    method Append(x: Option<real>)
      modifies this
      ensures values == old(values) + [x]
    {
      values := values + [x];
    }
  }

  /** What one flag contributes to its list: the value when set, nothing
      otherwise. */
  function Recorded(flag: bool, x: Option<real>): (r: seq<Option<real>>)
    ensures flag ==> r == [x]
    ensures !flag ==> r == []
  {
    if flag then [x] else []
  }

  /** `calculate_super_trend` in full (demo.py:88-129): compute the envelope,
      then, if `buySignal` is set, append the latest upper band to
      `upperBound`, and if `sellSignal` is set, append the latest lower band to
      `lowerBound`. When the caller passes one list for both, it receives the
      upper band first and then the lower band. */
  method CalculateSuperTrend(close: seq<real>, period: int, multiplier: real,
                             upperBound: BoundList, lowerBound: BoundList,
                             buySignal: bool, sellSignal: bool)
    returns (st: SuperTrend)
    requires |close| > 0 && period >= 1
    modifies upperBound, lowerBound
    ensures st == SuperTrendOf(close, period, multiplier)
    ensures upperBound != lowerBound ==>
      upperBound.values == old(upperBound.values) + Recorded(buySignal, Last(st.upperBand)) &&
      lowerBound.values == old(lowerBound.values) + Recorded(sellSignal, Last(st.lowerBand))
    ensures upperBound == lowerBound ==>
      upperBound.values == old(upperBound.values) + Recorded(buySignal, Last(st.upperBand))
                                                  + Recorded(sellSignal, Last(st.lowerBand))
  {
    st := CalculateBands(close, period, multiplier);
    if buySignal {
      upperBound.Append(Last(st.upperBand));
    }
    if sellSignal {
      lowerBound.Append(Last(st.lowerBand));
    }
  }
}
