/** The running extremes of the close prices that `calculate_super_trend`
    builds before the true range (demo.py:103-111). */
module Extremes {

  function Max(a: real, b: real): real { if a >= b then a else b }

  function Min(a: real, b: real): real { if a <= b then a else b }

  /** The largest element of a non-empty sequence. */
  function MaxOf(s: seq<real>): real
    requires |s| > 0
  {
    if |s| == 1 then s[0] else Max(MaxOf(s[..|s| - 1]), s[|s| - 1])
  }

  /** The smallest element of a non-empty sequence. */
  function MinOf(s: seq<real>): real
    requires |s| > 0
  {
    if |s| == 1 then s[0] else Min(MinOf(s[..|s| - 1]), s[|s| - 1])
  }

  lemma {:induction false} MaxOfIsMaximum(s: seq<real>)
    requires |s| > 0
    ensures forall j :: 0 <= j < |s| ==> s[j] <= MaxOf(s)
    ensures exists j :: 0 <= j < |s| && MaxOf(s) == s[j]
  {
    if |s| > 1 {
      var init := s[..|s| - 1];
      MaxOfIsMaximum(init);
      var j0 :| 0 <= j0 < |init| && MaxOf(init) == init[j0];
      if MaxOf(init) >= s[|s| - 1] {
        assert MaxOf(s) == s[j0] by { assert init[j0] == s[j0]; }
      } else {
        assert MaxOf(s) == s[|s| - 1];
      }
      forall j | 0 <= j < |s| ensures s[j] <= MaxOf(s) {
        if j < |s| - 1 { assert s[j] == init[j]; }
      }
    } else {
      assert MaxOf(s) == s[0];
    }
  }

  lemma {:induction false} MinOfIsMinimum(s: seq<real>)
    requires |s| > 0
    ensures forall j :: 0 <= j < |s| ==> MinOf(s) <= s[j]
    ensures exists j :: 0 <= j < |s| && MinOf(s) == s[j]
  {
    if |s| > 1 {
      var init := s[..|s| - 1];
      MinOfIsMinimum(init);
      var j0 :| 0 <= j0 < |init| && MinOf(init) == init[j0];
      if MinOf(init) <= s[|s| - 1] {
        assert MinOf(s) == s[j0] by { assert init[j0] == s[j0]; }
      } else {
        assert MinOf(s) == s[|s| - 1];
      }
      forall j | 0 <= j < |s| ensures MinOf(s) <= s[j] {
        if j < |s| - 1 { assert s[j] == init[j]; }
      }
    } else {
      assert MinOf(s) == s[0];
    }
  }

  /** Every prefix maximum bounds the prefix's last close from above and every
      prefix minimum from below; both grow outward as the prefix lengthens. */
  lemma PrefixExtremes(close: seq<real>)
    ensures |close| > 0 ==> MaxOf(close[..1]) == close[0] && MinOf(close[..1]) == close[0]
    ensures forall i :: 0 <= i < |close| ==> MinOf(close[..i + 1]) <= close[i] <= MaxOf(close[..i + 1])
    ensures forall i :: 0 < i < |close| ==>
      MaxOf(close[..i]) <= MaxOf(close[..i + 1]) && MinOf(close[..i + 1]) <= MinOf(close[..i])
  {
    if |close| > 0 {
      assert close[..1] == [close[0]];
    }
    forall i | 0 < i < |close|
      ensures MaxOf(close[..i]) <= MaxOf(close[..i + 1]) && MinOf(close[..i + 1]) <= MinOf(close[..i])
    {
      assert close[..i + 1][..i] == close[..i];
    }
  }

  /** `high_prices`: entry i is the largest close among close[0..i]. It starts
      at close[0], never lies below the close at its index, and never
      decreases. */
  function RunningHigh(close: seq<real>): (high: seq<real>)
    ensures |high| == |close|
    ensures |close| > 0 ==> high[0] == close[0]
  {
    PrefixExtremes(close);
    seq(|close|, i requires 0 <= i < |close| => MaxOf(close[..i + 1]))
  }

  /** `low_prices`: entry i is the smallest close among close[0..i]. It starts
      at close[0], never lies above the close at its index, and never
      increases. */
  function RunningLow(close: seq<real>): (low: seq<real>)
    ensures |low| == |close|
    ensures |close| > 0 ==> low[0] == close[0]
  {
    PrefixExtremes(close);
    seq(|close|, i requires 0 <= i < |close| => MinOf(close[..i + 1]))
  }

  /** Both series are seeded with close[0]; entry i bounds every close up to i
      and is itself one of them, so in particular low[i] <= close[i] <= high[i]. */
  lemma RunningExtremesArePrefixExtremes(close: seq<real>, i: int)
    requires 0 <= i < |close|
    ensures |RunningHigh(close)| == |RunningLow(close)| == |close|
    ensures RunningHigh(close)[0] == close[0] && RunningLow(close)[0] == close[0]
    ensures forall j :: 0 <= j <= i ==> RunningLow(close)[i] <= close[j] <= RunningHigh(close)[i]
    ensures exists j :: 0 <= j <= i && RunningHigh(close)[i] == close[j]
    ensures exists j :: 0 <= j <= i && RunningLow(close)[i] == close[j]
  {
    var p := close[..i + 1];
    assert close[..1] == [close[0]];
    MaxOfIsMaximum(p);
    MinOfIsMinimum(p);
    forall j | 0 <= j <= i
      ensures RunningLow(close)[i] <= close[j] <= RunningHigh(close)[i]
    {
      assert p[j] == close[j];
    }
    var h :| 0 <= h < |p| && MaxOf(p) == p[h];
    assert RunningHigh(close)[i] == close[h];
    var l :| 0 <= l < |p| && MinOf(p) == p[l];
    assert RunningLow(close)[i] == close[l];
  }

  /** `high_prices` never decreases and `low_prices` never increases. */
  lemma RunningExtremesMonotone(close: seq<real>, i: int, j: int)
    requires 0 <= i <= j < |close|
    ensures RunningHigh(close)[i] <= RunningHigh(close)[j]
    ensures RunningLow(close)[j] <= RunningLow(close)[i]
  {
    RunningExtremesArePrefixExtremes(close, i);
    RunningExtremesArePrefixExtremes(close, j);
    var h :| 0 <= h <= i && RunningHigh(close)[i] == close[h];
    var l :| 0 <= l <= i && RunningLow(close)[i] == close[l];
  }

  /** Appending a close leaves every earlier extreme as it was, and the new
      entries follow the loop's step `max(close[i], high[i - 1])`. */
  lemma RunningExtremesAppend(close: seq<real>, x: real)
    requires |close| > 0
    ensures RunningHigh(close + [x])[..|close|] == RunningHigh(close)
    ensures RunningLow(close + [x])[..|close|] == RunningLow(close)
    ensures RunningHigh(close + [x])[|close|] == Max(x, RunningHigh(close)[|close| - 1])
    ensures RunningLow(close + [x])[|close|] == Min(x, RunningLow(close)[|close| - 1])
  {
    var c := close + [x];
    forall i | 0 <= i < |close|
      ensures RunningHigh(c)[i] == RunningHigh(close)[i] && RunningLow(c)[i] == RunningLow(close)[i]
    {
      assert c[..i + 1] == close[..i + 1];
    }
    assert c[..|close| + 1][..|close|] == close[..|close|];
  }

  /** The recurrence the loop of demo.py:107-111 runs: each entry combines the
      new close with the entry before it. */
  lemma RunningExtremesStep(close: seq<real>, i: int)
    requires 0 < i < |close|
    ensures RunningHigh(close)[i] == Max(close[i], RunningHigh(close)[i - 1])
    ensures RunningLow(close)[i] == Min(close[i], RunningLow(close)[i - 1])
  {
    assert close[..i + 1][..i] == close[..i];
  }

  /** Per-index form of RunningExtremesAppend. */
  lemma RunningExtremesAppendAt(close: seq<real>, x: real, i: int)
    requires 0 <= i < |close|
    ensures RunningHigh(close + [x])[i] == RunningHigh(close)[i]
    ensures RunningLow(close + [x])[i] == RunningLow(close)[i]
  {
    assert (close + [x])[..i + 1] == close[..i + 1];
  }

  /** The loop of demo.py:103-111: two arrays the size of `close`, seeded with
      close[0] and filled left to right. */
  method RunningExtremes(close: seq<real>) returns (high: seq<real>, low: seq<real>)
    requires |close| > 0
    ensures high == RunningHigh(close)
    ensures low == RunningLow(close)
  {
    var highPrices := new real[|close|];
    var lowPrices := new real[|close|];
    highPrices[0] := close[0];
    lowPrices[0] := close[0];
    assert close[..1] == [close[0]];
    var i := 1;
    while i < |close|
      invariant 1 <= i <= |close|
      invariant forall k :: 0 <= k < i ==> highPrices[k] == MaxOf(close[..k + 1])
      invariant forall k :: 0 <= k < i ==> lowPrices[k] == MinOf(close[..k + 1])
    {
      assert close[..i + 1][..i] == close[..i];
      highPrices[i] := Max(close[i], highPrices[i - 1]);
      lowPrices[i] := Min(close[i], lowPrices[i - 1]);
      i := i + 1;
    }
    high := highPrices[..];
    low := lowPrices[..];
  }
}
