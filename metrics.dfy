/**
 * The summary of an equity curve: the degenerate rule (fewer than two period returns gives
 * zero metrics), the drawdown curve against the running maximum and its minimum, and the
 * inputs of the growth rate.
 */
module Metrics {

  /** The running maximum of a non-empty series: the largest value seen so far. */
  function Peak(values: seq<real>): (p: real)
    requires |values| > 0
    ensures forall j :: 0 <= j < |values| ==> values[j] <= p
    ensures exists j :: 0 <= j < |values| && values[j] == p
  {
    if |values| == 1 then values[0]
    else
      var p := Peak(values[..|values| - 1]);
      var last := values[|values| - 1];
      assert forall j :: 0 <= j < |values| - 1 ==> values[..|values| - 1][j] == values[j];
      if last > p then last else p
  }

  predicate Positive(values: seq<real>)
  {
    forall j :: 0 <= j < |values| ==> values[j] > 0.0
  }

  /** The drawdown at each point: the value over the running maximum, minus one. */
  function DrawdownCurve(values: seq<real>): (dd: seq<real>)
    requires Positive(values)
    ensures |dd| == |values|
  {
    seq(|values|, i requires 0 <= i < |values| => DrawdownAt(values, i))
  }

  function DrawdownAt(values: seq<real>, i: nat): real
    requires Positive(values) && i < |values|
  {
    PeakPositive(values[..i + 1]);
    values[i] / Peak(values[..i + 1]) - 1.0
  }

  lemma PeakPositive(values: seq<real>)
    requires |values| > 0 && Positive(values)
    ensures Peak(values) > 0.0
  {
    assert values[0] <= Peak(values);
  }

  /** The smallest entry of a non-empty series. */
  function Least(s: seq<real>): (m: real)
    requires |s| > 0
    ensures forall j :: 0 <= j < |s| ==> m <= s[j]
    ensures exists j :: 0 <= j < |s| && s[j] == m
  {
    if |s| == 1 then s[0]
    else
      var m := Least(s[..|s| - 1]);
      assert forall j :: 0 <= j < |s| - 1 ==> s[..|s| - 1][j] == s[j];
      if s[|s| - 1] < m then s[|s| - 1] else m
  }

  lemma RatioFacts(v: real, p: real)
    requires 0.0 < v <= p
    ensures 0.0 < v / p <= 1.0
    ensures v / p == 1.0 <==> v == p
  {
    if v / p == 1.0 {
      assert v == (v / p) * p;
    }
  }

  /** The running maximum is reached at i exactly when no earlier value exceeds values[i]. */
  lemma PeakAtNewHigh(values: seq<real>, i: nat)
    requires i < |values|
    ensures values[i] <= Peak(values[..i + 1])
    ensures Peak(values[..i + 1]) == values[i] <==> forall j :: 0 <= j <= i ==> values[j] <= values[i]
  {
    var prefix := values[..i + 1];
    assert forall j :: 0 <= j <= i ==> prefix[j] == values[j];
    assert prefix[i] == values[i];
  }

  /** Each drawdown lies in (-1, 0], and it is 0 exactly at a new running high. */
  lemma DrawdownRange(values: seq<real>, i: nat)
    requires Positive(values) && i < |values|
    ensures -1.0 < DrawdownCurve(values)[i] <= 0.0
    ensures DrawdownCurve(values)[i] == 0.0 <==> forall j :: 0 <= j <= i ==> values[j] <= values[i]
  {
    PeakAtNewHigh(values, i);
    RatioFacts(values[i], Peak(values[..i + 1]));
  }

  /** The maximum drawdown: the minimum of the drawdown curve. */
  function MaxDrawdown(values: seq<real>): real
    requires |values| > 0 && Positive(values)
  {
    Least(DrawdownCurve(values))
  }

  predicate NonDecreasing(values: seq<real>)
  {
    forall i, j :: 0 <= i <= j < |values| ==> values[i] <= values[j]
  }

  /**
   * The maximum drawdown lies in (-1, 0], and it is 0 exactly when the curve never falls
   * below an earlier value.
   */
  lemma MaxDrawdownMeaning(values: seq<real>)
    requires |values| > 0 && Positive(values)
    ensures DrawdownCurve(values)[0] == 0.0
    ensures -1.0 < MaxDrawdown(values) <= 0.0
    ensures MaxDrawdown(values) == 0.0 <==> NonDecreasing(values)
  {
    var dd := DrawdownCurve(values);
    var k :| 0 <= k < |dd| && dd[k] == MaxDrawdown(values);
    DrawdownRange(values, k);
    DrawdownRange(values, 0);
    if NonDecreasing(values) {
      forall i | 0 <= i < |values|
        ensures dd[i] == 0.0
      {
        DrawdownRange(values, i);
      }
    } else {
      var i, j :| 0 <= i <= j < |values| && values[i] > values[j];
      DrawdownRange(values, j);
    }
  }

  /** The period growth factors v[i+1] / v[i]. */
  function Growths(values: seq<real>): (g: seq<real>)
    requires Positive(values)
    ensures |g| == if |values| == 0 then 0 else |values| - 1
  {
    if |values| == 0 then []
    else seq(|values| - 1, i requires 0 <= i < |values| - 1 => values[i + 1] / values[i])
  }

  /** The period returns: the relative change between consecutive values. */
  function Returns(values: seq<real>): (r: seq<real>)
    requires Positive(values)
  {
    var g := Growths(values);
    seq(|g|, i requires 0 <= i < |g| => g[i] - 1.0)
  }

  function Product(s: seq<real>): real
  {
    if s == [] then 1.0 else Product(s[..|s| - 1]) * s[|s| - 1]
  }

  /** Compounding the period growth factors gives the ratio of the last value to the first. */
  lemma {:induction false} GrowthsCompound(values: seq<real>)
    requires |values| > 0 && Positive(values)
    ensures Product(Growths(values)) == values[|values| - 1] / values[0]
    decreases |values|
  {
    var g := Growths(values);
    if |values| == 1 {
      assert g == [];
    } else {
      var init := values[..|values| - 1];
      GrowthsCompound(init);
      assert g[..|g| - 1] == Growths(init);
      var a, b, f := values[|values| - 2], values[|values| - 1], values[0];
      assert Product(g) == (a / f) * (b / a);
      assert (a / f) * (b / a) == b / f;
    }
  }

  /** The response metrics: all zero when degenerate, otherwise the inputs of the summary. */
  datatype Summary =
    | Degenerate
    | Computed(totalGrowth: real, months: nat, periodReturns: seq<real>, maxDrawdownPercent: real)

  /**
   * The degenerate rule: with fewer than two period returns (fewer than three values) the
   * metrics are all zero; otherwise the maximum drawdown is reported in percent, with the
   * total growth and the number of points that the growth rate is computed from.
   */
  function CalculateMetrics(values: seq<real>): (m: Summary)
    requires |values| > 0 && Positive(values)
    ensures m.Degenerate? <==> |values| < 3
    ensures m.Computed? ==>
      && |m.periodReturns| == |values| - 1 >= 2
      && (forall i :: 0 <= i < |values| - 1 ==> m.periodReturns[i] == values[i + 1] / values[i] - 1.0)
      && m.months == |values|
      && -100.0 < m.maxDrawdownPercent <= 0.0
      && (m.maxDrawdownPercent == 0.0 <==> NonDecreasing(values))
      && Product(Growths(values)) == m.totalGrowth
  {
    var rs := Returns(values);
    if |rs| < 2 then Degenerate
    else
      MaxDrawdownMeaning(values);
      GrowthsCompound(values);
      Computed(values[|values| - 1] / values[0], |values|, rs, MaxDrawdown(values) * 100.0)
  }
}
