/**
 * Position sizing: equal weights, or weights proportional to market capitalisation,
 * return on capital employed or return on equity. Any other policy name sizes equally.
 */
module Weights {
  import opened RealSums
  import opened Records

  datatype Allocation = EqualWeight | ByValue(metric: Metric)

  function AllocationOf(policy: string): (a: Allocation)
    ensures a.ByValue? <==> policy in {"market_cap", "roce", "roe"}
    ensures a.ByValue? ==> ColumnName(a.metric) == policy
  {
    if policy == "equal" then EqualWeight
    else if policy == "market_cap" then ByValue(MarketCap)
    else if policy == "roce" then ByValue(Roce)
    else if policy == "roe" then ByValue(Roe)
    else EqualWeight
  }

  /** 1/n for each of the n tickers. */
  function EqualWeights(n: nat): (w: seq<real>)
    requires n > 0
    ensures |w| == n
    ensures forall i :: 0 <= i < n ==> w[i] * (n as real) == 1.0
  {
    seq(n, i requires 0 <= i < n => 1.0 / (n as real))
  }

  /** Each value divided by `total`. */
  function Divide(values: seq<real>, total: real): (w: seq<real>)
    requires total != 0.0
    ensures |w| == |values|
    ensures forall i :: 0 <= i < |values| ==> w[i] * total == values[i]
  {
    if values == [] then [] else [values[0] / total] + Divide(values[1..], total)
  }

  /** value / (sum of values) for each ticker. */
  function Proportional(values: seq<real>): (w: seq<real>)
    requires Sum(values) != 0.0
    ensures |w| == |values|
  {
    Divide(values, Sum(values))
  }

  /** Each weight is its value's share of `total`: the weight times the total is the value. */
  predicate ShareOfTotal(w: seq<real>, values: seq<real>, total: real)
  {
    |w| == |values| && forall i :: 0 <= i < |w| ==> w[i] * total == values[i]
  }

  /** Value-based weights of positive values: each weight is its value's share of the total. */
  function ValueWeights(values: seq<real>): (w: seq<real>)
    requires |values| > 0
    requires forall i :: 0 <= i < |values| ==> values[i] > 0.0
    ensures |w| == |values| && Sum(values) > 0.0
    ensures Sum(w) == 1.0
    ensures forall i :: 0 <= i < |w| ==> 0.0 < w[i] <= 1.0
    ensures ShareOfTotal(w, values, Sum(values))
  {
    ProportionalPositive(values);
    ProportionalSumsToOne(values);
    ProportionalInUnitInterval(values);
    DivideShares(values, Sum(values));
    Proportional(values)
  }

  lemma DivideShares(values: seq<real>, total: real)
    requires total != 0.0
    ensures ShareOfTotal(Divide(values, total), values, total)
  {
  }

  lemma {:induction false} ConstantSum(n: nat, c: real)
    ensures Sum(seq(n, i requires 0 <= i < n => c)) == (n as real) * c
  {
    if n > 0 {
      ConstantSum(n - 1, c);
      assert seq(n, i requires 0 <= i < n => c)[1..] == seq(n - 1, i requires 0 <= i < n - 1 => c);
    }
  }

  /** Equal weights sum to 1. */
  lemma EqualWeightsSumToOne(n: nat)
    requires n > 0
    ensures Sum(EqualWeights(n)) == 1.0
    ensures forall i :: 0 <= i < n ==> 0.0 < EqualWeights(n)[i] <= 1.0
  {
    ConstantSum(n, 1.0 / (n as real));
  }

  lemma {:induction false} DivideSum(values: seq<real>, total: real)
    requires total != 0.0
    ensures Sum(Divide(values, total)) == Sum(values) / total
  {
    if values != [] {
      DivideSum(values[1..], total);
      assert values[0] / total + Sum(values[1..]) / total == (values[0] + Sum(values[1..])) / total;
    }
  }

  /** Proportional weights sum to 1 whenever their total is non-zero. */
  lemma ProportionalSumsToOne(values: seq<real>)
    requires Sum(values) != 0.0
    ensures Sum(Proportional(values)) == 1.0
  {
    DivideSum(values, Sum(values));
    var t := Sum(values);
    assert t / t == 1.0;
  }

  /** With non-negative values and a positive total, every proportional weight is in [0, 1]. */
  lemma ProportionalInUnitInterval(values: seq<real>)
    requires forall i :: 0 <= i < |values| ==> values[i] >= 0.0
    requires Sum(values) > 0.0
    ensures forall i :: 0 <= i < |values| ==> 0.0 <= Proportional(values)[i] <= 1.0
  {
    var w := Proportional(values);
    forall i | 0 <= i < |values|
      ensures 0.0 <= w[i] <= 1.0
    {
      TermAtMostSum(values, i);
      var t := Sum(values);
      assert w[i] * t == values[i];
      RatioBounds(w[i], values[i], t);
    }
  }

  lemma RatioBounds(w: real, v: real, t: real)
    requires t > 0.0 && 0.0 <= v <= t && w * t == v
    ensures 0.0 <= w <= 1.0
  {
  }

  /** With positive values every proportional weight is positive. */
  lemma ProportionalPositive(values: seq<real>)
    requires |values| > 0
    requires forall i :: 0 <= i < |values| ==> values[i] > 0.0
    ensures Sum(values) > 0.0
    ensures forall i :: 0 <= i < |values| ==> Proportional(values)[i] > 0.0
  {
    SumPositive(values);
    var w := Proportional(values);
    forall i | 0 <= i < |values|
      ensures w[i] > 0.0
    {
      var t := Sum(values);
      assert w[i] * t == values[i];
    }
  }
}
