/**
 * The history-length label the price download asks for: the label of the first entry of
 * a fixed threshold table whose day limit covers the requested span, or "max" beyond it.
 */
module PeriodLabel {

  /** The (label, day limit) table, in increasing order of the limit. */
  const Limits: seq<(string, int)> := [
    ("1d", 1), ("5d", 5), ("1mo", 30), ("3mo", 90), ("6mo", 180),
    ("1y", 365), ("2y", 730), ("5y", 1825), ("10y", 3650)
  ]

  const Fallback: string := "max"

  /** Index of the first table entry whose limit is at least `days`; |Limits| when none is. */
  function FirstCovering(days: int, from: nat): (k: nat)
    requires from <= |Limits|
    ensures from <= k <= |Limits|
    ensures forall j :: from <= j < k ==> Limits[j].1 < days
    ensures k < |Limits| ==> days <= Limits[k].1
    decreases |Limits| - from
  {
    if from == |Limits| then from
    else if days <= Limits[from].1 then from
    else FirstCovering(days, from + 1)
  }

  /** The label chosen for a span of `days` days. */
  function LabelFor(days: int): string
  {
    var k := FirstCovering(days, 0);
    if k < |Limits| then Limits[k].0 else Fallback
  }

  /**
   * The scan over the table, returning at the first limit that covers the span.
   * The result is the label of the smallest limit that is at least `deltaDays`, and
   * "max" exactly when the span exceeds every limit.
   */
  method ConvertDatesToPeriod(deltaDays: int) returns (period: string)
    ensures period == LabelFor(deltaDays)
    ensures period == Fallback <==> deltaDays > Limits[|Limits| - 1].1
    ensures period != Fallback ==>
      exists k :: 0 <= k < |Limits| && Limits[k].0 == period && deltaDays <= Limits[k].1 &&
        forall j :: 0 <= j < k ==> Limits[j].1 < deltaDays
  {
    for i := 0 to |Limits|
      invariant forall j :: 0 <= j < i ==> Limits[j].1 < deltaDays
    {
      if deltaDays <= Limits[i].1 {
        assert FirstCovering(deltaDays, 0) == i by { FirstCoveringIs(deltaDays, i); }
        return Limits[i].0;
      }
    }
    assert FirstCovering(deltaDays, 0) == |Limits| by { FirstCoveringIs(deltaDays, |Limits|); }
    return Fallback;
  }

  /** FirstCovering is pinned down by its two defining properties. */
  lemma FirstCoveringIs(days: int, k: nat)
    requires k <= |Limits|
    requires forall j :: 0 <= j < k ==> Limits[j].1 < days
    requires k < |Limits| ==> days <= Limits[k].1
    ensures FirstCovering(days, 0) == k
  {
  }

  /** A longer span never gets a label earlier in the table: the choice is monotone. */
  lemma LabelMonotone(d1: int, d2: int)
    requires d1 <= d2
    ensures FirstCovering(d1, 0) <= FirstCovering(d2, 0)
  {
  }
}
