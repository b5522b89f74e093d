/**
 * Rebalance scheduling: starting at the run's start date, step by the frequency's
 * increment while the running date is strictly before the end date, then append the
 * end date.
 */
module Schedule {

  /** A calendar date; the order is the lexicographic order of (year, month, day). */
  datatype Date = Date(year: int, month: int, day: int)

  predicate ValidDate(d: Date)
  {
    1 <= d.month <= 12 && 1 <= d.day <= 31
  }

  predicate Before(a: Date, b: Date)
  {
    a.year < b.year ||
    (a.year == b.year && (a.month < b.month || (a.month == b.month && a.day < b.day)))
  }

  /** Months since year 0, the quantity a month step advances. */
  function MonthIndex(d: Date): int
  {
    d.year * 12 + (d.month - 1)
  }

  datatype Frequency = Monthly | Quarterly | Yearly

  /** The frequency a configuration names; any name but the three known ones is monthly. */
  function FrequencyOf(name: string): (f: Frequency)
    ensures f == Quarterly <==> name == "quarterly"
    ensures f == Yearly <==> name == "yearly"
    ensures f == Monthly <==> name != "quarterly" && name != "yearly"
  {
    if name == "monthly" then Monthly
    else if name == "quarterly" then Quarterly
    else if name == "yearly" then Yearly
    else Monthly
  }

  function StepMonths(f: Frequency): nat
  {
    match f
    case Monthly => 1
    case Quarterly => 3
    case Yearly => 12
  }

  /** Adds `k` calendar months, keeping the day of the month. */
  function AddMonths(d: Date, k: nat): (r: Date)
    requires ValidDate(d)
    ensures ValidDate(r)
    ensures MonthIndex(r) == MonthIndex(d) + k && r.day == d.day
    ensures k > 0 ==> Before(d, r)
  {
    var t := MonthIndex(d) + k;
    Date(t / 12, t % 12 + 1, d.day)
  }

  /** One step of the given frequency. */
  function Advance(d: Date, f: Frequency): Date
    requires ValidDate(d)
  {
    AddMonths(d, StepMonths(f))
  }

  /** Months left before `end`, the measure that each step decreases. */
  function Remaining(cur: Date, end: Date): nat
    requires ValidDate(cur) && ValidDate(end)
  {
    if Before(cur, end) then MonthIndex(end) - MonthIndex(cur) + 1 else 0
  }

  lemma RemainingDecreases(cur: Date, end: Date, f: Frequency)
    requires ValidDate(cur) && ValidDate(end) && Before(cur, end)
    ensures Remaining(Advance(cur, f), end) < Remaining(cur, end)
  {
  }

  /** The schedule, as a reference definition: the dates from `cur` on. */
  function Dates(cur: Date, end: Date, f: Frequency): seq<Date>
    requires ValidDate(cur) && ValidDate(end)
    decreases Remaining(cur, end)
  {
    if Before(cur, end) then
      RemainingDecreases(cur, end, f);
      [cur] + Dates(Advance(cur, f), end, f)
    else [end]
  }

  /**
   * Builds the schedule with the source's loop: append the running date while it is
   * before `end`, step it by the frequency, and finally append `end`.
   */
  method RebalanceDates(start: Date, end: Date, frequency: string) returns (dates: seq<Date>)
    requires ValidDate(start) && ValidDate(end)
    ensures dates == Dates(start, end, FrequencyOf(frequency))
  {
    var f := FrequencyOf(frequency);
    dates := [];
    var current := start;
    while Before(current, end)
      invariant ValidDate(current)
      invariant dates + Dates(current, end, f) == Dates(start, end, f)
      decreases Remaining(current, end)
    {
      RemainingDecreases(current, end, f);
      dates := dates + [current];
      current := Advance(current, f);
    }
    dates := dates + [end];
  }

  /**
   * The schedule ends with `end`, every earlier date is before `end`, and it starts at
   * `cur` when `cur` is before `end` (otherwise it is just [end]).
   */
  lemma {:induction false} DatesShape(cur: Date, end: Date, f: Frequency)
    requires ValidDate(cur) && ValidDate(end)
    ensures var ds := Dates(cur, end, f);
      && |ds| >= 1
      && ds[|ds| - 1] == end
      && (forall i :: 0 <= i < |ds| - 1 ==> Before(ds[i], end) && ValidDate(ds[i]))
      && (Before(cur, end) ==> ds[0] == cur)
      && (!Before(cur, end) ==> ds == [end])
    decreases Remaining(cur, end)
  {
    if Before(cur, end) {
      RemainingDecreases(cur, end, f);
      DatesShape(Advance(cur, f), end, f);
      var rest := Dates(Advance(cur, f), end, f);
      assert Dates(cur, end, f) == [cur] + rest;
      forall i | 1 <= i < |rest|
        ensures Before(([cur] + rest)[i], end) && ValidDate(([cur] + rest)[i])
      {
        assert ([cur] + rest)[i] == rest[i - 1];
      }
    }
  }

  /**
   * Consecutive dates are strictly increasing, and each date before the last two is
   * followed by its one-step successor.
   */
  predicate StepwiseIncreasing(ds: seq<Date>)
  {
    forall i :: 0 <= i < |ds| - 1 ==> Before(ds[i], ds[i + 1])
  }

  lemma {:induction false} DatesIncreasing(cur: Date, end: Date, f: Frequency)
    requires ValidDate(cur) && ValidDate(end)
    ensures var ds := Dates(cur, end, f);
      && StepwiseIncreasing(ds)
      && (forall i :: 0 <= i < |ds| - 2 ==> ValidDate(ds[i]) && ds[i + 1] == Advance(ds[i], f))
    decreases Remaining(cur, end)
  {
    DatesShape(cur, end, f);
    if Before(cur, end) {
      RemainingDecreases(cur, end, f);
      var next := Advance(cur, f);
      DatesIncreasing(next, end, f);
      DatesShape(next, end, f);
      var rest := Dates(next, end, f);
      var ds := [cur] + rest;
      assert Dates(cur, end, f) == ds;
      forall i | 0 <= i < |ds| - 1
        ensures Before(ds[i], ds[i + 1])
      {
        assert StepwiseIncreasing(rest);
        if i == 0 {
          if Before(next, end) {
            assert ds[1] == next;
          } else {
            assert rest == [end];
          }
        } else {
          assert ds[i] == rest[i - 1] && ds[i + 1] == rest[i];
        }
      }
      forall i | 0 <= i < |ds| - 2
        ensures ValidDate(ds[i]) && ds[i + 1] == Advance(ds[i], f)
      {
        if i == 0 {
          assert ds[1] == rest[0];
          assert |rest| >= 2;
        } else {
          assert ds[i] == rest[i - 1] && ds[i + 1] == rest[i];
        }
      }
    }
  }

  lemma BeforeTransitive(a: Date, b: Date, c: Date)
    requires Before(a, b) && Before(b, c)
    ensures Before(a, c)
  {
  }

  /** The whole schedule is strictly increasing, so no date (in particular `end`) repeats. */
  lemma {:induction false} DatesStrictlySorted(cur: Date, end: Date, f: Frequency)
    requires ValidDate(cur) && ValidDate(end)
    ensures var ds := Dates(cur, end, f);
      forall i, j :: 0 <= i < j < |ds| ==> Before(ds[i], ds[j])
  {
    var ds := Dates(cur, end, f);
    DatesIncreasing(cur, end, f);
    assert StepwiseIncreasing(ds);
    forall i, j | 0 <= i < j < |ds|
      ensures Before(ds[i], ds[j])
    {
      var k := i + 1;
      assert Before(ds[i], ds[i + 1]);
      while k < j
        invariant i < k <= j
        invariant Before(ds[i], ds[k])
      {
        BeforeTransitive(ds[i], ds[k], ds[k + 1]);
        k := k + 1;
      }
    }
  }
}
