/**
 * The period-by-period simulation. A single running capital is carried from one
 * rebalance period to the next; each period whose prices arrive and have at least one
 * gap-free ticker reinvests the whole capital by the sizing policy at the first price row,
 * values it at the last row, and records one snapshot. Every other period is skipped.
 */
module Simulation {
  import opened Wrappers
  import opened RealSums
  import opened Records
  import opened Schedule
  import opened Weights

  /** One ticker's column of the price table; None marks a missing price. */
  datatype PriceColumn = PriceColumn(ticker: string, prices: seq<Option<real>>)

  /** The price table of one period: a row per trading date, a column per ticker. */
  datatype PriceFrame = PriceFrame(dates: seq<Date>, columns: seq<PriceColumn>)

  /** The outcome of the download: it fails after its retries, or yields a table. */
  datatype FetchOutcome = FetchFailed | Fetched(frame: PriceFrame)

  predicate Complete(c: PriceColumn)
  {
    forall k :: 0 <= k < |c.prices| ==> c.prices[k].Some?
  }

  /** Drops every column with a missing price, keeping the others in order. */
  function DropGaps(cols: seq<PriceColumn>): (kept: seq<PriceColumn>)
    ensures |kept| <= |cols|
    ensures forall c :: c in kept <==> c in cols && Complete(c)
  {
    if cols == [] then []
    else
      var rest := DropGaps(cols[1..]);
      assert forall c :: c in cols <==> c == cols[0] || c in cols[1..];
      if Complete(cols[0]) then [cols[0]] + rest else rest
  }

  /**
   * Dropping gaps works column by column, so the surviving columns keep their order: the
   * result for a concatenation is the concatenation of the results.
   */
  lemma {:induction false} DropGapsAppend(a: seq<PriceColumn>, b: seq<PriceColumn>)
    ensures DropGaps(a + b) == DropGaps(a) + DropGaps(b)
  {
    if a != [] {
      var ab := a + b;
      assert ab[0] == a[0] && ab[1..] == a[1..] + b;
      DropGapsAppend(a[1..], b);
      if Complete(a[0]) {
        assert DropGaps(ab) == [a[0]] + DropGaps(ab[1..]);
        assert DropGaps(a) == [a[0]] + DropGaps(a[1..]);
      } else {
        assert DropGaps(ab) == DropGaps(ab[1..]);
        assert DropGaps(a) == DropGaps(a[1..]);
      }
    } else {
      assert a + b == b;
    }
  }

  function Tickers(rows: seq<Row>): (ts: seq<string>)
    ensures |ts| == |rows|
  {
    seq(|rows|, i requires 0 <= i < |rows| => rows[i].ticker)
  }

  /**
   * What the price source guarantees: every column has a price slot per date, belongs to
   * a requested ticker, and every price present is positive.
   */
  predicate FrameFits(f: PriceFrame, requested: seq<string>)
  {
    forall c :: c in f.columns ==>
      && |c.prices| == |f.dates|
      && c.ticker in requested
      && forall k :: 0 <= k < |c.prices| && c.prices[k].Some? ==> c.prices[k].value > 0.0
  }

  predicate OutcomeFits(o: FetchOutcome, requested: seq<string>)
  {
    o.Fetched? ==> FrameFits(o.frame, requested)
  }

  /** A period is valued when the download succeeded and the gap-free table is not empty. */
  predicate Valued(o: FetchOutcome)
  {
    o.Fetched? && |o.frame.dates| > 0 && DropGaps(o.frame.columns) != []
  }

  /** The selected row of ticker `t` (the first one, the only one when tickers are unique). */
  function RowFor(selection: seq<Row>, t: string): (r: Row)
    requires t in Tickers(selection)
    ensures r in selection && r.ticker == t
  {
    if selection[0].ticker == t then selection[0]
    else
      assert Tickers(selection)[1..] == Tickers(selection[1..]);
      RowFor(selection[1..], t)
  }

  /** Value-based sizing needs positive values of its metric for every selected row. */
  predicate PositiveValues(selection: seq<Row>, alloc: Allocation)
  {
    alloc.ByValue? ==> forall row :: row in selection ==> ValueOf(row, alloc.metric) > 0.0
  }

  /** The sizing metric of each gap-free ticker's selected row. */
  function SizingValues(kept: seq<PriceColumn>, selection: seq<Row>, m: Metric): (values: seq<real>)
    requires forall i :: 0 <= i < |kept| ==> kept[i].ticker in Tickers(selection)
    ensures |values| == |kept|
    ensures forall i :: 0 <= i < |kept| ==> values[i] == ValueOf(RowFor(selection, kept[i].ticker), m)
    ensures PositiveValues(selection, ByValue(m)) ==> forall i :: 0 <= i < |kept| ==> values[i] > 0.0
  {
    seq(|kept|, i requires 0 <= i < |kept| => ValueOf(RowFor(selection, kept[i].ticker), m))
  }

  /**
   * The weights of the gap-free tickers of a period: 1/n each for equal sizing, otherwise
   * each selected row's metric over the sum across these tickers. They are positive and
   * sum to 1 over the surviving tickers.
   */
  function WeightsFor(alloc: Allocation, kept: seq<PriceColumn>, selection: seq<Row>): (w: seq<real>)
    requires |kept| > 0
    requires forall i :: 0 <= i < |kept| ==> kept[i].ticker in Tickers(selection)
    requires PositiveValues(selection, alloc)
    ensures |w| == |kept|
    ensures Sum(w) == 1.0
    ensures forall i :: 0 <= i < |w| ==> 0.0 < w[i] <= 1.0
    ensures alloc.EqualWeight? ==> forall i, j :: 0 <= i < |w| && 0 <= j < |w| ==> w[i] == w[j]
    ensures alloc.ByValue? ==>
      var values := SizingValues(kept, selection, alloc.metric);
      ShareOfTotal(w, values, Sum(values))
  {
    match alloc
    case EqualWeight =>
      EqualWeightsSumToOne(|kept|);
      var w := EqualWeights(|kept|);
      assert forall i :: 0 <= i < |w| ==> w[i] == 1.0 / (|kept| as real);
      w
    case ByValue(m) =>
      ValueWeights(SizingValues(kept, selection, m))
  }

  /** A holding for one period: its weight and its first and last price. */
  datatype Position = Position(weight: real, startPrice: real, endPrice: real)

  predicate PricedPositively(ps: seq<Position>)
  {
    forall k :: 0 <= k < |ps| ==> ps[k].startPrice > 0.0 && ps[k].endPrice > 0.0
  }

  function Positions(kept: seq<PriceColumn>, w: seq<real>, last: nat): (ps: seq<Position>)
    requires |w| == |kept|
    requires forall i :: 0 <= i < |kept| ==> Complete(kept[i]) && last < |kept[i].prices|
    ensures |ps| == |kept|
  {
    seq(|kept|, i requires 0 <= i < |kept| => PositionOf(kept[i], w[i], last))
  }

  /** The position in one gap-free column: bought at its first price, valued at row `last`. */
  function PositionOf(c: PriceColumn, weight: real, last: nat): (p: Position)
    requires Complete(c) && last < |c.prices|
    ensures Some(p.startPrice) == c.prices[0] && Some(p.endPrice) == c.prices[last]
  {
    assert c.prices[0].Some? && c.prices[last].Some?;
    Position(weight, c.prices[0].value, c.prices[last].value)
  }

  /** Shares bought at the first price with the position's part of the capital. */
  function Shares(capital: real, p: Position): real
    requires p.startPrice > 0.0
  {
    capital * p.weight / p.startPrice
  }

  /** The value of all shares at the last prices. */
  function EndValue(capital: real, ps: seq<Position>): real
    requires PricedPositively(ps)
  {
    if ps == [] then 0.0 else Shares(capital, ps[0]) * ps[0].endPrice + EndValue(capital, ps[1..])
  }

  /** The weighted price relative: the factor by which a period multiplies the capital. */
  function Growth(ps: seq<Position>): real
    requires PricedPositively(ps)
  {
    if ps == [] then 0.0 else ps[0].weight * (ps[0].endPrice / ps[0].startPrice) + Growth(ps[1..])
  }

  function WeightsOf(ps: seq<Position>): (w: seq<real>)
    ensures |w| == |ps|
  {
    seq(|ps|, i requires 0 <= i < |ps| => ps[i].weight)
  }

  /** The end value is the capital times the weighted price relative. */
  lemma {:induction false} EndValueIsGrowth(capital: real, ps: seq<Position>)
    requires PricedPositively(ps)
    ensures EndValue(capital, ps) == capital * Growth(ps)
  {
    if ps != [] {
      EndValueIsGrowth(capital, ps[1..]);
      var p := ps[0];
      assert capital * p.weight / p.startPrice * p.endPrice == capital * (p.weight * (p.endPrice / p.startPrice));
    }
  }

  /** When no price moves, the weighted price relative is the sum of the weights. */
  lemma {:induction false} FlatGrowth(ps: seq<Position>)
    requires PricedPositively(ps)
    requires forall k :: 0 <= k < |ps| ==> ps[k].endPrice == ps[k].startPrice
    ensures Growth(ps) == Sum(WeightsOf(ps))
  {
    if ps != [] {
      FlatGrowth(ps[1..]);
      assert WeightsOf(ps)[1..] == WeightsOf(ps[1..]);
    }
  }

  /** Positive weights and prices give a positive weighted price relative. */
  lemma {:induction false} GrowthPositive(ps: seq<Position>)
    requires |ps| > 0 && PricedPositively(ps)
    requires forall k :: 0 <= k < |ps| ==> ps[k].weight > 0.0
    ensures Growth(ps) > 0.0
  {
    if |ps| > 1 {
      GrowthPositive(ps[1..]);
    }
    var p := ps[0];
    assert p.endPrice / p.startPrice > 0.0;
    assert p.weight * (p.endPrice / p.startPrice) > 0.0;
  }

  /** One point of the equity curve. */
  datatype Snapshot = Snapshot(date: Date, value: real)

  /** The running capital and the equity curve recorded so far. */
  datatype SimState = SimState(capital: real, history: seq<Snapshot>)

  /** Each position is bought at its column's first price and valued at its last. */
  predicate AtFirstAndLast(ps: seq<Position>, cols: seq<PriceColumn>)
  {
    |ps| == |cols| &&
    forall k :: 0 <= k < |ps| ==>
      && |cols[k].prices| > 0
      && Some(ps[k].startPrice) == cols[k].prices[0]
      && Some(ps[k].endPrice) == cols[k].prices[|cols[k].prices| - 1]
  }

  /** The positions a valued period takes. */
  function PeriodPositions(o: FetchOutcome, selection: seq<Row>, alloc: Allocation): (ps: seq<Position>)
    requires OutcomeFits(o, Tickers(selection)) && PositiveValues(selection, alloc) && Valued(o)
    ensures |ps| > 0 && PricedPositively(ps)
    ensures Sum(WeightsOf(ps)) == 1.0
    ensures forall k :: 0 <= k < |ps| ==> ps[k].weight > 0.0
  {
    var f := o.frame;
    var kept := DropGaps(f.columns);
    assert forall i :: 0 <= i < |kept| ==> kept[i] in f.columns && Complete(kept[i]);
    var w := WeightsFor(alloc, kept, selection);
    var ps := Positions(kept, w, |f.dates| - 1);
    assert WeightsOf(ps) == w;
    ps
  }

  /** Valuing every column at its final row buys each position at its first price and values it at its last. */
  lemma PositionsAtFirstAndLast(kept: seq<PriceColumn>, w: seq<real>, last: nat)
    requires |w| == |kept|
    requires forall i :: 0 <= i < |kept| ==> Complete(kept[i]) && |kept[i].prices| == last + 1
    ensures AtFirstAndLast(Positions(kept, w, last), kept)
  {
    var ps := Positions(kept, w, last);
    forall k | 0 <= k < |ps|
      ensures Some(ps[k].startPrice) == kept[k].prices[0]
      ensures Some(ps[k].endPrice) == kept[k].prices[|kept[k].prices| - 1]
    {
      assert ps[k] == PositionOf(kept[k], w[k], last);
    }
  }

  /**
   * A valued period takes one position per gap-free column, in column order, bought at the
   * column's first price and valued at its last.
   */
  lemma PeriodPositionsAtFirstAndLast(o: FetchOutcome, selection: seq<Row>, alloc: Allocation)
    requires OutcomeFits(o, Tickers(selection)) && PositiveValues(selection, alloc) && Valued(o)
    ensures AtFirstAndLast(PeriodPositions(o, selection, alloc), DropGaps(o.frame.columns))
  {
    var f := o.frame;
    var kept := DropGaps(f.columns);
    forall i | 0 <= i < |kept|
      ensures Complete(kept[i]) && |kept[i].prices| == |f.dates|
    {
      assert kept[i] in kept;
    }
    var w := WeightsFor(alloc, kept, selection);
    PositionsAtFirstAndLast(kept, w, |f.dates| - 1);
    assert Positions(kept, w, |f.dates| - 1) == PeriodPositions(o, selection, alloc);
  }

  /** The reference step: a skipped period changes nothing; a valued one revalues and records. */
  function Step(s: SimState, o: FetchOutcome, selection: seq<Row>, alloc: Allocation): SimState
    requires OutcomeFits(o, Tickers(selection)) && PositiveValues(selection, alloc)
  {
    if !Valued(o) then s
    else
      var v := EndValue(s.capital, PeriodPositions(o, selection, alloc));
      SimState(v, s.history + [Snapshot(o.frame.dates[|o.frame.dates| - 1], v)])
  }

  predicate AllFit(os: seq<FetchOutcome>, requested: seq<string>)
  {
    forall k :: 0 <= k < |os| ==> OutcomeFits(os[k], requested)
  }

  /** The reference run: the periods' steps applied in order. */
  function Replay(s: SimState, os: seq<FetchOutcome>, selection: seq<Row>, alloc: Allocation): SimState
    requires AllFit(os, Tickers(selection)) && PositiveValues(selection, alloc)
    decreases |os|
  {
    if os == [] then s
    else Step(Replay(s, os[..|os| - 1], selection, alloc), os[|os| - 1], selection, alloc)
  }

  /** The outcome of each period's download, for consecutive pairs of rebalance dates. */
  function Outcomes(dates: seq<Date>, requested: seq<string>,
                    fetch: (seq<string>, Date, Date) -> FetchOutcome): (os: seq<FetchOutcome>)
    requires |dates| >= 1
    ensures |os| == |dates| - 1
  {
    seq(|dates| - 1, i requires 0 <= i < |dates| - 1 => fetch(requested, dates[i], dates[i + 1]))
  }

  function ValuedCount(os: seq<FetchOutcome>): (n: nat)
    ensures n <= |os|
  {
    if os == [] then 0 else ValuedCount(os[..|os| - 1]) + (if Valued(os[|os| - 1]) then 1 else 0)
  }

  /** The price table of a period in which no gap-free column moves between its first and last row. */
  predicate Flat(o: FetchOutcome)
    requires o.Fetched? && |o.frame.dates| > 0
  {
    forall c :: c in o.frame.columns && Complete(c) && |c.prices| == |o.frame.dates| ==>
      c.prices[0] == c.prices[|o.frame.dates| - 1]
  }

  lemma FlatPositions(o: FetchOutcome, selection: seq<Row>, alloc: Allocation)
    requires OutcomeFits(o, Tickers(selection)) && PositiveValues(selection, alloc)
    requires Valued(o) && Flat(o)
    ensures var ps := PeriodPositions(o, selection, alloc);
      forall k :: 0 <= k < |ps| ==> ps[k].endPrice == ps[k].startPrice
  {
    var f := o.frame;
    var last := |f.dates| - 1;
    var kept := DropGaps(f.columns);
    assert forall i :: 0 <= i < |kept| ==> kept[i] in f.columns && Complete(kept[i]);
    var w := WeightsFor(alloc, kept, selection);
    var ps := Positions(kept, w, last);
    assert ps == PeriodPositions(o, selection, alloc);
    forall k | 0 <= k < |ps|
      ensures ps[k].endPrice == ps[k].startPrice
    {
      assert ps[k] == PositionOf(kept[k], w[k], last);
    }
  }

  /** A valued period that moves no price leaves the capital unchanged. */
  lemma FlatPeriodKeepsCapital(s: SimState, o: FetchOutcome, selection: seq<Row>, alloc: Allocation)
    requires OutcomeFits(o, Tickers(selection)) && PositiveValues(selection, alloc)
    requires Valued(o) && Flat(o)
    ensures Step(s, o, selection, alloc).capital == s.capital
    ensures |Step(s, o, selection, alloc).history| == |s.history| + 1
  {
    var ps := PeriodPositions(o, selection, alloc);
    FlatPositions(o, selection, alloc);
    FlatGrowth(ps);
    EndValueIsGrowth(s.capital, ps);
  }

  /**
   * The history only grows, by exactly one snapshot per valued period, so it never has
   * more entries than there are periods.
   */
  lemma {:induction false} ReplayHistory(s: SimState, os: seq<FetchOutcome>, selection: seq<Row>,
                                         alloc: Allocation)
    requires AllFit(os, Tickers(selection)) && PositiveValues(selection, alloc)
    ensures var r := Replay(s, os, selection, alloc);
      && |r.history| == |s.history| + ValuedCount(os)
      && r.history[..|s.history|] == s.history
    decreases |os|
  {
    if os != [] {
      ReplayHistory(s, os[..|os| - 1], selection, alloc);
    }
  }

  /** A run of periods that are all skipped leaves the state as it was. */
  lemma {:induction false} ReplaySkipped(s: SimState, os: seq<FetchOutcome>, selection: seq<Row>,
                                         alloc: Allocation)
    requires AllFit(os, Tickers(selection)) && PositiveValues(selection, alloc)
    requires forall k :: 0 <= k < |os| ==> !Valued(os[k])
    ensures Replay(s, os, selection, alloc) == s
    decreases |os|
  {
    if os != [] {
      ReplaySkipped(s, os[..|os| - 1], selection, alloc);
    }
  }

  /** Running one more period of `os` is one more step. */
  lemma ReplayPrefixStep(s: SimState, os: seq<FetchOutcome>, i: nat, selection: seq<Row>, alloc: Allocation)
    requires i < |os| && AllFit(os, Tickers(selection)) && PositiveValues(selection, alloc)
    ensures Replay(s, os[..i + 1], selection, alloc) ==
      Step(Replay(s, os[..i], selection, alloc), os[i], selection, alloc)
  {
    assert os[..i + 1][..i] == os[..i];
    assert os[..i + 1][i] == os[i];
  }

  /** Capital and every recorded value stay positive. */
  predicate PositiveState(s: SimState)
  {
    s.capital > 0.0 && forall k :: 0 <= k < |s.history| ==> s.history[k].value > 0.0
  }

  lemma StepPositive(s: SimState, o: FetchOutcome, selection: seq<Row>, alloc: Allocation)
    requires OutcomeFits(o, Tickers(selection)) && PositiveValues(selection, alloc)
    requires PositiveState(s)
    ensures PositiveState(Step(s, o, selection, alloc))
  {
    if Valued(o) {
      var ps := PeriodPositions(o, selection, alloc);
      EndValuePositive(s.capital, ps);
      var v := EndValue(s.capital, ps);
      var h := s.history + [Snapshot(o.frame.dates[|o.frame.dates| - 1], v)];
      assert forall k :: 0 <= k < |h| ==> h[k].value > 0.0;
    }
  }

  lemma EndValuePositive(capital: real, ps: seq<Position>)
    requires capital > 0.0 && |ps| > 0 && PricedPositively(ps)
    requires forall k :: 0 <= k < |ps| ==> ps[k].weight > 0.0
    ensures EndValue(capital, ps) > 0.0
  {
    EndValueIsGrowth(capital, ps);
    GrowthPositive(ps);
  }

  /**
   * After a run, the last recorded value is the running capital, unless no period was
   * valued, in which case the state is unchanged; and the state stays positive.
   */
  lemma {:induction false} ReplayInvariant(s: SimState, os: seq<FetchOutcome>, selection: seq<Row>,
                                           alloc: Allocation)
    requires AllFit(os, Tickers(selection)) && PositiveValues(selection, alloc)
    requires PositiveState(s)
    ensures var r := Replay(s, os, selection, alloc);
      && PositiveState(r)
      && (|r.history| > |s.history| ==> r.history[|r.history| - 1].value == r.capital)
      && (|r.history| == |s.history| ==> r.capital == s.capital)
    decreases |os|
  {
    if os != [] {
      var prefix := os[..|os| - 1];
      ReplayInvariant(s, prefix, selection, alloc);
      ReplayHistory(s, prefix, selection, alloc);
      StepPositive(Replay(s, prefix, selection, alloc), os[|os| - 1], selection, alloc);
    }
  }

  /** The portfolio being simulated: the running capital and the recorded equity curve. */
  class Portfolio {
    var capital: real
    var history: seq<Snapshot>

    ghost predicate Valid()
      reads this
    {
      PositiveState(SimState(capital, history))
    }

    constructor (initialCapital: real)
      requires initialCapital > 0.0
      ensures Valid()
      ensures capital == initialCapital && history == []
    {
      capital := initialCapital;
      history := [];
    }

    /**
     * One rebalance period: skip when the download failed or no ticker has a gap-free
     * series; otherwise buy shares at the first prices with the whole capital, value them
     * at the last prices, carry that value forward and record it with the last date.
     */
    method ApplyPeriod(o: FetchOutcome, selection: seq<Row>, alloc: Allocation)
      requires Valid()
      requires OutcomeFits(o, Tickers(selection)) && PositiveValues(selection, alloc)
      modifies this
      ensures Valid()
      ensures SimState(capital, history) == Step(SimState(old(capital), old(history)), o, selection, alloc)
    {
      StepPositive(SimState(capital, history), o, selection, alloc);
      if o.FetchFailed? {
        return;
      }
      var frame := o.frame;
      var kept := DropGaps(frame.columns);
      if |frame.dates| == 0 || kept == [] {
        return;
      }
      var last := |frame.dates| - 1;
      assert forall i :: 0 <= i < |kept| ==> kept[i] in frame.columns && Complete(kept[i]);
      var weights := WeightsFor(alloc, kept, selection);
      var positions := Positions(kept, weights, last);
      assert positions == PeriodPositions(o, selection, alloc);
      var endValue := EndValue(capital, positions);
      capital := endValue;
      history := history + [Snapshot(frame.dates[last], endValue)];
    }
  }

  /**
   * The backtest loop over consecutive rebalance dates. The result is the reference run
   * of the periods' download outcomes, so the equity curve has one entry per valued
   * period (never more than the number of periods) and every value stays positive.
   */
  method Simulate(initialCapital: real, dates: seq<Date>, selection: seq<Row>, alloc: Allocation,
                  fetch: (seq<string>, Date, Date) -> FetchOutcome)
    returns (capital: real, history: seq<Snapshot>)
    requires |dates| >= 1 && initialCapital > 0.0
    requires PositiveValues(selection, alloc)
    requires forall a, b :: OutcomeFits(fetch(Tickers(selection), a, b), Tickers(selection))
    ensures SimState(capital, history) ==
      Replay(SimState(initialCapital, []), Outcomes(dates, Tickers(selection), fetch), selection, alloc)
    ensures PositiveState(SimState(capital, history))
    ensures |history| <= |dates| - 1
  {
    var requested := Tickers(selection);
    var os := Outcomes(dates, requested, fetch);
    var portfolio := new Portfolio(initialCapital);
    for i := 0 to |dates| - 1
      invariant portfolio.Valid()
      invariant SimState(portfolio.capital, portfolio.history) ==
        Replay(SimState(initialCapital, []), os[..i], selection, alloc)
    {
      var outcome := fetch(requested, dates[i], dates[i + 1]);
      assert outcome == os[i];
      ReplayPrefixStep(SimState(initialCapital, []), os, i, selection, alloc);
      portfolio.ApplyPeriod(outcome, selection, alloc);
    }
    assert os[..|dates| - 1] == os;
    capital, history := portfolio.capital, portfolio.history;
    ReplayHistory(SimState(initialCapital, []), os, selection, alloc);
  }
}
