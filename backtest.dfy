/**
 * One backtest request, end to end: screen the universe with the start year, rank the
 * screened companies, keep the top of the ranking, lay out the rebalance dates, simulate
 * the capital across the periods and summarise the equity curve. The run fails when no
 * company passes the screen, when the ranking specification cannot be used, and when no
 * period could be valued.
 */
module Backtest {
  import opened Wrappers
  import opened Records
  import opened Schedule
  import opened Screening
  import opened Criteria
  import opened Ranking
  import opened Weights
  import opened Simulation
  import opened Metrics

  /** The request body; the dates are already parsed. */
  datatype Config = Config(
    initialCapital: real,
    startDate: Date,
    endDate: Date,
    rebalanceFrequency: string,
    positionSizing: string,
    portfolioSize: int,
    marketCapMin: real,
    marketCapMax: real,
    roce: real,
    pat: real,
    ranking: string,
    compranking: string)

  /** Why a run fails; each is reported as a server error. */
  datatype RunError =
    | NoMatchingCompanies       // the screen returned no row
    | BadRanking(e: RankError)  // the ranking specification cannot be applied
    | NoValuedPeriods           // no period produced a value, so the equity curve has no column

  datatype DrawdownPoint = DrawdownPoint(date: Date, drawdown: real)

  /** The response: the equity curve, the drawdown curve and the metrics. */
  datatype RunOutput = RunOutput(equityCurve: seq<Snapshot>, drawdownCurve: seq<DrawdownPoint>,
                                 metrics: Summary)

  /** The screening thresholds of a request. */
  function ThresholdsOf(cfg: Config): Thresholds
  {
    Thresholds(cfg.roce, cfg.pat, cfg.marketCapMin, cfg.marketCapMax)
  }

  /** The screened rows: the query evaluated with the start date's year as the cutoff. */
  function Screened(cfg: Config, records: seq<Fundamental>, companies: map<int, string>): seq<Row>
  {
    Screen(records, companies, cfg.startDate.year, ThresholdsOf(cfg))
  }

  function RowsOf(entries: seq<Ranked>): (rows: seq<Row>)
    ensures |rows| == |entries|
  {
    seq(|entries|, i requires 0 <= i < |entries| => entries[i].row)
  }

  /** Every entry the selection keeps comes from the ranked candidates. */
  lemma SelectedFromCandidates(rows: seq<Row>, ranks: seq<real>, size: int)
    requires |rows| == |ranks|
    ensures forall row :: row in RowsOf(SelectTop(Attach(rows, ranks), size)) ==> row in rows
  {
    var entries := Attach(rows, ranks);
    var top := SelectTop(entries, size);
    SelectTopMeaning(entries, size);
    var rest: seq<Ranked> :| multiset(top) + multiset(rest) == multiset(entries);
    forall row | row in RowsOf(top)
      ensures row in rows
    {
      var i :| 0 <= i < |top| && RowsOf(top)[i] == row;
      assert top[i] in multiset(top);
      assert top[i] in multiset(entries);
      var j :| 0 <= j < |entries| && entries[j] == top[i];
    }
  }

  /**
   * The selection: the screened rows, ranked by the parsed criteria (combined when
   * composite ranking is on), sorted by composite rank, cut to the portfolio size. It fails
   * when the screen is empty, and otherwise exactly when the ranking specification does.
   * Its rows are screened rows, and it has as many as the head of the portfolio size allows.
   */
  function Selection(cfg: Config, records: seq<Fundamental>, companies: map<int, string>)
    : (s: Result<seq<Row>, RunError>)
    ensures s == Err(NoMatchingCompanies) <==> Screened(cfg, records, companies) == []
    ensures Screened(cfg, records, companies) != [] ==>
      && (s.Err? <==> ParseRanking(cfg.ranking).Err?)
      && (s.Err? ==> s.error == BadRanking(ParseRanking(cfg.ranking).error))
    ensures s.Ok? ==>
      && (forall row :: row in s.value ==> row in Screened(cfg, records, companies))
      && |s.value| == HeadLength(|Screened(cfg, records, companies)|, cfg.portfolioSize)
  {
    var screened := Screened(cfg, records, companies);
    if screened == [] then Err(NoMatchingCompanies)
    else
      match ParseRanking(cfg.ranking)
      case Err(e) => Err(BadRanking(e))
      case Ok(criteria) =>
        var ranks := CompositeRanks(screened, criteria, cfg.compranking);
        SelectedFromCandidates(screened, ranks, cfg.portfolioSize);
        SelectTopMeaning(Attach(screened, ranks), cfg.portfolioSize);
        Ok(RowsOf(SelectTop(Attach(screened, ranks), cfg.portfolioSize)))
  }

  /**
   * The selection is ranked: its rows are those of a rank-ordered list of ranked screened
   * rows, which together with the unselected rest makes up all screened rows with their
   * composite ranks, and no unselected row has a smaller composite rank than a selected one.
   */
  lemma SelectionRanked(cfg: Config, records: seq<Fundamental>, companies: map<int, string>)
    requires Selection(cfg, records, companies).Ok?
    ensures ParseRanking(cfg.ranking).Ok?
    ensures var screened := Screened(cfg, records, companies);
      var ranks := CompositeRanks(screened, ParseRanking(cfg.ranking).value, cfg.compranking);
      exists top: seq<Ranked>, rest: seq<Ranked> ::
        && Selection(cfg, records, companies).value == RowsOf(top)
        && multiset(top) + multiset(rest) == multiset(Attach(screened, ranks))
        && SortedByRank(top)
        && forall i, j :: 0 <= i < |top| && 0 <= j < |rest| ==> top[i].rank <= rest[j].rank
  {
    var screened := Screened(cfg, records, companies);
    var ranks := CompositeRanks(screened, ParseRanking(cfg.ranking).value, cfg.compranking);
    var entries := Attach(screened, ranks);
    var top := SelectTop(entries, cfg.portfolioSize);
    SelectTopMeaning(entries, cfg.portfolioSize);
    var rest: seq<Ranked> :| && multiset(top) + multiset(rest) == multiset(entries)
                             && forall i, j :: 0 <= i < |top| && 0 <= j < |rest| ==> top[i].rank <= rest[j].rank;
    assert Selection(cfg, records, companies).value == RowsOf(top);
  }

  /**
   * Every selected row is a screened company's latest record at the start year that meets
   * the thresholds, with that company's ticker.
   */
  lemma SelectionMeaning(cfg: Config, records: seq<Fundamental>, companies: map<int, string>,
                         row: Row)
    requires Selection(cfg, records, companies).Ok?
    requires row in Selection(cfg, records, companies).value
    ensures row.rec in records
    ensures row.rec.companyId in companies && row.ticker == companies[row.rec.companyId]
    ensures IsLatest(records, row.rec, cfg.startDate.year) && Passes(row.rec, ThresholdsOf(cfg))
  {
    ScreenMeaning(records, companies, cfg.startDate.year, ThresholdsOf(cfg), row);
  }

  /** The download outcomes of the rebalance periods for a selection. */
  function PeriodOutcomes(cfg: Config, selection: seq<Row>,
                          fetch: (seq<string>, Date, Date) -> FetchOutcome): seq<FetchOutcome>
    requires ValidDate(cfg.startDate) && ValidDate(cfg.endDate)
  {
    DatesShape(cfg.startDate, cfg.endDate, FrequencyOf(cfg.rebalanceFrequency));
    Outcomes(Dates(cfg.startDate, cfg.endDate, FrequencyOf(cfg.rebalanceFrequency)),
             Tickers(selection), fetch)
  }

  function ValuesOf(history: seq<Snapshot>): (values: seq<real>)
    ensures |values| == |history|
  {
    seq(|history|, i requires 0 <= i < |history| => history[i].value)
  }

  /**
   * The drawdown of each point of the equity curve, with the point's date: in (-1, 0], and
   * zero exactly when no earlier point is worth more.
   */
  function DrawdownPoints(history: seq<Snapshot>): (points: seq<DrawdownPoint>)
    requires Positive(ValuesOf(history))
    ensures |points| == |history|
    ensures forall i :: 0 <= i < |history| ==>
      && points[i].date == history[i].date
      && -1.0 < points[i].drawdown <= 0.0
      && (points[i].drawdown == 0.0 <==> forall j :: 0 <= j <= i ==> history[j].value <= history[i].value)
  {
    var values := ValuesOf(history);
    var dd := DrawdownCurve(values);
    var points := seq(|history|, i requires 0 <= i < |history| => DrawdownPoint(history[i].date, dd[i]));
    assert forall i :: 0 <= i < |history| ==>
      -1.0 < points[i].drawdown <= 0.0 &&
      (points[i].drawdown == 0.0 <==> forall j :: 0 <= j <= i ==> history[j].value <= history[i].value) by {
      forall i | 0 <= i < |history|
        ensures -1.0 < points[i].drawdown <= 0.0
        ensures points[i].drawdown == 0.0 <==> forall j :: 0 <= j <= i ==> history[j].value <= history[i].value
      {
        DrawdownRange(values, i);
        assert points[i].drawdown == dd[i];
        assert forall j :: 0 <= j <= i ==> values[j] == history[j].value;
      }
    }
    points
  }

  /**
   * The response for a non-empty, positive equity curve: the curve itself; a drawdown per
   * point, in (-1, 0], zero at the first point and exactly at every new running high; and
   * the metrics, degenerate exactly when there are fewer than three points, otherwise with
   * a zero maximum drawdown exactly when the curve never falls.
   */
  function Report(history: seq<Snapshot>): (out: RunOutput)
    requires |history| > 0 && Positive(ValuesOf(history))
    ensures out.equityCurve == history && |out.drawdownCurve| == |history|
    ensures forall i :: 0 <= i < |history| ==>
      && out.drawdownCurve[i].date == history[i].date
      && -1.0 < out.drawdownCurve[i].drawdown <= 0.0
      && (out.drawdownCurve[i].drawdown == 0.0 <==>
            forall j :: 0 <= j <= i ==> history[j].value <= history[i].value)
    ensures out.drawdownCurve[0].drawdown == 0.0
    ensures out.metrics.Degenerate? <==> |history| < 3
    ensures out.metrics.Computed? ==>
      (out.metrics.maxDrawdownPercent == 0.0 <==> NonDecreasing(ValuesOf(history)))
  {
    var points := DrawdownPoints(history);
    assert forall j :: 0 <= j <= 0 ==> history[j].value <= history[0].value;
    RunOutput(history, points, CalculateMetrics(ValuesOf(history)))
  }

  /**
   * The request handler. It fails with the selection's error when the screen is empty or
   * the ranking specification is unusable; otherwise it simulates the selected rows over
   * the rebalance periods, fails when no period was valued, and reports the reference
   * run's equity curve, its drawdowns and its metrics.
   */
  method RunBacktest(cfg: Config, records: seq<Fundamental>, companies: map<int, string>,
                     fetch: (seq<string>, Date, Date) -> FetchOutcome)
    returns (r: Result<RunOutput, RunError>)
    requires ValidDate(cfg.startDate) && ValidDate(cfg.endDate)
    requires cfg.initialCapital > 0.0
    requires Selection(cfg, records, companies).Ok? ==>
      PositiveValues(Selection(cfg, records, companies).value, AllocationOf(cfg.positionSizing))
    requires forall requested, a, b :: OutcomeFits(fetch(requested, a, b), requested)
    ensures Selection(cfg, records, companies).Err? ==> r == Err(Selection(cfg, records, companies).error)
    ensures Selection(cfg, records, companies).Ok? ==>
      var selection := Selection(cfg, records, companies).value;
      var os := PeriodOutcomes(cfg, selection, fetch);
      var run := Replay(SimState(cfg.initialCapital, []), os, selection, AllocationOf(cfg.positionSizing));
      && (r.Ok? <==> ValuedCount(os) > 0)
      && (r == Err(NoValuedPeriods) <==> ValuedCount(os) == 0)
      && (r.Ok? ==> |run.history| > 0 && Positive(ValuesOf(run.history)) &&
                    r.value == Report(run.history))
  {
    var chosen := Selection(cfg, records, companies);
    if chosen.Err? {
      return Err(chosen.error);
    }
    var selection := chosen.value;
    var alloc := AllocationOf(cfg.positionSizing);
    var dates := RebalanceDates(cfg.startDate, cfg.endDate, cfg.rebalanceFrequency);
    DatesShape(cfg.startDate, cfg.endDate, FrequencyOf(cfg.rebalanceFrequency));
    ghost var os := PeriodOutcomes(cfg, selection, fetch);
    assert os == Outcomes(dates, Tickers(selection), fetch);
    var capital, history := Simulate(cfg.initialCapital, dates, selection, alloc, fetch);
    ReplayHistory(SimState(cfg.initialCapital, []), os, selection, alloc);
    if history == [] {
      return Err(NoValuedPeriods);
    }
    assert Positive(ValuesOf(history));
    r := Ok(Report(history));
  }
}
