# Backtest engine model

This project models the backtest handler of the stock-screening backend (the
`/run-backtest` endpoint of `backendserver/main.py`) and proves properties of it in Dafny.
One request goes through these stages:

1. **Screening.** The universe is screened once, at the start date's year. For each company the handler takes its latest fundamentals record in or before that year, and keeps the company only if that record meets the return-on-capital, profit and market-capitalisation thresholds.
2. **Ranking.** The screened companies get an average (fractional) rank per criterion of the ranking specification `"metric:dir,..."`. Ranks are combined into a composite rank when composite ranking is on and there is more than one criterion.
3. **Selection.** The companies are sorted by composite rank and the top `portfolio_size` entries are kept.
4. **Schedule.** The rebalance dates run from the start date, stepped by the frequency while before the end date, followed by the end date.
5. **Simulation.** One running capital is carried through the periods between consecutive rebalance dates. In each period whose price download succeeds and has at least one gap-free ticker, the handler:
   - sizes the positions by the sizing policy over the surviving tickers;
   - buys shares at the first prices;
   - values them at the last prices;
   - records that value on the equity curve.
6. **Summary.** The equity curve is summarised: a drawdown curve against the running maximum, the maximum drawdown, and the degenerate rule that reports zero metrics when there are fewer than two period returns.

The modules follow these stages:

| Module | Contents |
|---|---|
| `Records` | fundamentals rows and their numeric columns |
| `Screening` | the query's meaning over the fundamentals table |
| `Text`, `Criteria` | splitting, stripping and parsing the ranking specification |
| `Ranking` | average ranks, the composite and the top-N selection |
| `PeriodLabel` | the history-length label of the price download |
| `Schedule` | the rebalance dates |
| `Weights` | position sizing |
| `Simulation` | price tables, period valuation, the `Portfolio` class and the period loop |
| `Metrics` | drawdowns and the degenerate rule |
| `Backtest` | the whole request |

`Wrappers` and `RealSums` hold the `Option`/`Result` types and sums of reals.

**Imperative parts.** Three parts work by changing state, and are written as methods with loops:
- the threshold scan of `convert_dates_to_period`;
- the schedule loop;
- the period loop, which updates a `Portfolio` object's `capital` and `history` fields.

Each is proved equal to a reference function: `LabelFor`, `Dates` and `Replay` respectively. The lemmas are proved about those functions.

**External inputs.**
- The database becomes a sequence of fundamentals records plus a map from company id to ticker.
- The price download becomes a function parameter `fetch(tickers, start, end)`. It returns either a failure or a price table.
- Its contract (`OutcomeFits`) is what the model assumes of the price source: one price slot per trading date, only requested tickers, and positive prices where present. The source checks none of this; see "Non-finite arithmetic" under "## Left out".

## Behaviour of the code worth noting

- **Screening runs once.** It happens once, with the start year as cutoff (`main.py:172`, `181`), not once per rebalance period.
- **An empty screen aborts the run.** It fails the whole request (`main.py:220-221`); it does not skip a period.
- **No valued period is an error.** When no period is valued, `pd.DataFrame([])` has no `value` column. `calculate_metrics` then raises before its degenerate rule, and the request fails with a server error. `RunBacktest` returns `Err(NoValuedPeriods)` in that case, not zero metrics.
- **The end date appears once.** The schedule appends the running date only while it is strictly before the end, then appends the end. So the end date is never duplicated.
- **Ranking needs a criterion.** With no criterion (no piece containing a colon), `rankings[0]` raises. That is `Err(BadRanking(NoCriteria))`.
- **Direction parsing.** A criterion is ascending only when its direction is exactly `asc`. A piece with two colons cannot be unpacked and is `Malformed`. A name that is not a numeric column is `UnknownMetric`.
- **Unknown names fall back silently.** An unknown frequency steps monthly. An unknown sizing policy sizes equally.

## Model

| member | source | states |
|---|---|---|
| PeriodLabel.FirstCovering | backendserver/main.py:141-144 | the index found is the first table entry whose day limit is at least the span: every earlier limit is smaller, and the table's end when no limit covers it |
| PeriodLabel.ConvertDatesToPeriod | backendserver/main.py:123-144 | the scan returns the label of the smallest limit in 1,5,30,90,180,365,730,1825,3650 that covers the span, and "max" exactly when the span exceeds 3650 days |
| PeriodLabel.LabelMonotone | backendserver/main.py:124-144 | a longer span never selects an earlier table entry |
| Schedule.FrequencyOf | backendserver/main.py:249-253 | "quarterly" and "yearly" are recognised; every other name, known or not, steps monthly |
| Schedule.AddMonths | backendserver/main.py:250-252 | a step of k months gives a valid date exactly k months later on the same day of the month, strictly later when k > 0 |
| Schedule.RebalanceDates | backendserver/main.py:255-260 | the loop's list is the reference schedule for the start, the end and the configured frequency |
| Schedule.DatesShape | backendserver/main.py:255-260 | the schedule is non-empty and ends with the end date; every earlier date is a valid date before the end; it starts at the start date when that is before the end, and is just [end] otherwise |
| Schedule.DatesIncreasing | backendserver/main.py:257-259 | consecutive dates strictly increase, and each date before the last two is followed by its one-step successor |
| Schedule.DatesStrictlySorted | backendserver/main.py:255-260 | every earlier date in the schedule is strictly before every later one |
| Screening.LatestYear | backendserver/main.py:176-184 | the grouped maximum is absent exactly when the company has no record at or before the cutoff; otherwise it is the year of such a record and no such record has a later year |
| Screening.LatestYearIsLatest | backendserver/main.py:198-202 | joining on the grouped maximum keeps a record if and only if it is its company's latest at or before the cutoff |
| Screening.ScreenPrefix | backendserver/main.py:185-212 | a row is in the result exactly when it is a kept record joined with its company's ticker |
| Screening.ScreenMeaning | backendserver/main.py:185-212 | a row is returned if and only if its record is its company's latest at the cutoff, the company has a ticker, and roce, pat and market cap meet the thresholds, with both market-cap bounds inclusive |
| Screening.OneRowPerCompany | backendserver/main.py:176-203 | when (company, year) is unique, two result rows of the same company are the same row |
| Screening.PrefixCompaniesDistinct | backendserver/main.py:176-212 | when (company, year) is unique, no two positions of the result over the first k records hold the same company |
| Screening.CompaniesDistinct | backendserver/main.py:176-212 | when (company, year) is unique, no two positions of the query result hold the same company, so no row is repeated |
| Screening.OlderPassingRecordIgnored | backendserver/main.py:176-211 | when a company's latest record fails a threshold, none of its rows is returned, even if an older record would pass |
| Text.Split | backendserver/main.py:225 | splitting gives one more piece than there are separators, and no piece contains the separator |
| Text.JoinSplit | backendserver/main.py:225 | joining the pieces with the separator gives back the original text |
| Text.SplitJoin | backendserver/main.py:231 | splitting a join of separator-free pieces gives back those pieces |
| Text.TrimLeft | backendserver/main.py:225 | the result is a suffix of the input that does not start with white space, and only white space was removed |
| Text.TrimRight | backendserver/main.py:225 | the result is a prefix of the input that does not end with white space, and only white space was removed |
| Text.StripMeaning | backendserver/main.py:225 | stripping returns a slice of the input, removes only white space, and leaves no white space at either end |
| Criteria.WithColonSound | backendserver/main.py:225 | every criterion text is the stripped form of a piece that contains a colon |
| Criteria.WithColonComplete | backendserver/main.py:225 | every piece that contains a colon yields its stripped form as a criterion text |
| Criteria.WithColonAppend | backendserver/main.py:225 | pieces are read one by one, so criterion texts keep the order of their pieces: the texts of a concatenation are the concatenation of the texts, which decides the first criterion used at main.py:240 |
| Criteria.ParseCriterion | backendserver/main.py:231-233 | a text without exactly one colon is malformed; a successful parse reads a column name, a colon and a direction, ascending exactly when the direction is "asc"; the only errors are malformed text and an unknown column |
| Criteria.ParseWellFormed | backendserver/main.py:231-232 | every column name followed by a colon and a colon-free direction parses to that column, ascending exactly when the direction is "asc" |
| Criteria.ParseAll | backendserver/main.py:230-234 | on success there is one criterion per text, in order; on failure the error is the first failing text's error and every earlier text parsed |
| Criteria.ParseRanking | backendserver/main.py:225-240 | the specification succeeds exactly when some piece has a colon and every criterion text parses; it fails with NoCriteria exactly when no piece has a colon, and otherwise with the error of the first criterion text that does not parse, every earlier one having parsed; on success every criterion text parsed to its criterion, in order |
| Criteria.ParseUnknownName | backendserver/main.py:231-233 | a name and a direction joined by one colon, where the name is not a numeric column, fail with UnknownMetric of that name |
| Records.MetricNamed | backendserver/main.py:186-194 | a name resolves to the column of that name, and is absent when no numeric column has that name |
| Ranking.ScoreRange | backendserver/main.py:233 | the rank score of a value lies in [0, n], and in [1/2, n - 1/2] for a value that is one of the n values, so that adding 1/2 gives a rank in [1, n] |
| Ranking.RankBounds | backendserver/main.py:233 | every average rank over n candidates lies in [1, n] |
| Ranking.ScoreMonotone | backendserver/main.py:233 | a strictly better value never scores more, and scores strictly less when it is one of the values |
| Ranking.RankOrder | backendserver/main.py:233 | a value strictly better than another has a strictly smaller rank and conversely, and equal values get equal ranks and conversely |
| Ranking.RankSum | backendserver/main.py:233 | the ranks of n candidates sum to n(n+1)/2, with or without ties |
| Ranking.RankColumnsInRange | backendserver/main.py:230-234 | every per-criterion rank column has its entries in [1, n] |
| Ranking.EntrySumRange | backendserver/main.py:238 | summing k rank columns entrywise gives values in [k, k·n] |
| Ranking.CompositeInRange | backendserver/main.py:237-240 | whether it is the mean of the rank columns or the first column alone, every composite rank lies in [1, n] |
| Ranking.CompositeRanks | backendserver/main.py:237-240 | there is one composite rank per screened row, each in [1, n] |
| Ranking.EntrySumIsRankTotal | backendserver/main.py:238 | the entrywise sum of the rank columns is, for each row, the sum of its ranks under each criterion |
| Ranking.CompositeRule | backendserver/main.py:237-240 | with composite ranking "yes" and at least two criteria, a row's composite is the mean of its ranks under all criteria; otherwise it is its rank under the first criterion, and the composite equals that of the first criterion alone |
| Ranking.InsertPermutes | backendserver/main.py:243 | inserting adds exactly the new entry to the multiset |
| Ranking.InsertSorted | backendserver/main.py:243 | inserting into a rank-ordered list keeps it rank-ordered |
| Ranking.SortByRankMeaning | backendserver/main.py:243 | sorting gives a permutation ordered by ascending composite rank |
| Ranking.Head | backendserver/main.py:243 | the head is a prefix of the input; for a non-negative size it has size entries, or all of them when there are fewer; for a negative size it drops the last -size entries, leaving none when there are not more than that |
| Ranking.SelectTopMeaning | backendserver/main.py:243-244 | the selection has the head's length and is ordered by rank; together with the unselected rest it is a permutation of the candidates, and no unselected candidate ranks below a selected one |
| Weights.AllocationOf | backendserver/main.py:291-302 | sizing is by value exactly for "market_cap", "roce" and "roe", using that column; every other policy sizes equally |
| Weights.EqualWeights | backendserver/main.py:291-292 | each of the n equal weights times n is 1, so each is 1/n |
| Weights.EqualWeightsSumToOne | backendserver/main.py:291-292 | the n equal weights each lie in (0, 1] and sum to 1 |
| Weights.Divide | backendserver/main.py:296 | each weight times the total gives back that ticker's value |
| Weights.DivideSum | backendserver/main.py:295-296 | the weights sum to the values' sum over the total |
| Weights.ProportionalSumsToOne | backendserver/main.py:293-300 | value weights sum to 1 whenever the total is non-zero |
| Weights.ProportionalInUnitInterval | backendserver/main.py:293-300 | with non-negative values and a positive total, every value weight lies in [0, 1] |
| Weights.ProportionalPositive | backendserver/main.py:293-300 | with positive values, the total and every weight are positive |
| Weights.ValueWeights | backendserver/main.py:293-300 | value weights of positive values lie in (0, 1], sum to 1, and each is its value's share of the values' total |
| Simulation.DropGaps | backendserver/main.py:282-283 | a column survives if and only if it has no missing price, and no more columns come out than go in |
| Simulation.DropGapsAppend | backendserver/main.py:282-283 | gaps are dropped column by column: the result for a concatenation is the concatenation of the results, so surviving columns keep their order |
| Simulation.RowFor | backendserver/main.py:294 | the row looked up for a ticker is a selected row with that ticker |
| Simulation.SizingValues | backendserver/main.py:293-298 | each surviving ticker's sizing value is its selected row's metric, and is positive when the selection's values are |
| Simulation.WeightsFor | backendserver/main.py:288-302 | the weights of the surviving tickers are positive, at most 1, and sum to 1; under equal sizing they are all equal (so 1/n each); under value sizing each weight times the survivors' total of the metric is the ticker's own value |
| Simulation.PositionOf | backendserver/main.py:305-307 | a position's start price is the column's first price and its end price is the column's price at the given row |
| Simulation.PositionsAtFirstAndLast | backendserver/main.py:305-307 | valued at the final row, each column's position is bought at its first price (iloc[0]) and valued at its last (iloc[-1]) |
| Simulation.PeriodPositionsAtFirstAndLast | backendserver/main.py:282-307 | a valued period takes one position per gap-free column, in column order, bought at the column's first price and valued at its last |
| Simulation.PeriodPositions | backendserver/main.py:288-313 | a valued period holds at least one position, prices are positive, and the weights are positive and sum to 1 |
| Simulation.EndValueIsGrowth | backendserver/main.py:311-313 | the end value Σ capital·w/start·end equals the capital times the weighted price relative Σ w·end/start |
| Simulation.FlatGrowth | backendserver/main.py:311-313 | when no price moves, the weighted price relative is the sum of the weights |
| Simulation.GrowthPositive | backendserver/main.py:311-313 | positive weights and prices give a positive price relative |
| Simulation.FlatPeriodKeepsCapital | backendserver/main.py:311-319 | a valued period in which no surviving price moves keeps the capital and appends exactly one entry |
| Simulation.StepPositive | backendserver/main.py:311-319 | a period keeps the capital and every recorded value positive |
| Simulation.ReplayHistory | backendserver/main.py:265-319 | the history only grows, by exactly one entry per valued period, so it has at most one entry per period |
| Simulation.ReplaySkipped | backendserver/main.py:272-285 | periods whose download fails or whose every ticker has a gap leave capital and history unchanged |
| Simulation.ReplayInvariant | backendserver/main.py:265-319 | the state stays positive; the last recorded value is the running capital when anything was recorded; with nothing recorded the capital is the initial capital |
| Simulation.ValuedCount | backendserver/main.py:268-285 | there are never more valued periods than periods |
| Simulation.Portfolio.constructor | backendserver/main.py:265-266 | the portfolio starts with the initial capital and an empty history |
| Simulation.Portfolio.ApplyPeriod | backendserver/main.py:272-319 | one period's update of capital and history is the reference step, and it keeps capital and recorded values positive |
| Simulation.ReplayPrefixStep | backendserver/main.py:265-319 | running one more period of the loop applies exactly one more step |
| Simulation.Simulate | backendserver/main.py:265-319 | the loop's final capital and history are the reference run over the periods' downloads; everything stays positive; the history has at most len(dates) - 1 entries |
| Metrics.Peak | backendserver/main.py:104 | the running maximum is at least every value and is one of them |
| Metrics.PeakAtNewHigh | backendserver/main.py:104 | the running maximum at a point equals the value there exactly when no earlier value is larger |
| Metrics.DrawdownRange | backendserver/main.py:104 | every drawdown lies in (-1, 0], and is 0 exactly at a new running high |
| Metrics.Least | backendserver/main.py:105 | the minimum is at most every entry and is one of them |
| Metrics.MaxDrawdownMeaning | backendserver/main.py:104-105 | the first drawdown is 0; the maximum drawdown lies in (-1, 0], and is 0 exactly when the curve never falls below an earlier value |
| Metrics.GrowthsCompound | backendserver/main.py:91 | compounding the period growth factors gives the last value over the first |
| Metrics.CalculateMetrics | backendserver/main.py:90-112 | the metrics are degenerate exactly when there are fewer than three values (fewer than two returns); otherwise there is one period return per consecutive pair, v[i+1]/v[i] - 1, and all points are counted; the maximum drawdown in percent lies in (-100, 0] and is 0 exactly for a non-decreasing curve; and the reported growth is the compounded period growth |
| Backtest.SelectedFromCandidates | backendserver/main.py:243-244 | every selected row is one of the ranked candidates |
| Backtest.SelectionRanked | backendserver/main.py:237-244 | on success the ranking specification parsed, and the selected rows are those of a rank-ordered list of ranked screened rows which, with the unselected rest, makes up all screened rows with their composite ranks, no unselected row ranking below a selected one |
| Backtest.Selection | backendserver/main.py:176-244 | the selection fails with NoMatchingCompanies exactly when the screen is empty; with a non-empty screen it fails exactly when the ranking specification does, with that error; on success its rows are screened rows, as many as the head of the portfolio size allows |
| Backtest.SelectionMeaning | backendserver/main.py:185-244 | every selected row carries its company's ticker and that company's latest record at the start year, and the record meets the thresholds |
| Backtest.DrawdownPoints | backendserver/main.py:324-329 | one drawdown per point with that point's date, in (-1, 0], and 0 exactly when no earlier point is worth more |
| Backtest.Report | backendserver/main.py:321-331 | the response carries the equity curve unchanged; one drawdown per point with its date, in (-1, 0], 0 at the first point and exactly at each new running high; metrics degenerate exactly when there are fewer than three points, otherwise with a zero maximum drawdown exactly when the curve never falls |
| Backtest.RunBacktest | backendserver/main.py:169-335 | selection errors are returned as they are; otherwise the run succeeds exactly when some period is valued and fails with NoValuedPeriods exactly when none is, and on success the response is built from the reference run's non-empty, positive equity curve |

## Left out

- **Rounding.** Rounding of reported values to 2 decimals, and of drawdowns to 4, is not modelled. The equity curve records the unrounded end value, which the running capital also keeps.
- **CAGR and Sharpe.** These need a fractional power, a square root and a standard deviation. `CalculateMetrics` returns only their inputs: the total growth, the number of points and the period returns.
- **The price download.** The Yahoo download, its retries with sleeps and jitter, and the CSV file it writes are external I/O. They are the `fetch` parameter; a download that still fails after its retries is `FetchFailed`.
- **Database access.** The database engine, the table reflection and the SQL execution are left out. Only the query's meaning is modelled. The order of the query's rows is taken to be the record order.
- **Date parsing.** Parsing date strings is left out; dates arrive parsed. `ConvertDatesToPeriod` takes the day difference as its input.
- **Month-end clamping.** `Schedule.AddMonths` keeps the day of the month; it does not model `relativedelta`'s clamping to the month's last day, nor the drift that repeated clamping causes.
- **Non-finite arithmetic.** Inf and NaN are not modelled. A zero weighting total or a zero start price gives inf or NaN in the source. Here positive prices come with the `fetch` contract.
- Backtest.RunBacktest: under value-based sizing it requires a positive sizing value for every selected row. The source reads the values only of the selected tickers that survive a period, and computes with zero or negative values too (giving negative, infinite or NaN weights). The positive values keep every weight in (0, 1] and the capital positive.
- Backtest.RunBacktest: requires a positive initial capital, although the source never checks it (`main.py:75`, `266`). Drawdowns divide by the running maximum of the equity curve, which must be positive for the drawdown rule to mean anything; a zero or negative capital is not modelled.
- Simulation.Simulate: requires a positive initial capital, as does `Simulation.Portfolio.constructor`, for the same reason.
- **Download window.** The download asks Yahoo for the most recent span of the label `convert_dates_to_period(start, end)` chooses (`main.py:152-153`), not for the period's own dates. So every period of the same length is valued on the same recent prices. The `fetch` parameter allows this behaviour but the model does not single it out, and no model member uses `PeriodLabel` for the download.
- **Missing fields.** Missing (NULL) fundamentals fields are not modelled.
- **Non-numeric ranking columns.** Ranking by the `ticker` text column, or by a `rank_*` column created by an earlier criterion, is treated as an unknown column.
- **Sort stability.** `Ranking.SortByRank` is a stable insertion sort, while the source's default sort is not stable. Only tie-order-independent properties of the selection are stated: its length, its order, and the split against the unselected rest.
- **Duplicate tickers.** Two companies sharing a ticker is not modelled. `Simulation.RowFor` takes the first selected row with the ticker.
- **Single-ticker downloads.** The model assumes that every price column is named by its ticker (`FrameFits`). Depending on the download library's version, a single-ticker download can come back as a series, which `to_frame()` turns into a column named "Close" rather than the ticker (`main.py:279-280`). Under value sizing, `.loc[tickers_this_period, ...]` (`main.py:294`, `298`) then raises, and the whole request fails; under equal sizing the column is valued under the name "Close". Neither outcome is modelled.
- **The web layer.** The HTTP routes, rate limiter, CORS, ping/echo and CSV export are left out. So are the scraping and loading scripts and the user interface.
