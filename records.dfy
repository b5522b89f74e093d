/**
 * The rows the backtest works on: one fundamentals record per (company, year), and the
 * row the screening query returns, which joins a record with its company's ticker.
 */
module Records {
  import opened Wrappers

  /** One row of the fundamentals table. */
  datatype Fundamental = Fundamental(
    companyId: int,
    year: int,
    roce: real,
    roe: real,
    pat: real,
    pe: real,
    marketCap: real)

  /** One row of the screening result: the company's ticker and its chosen record. */
  datatype Row = Row(ticker: string, rec: Fundamental)

  /** The numeric columns of the screening result, which ranking and weighting read. */
  datatype Metric = CompanyId | Year | Roce | Roe | Pat | Pe | MarketCap

  /** The column name under which the query result exposes each metric. */
  function ColumnName(m: Metric): string
  {
    match m
    case CompanyId => "company_id"
    case Year => "year"
    case Roce => "roce"
    case Roe => "roe"
    case Pat => "pat"
    case Pe => "pe"
    case MarketCap => "market_cap"
  }

  /** Resolves a column name; a name that is not a numeric column is absent. */
  function MetricNamed(name: string): (m: Option<Metric>)
    ensures m.Some? ==> ColumnName(m.value) == name
    ensures m.None? ==> forall k: Metric :: ColumnName(k) != name
  {
    if name == "company_id" then Some(CompanyId)
    else if name == "year" then Some(Year)
    else if name == "roce" then Some(Roce)
    else if name == "roe" then Some(Roe)
    else if name == "pat" then Some(Pat)
    else if name == "pe" then Some(Pe)
    else if name == "market_cap" then Some(MarketCap)
    else None
  }

  function ValueOf(row: Row, m: Metric): real
  {
    match m
    case CompanyId => row.rec.companyId as real
    case Year => row.rec.year as real
    case Roce => row.rec.roce
    case Roe => row.rec.roe
    case Pat => row.rec.pat
    case Pe => row.rec.pe
    case MarketCap => row.rec.marketCap
  }

  /** The column of metric `m` over a sequence of rows, in row order. */
  function Column(rows: seq<Row>, m: Metric): (c: seq<real>)
    ensures |c| == |rows|
    ensures forall i :: 0 <= i < |rows| ==> c[i] == ValueOf(rows[i], m)
  {
    seq(|rows|, i requires 0 <= i < |rows| => ValueOf(rows[i], m))
  }
}
