/**
 * The screening query's meaning over the fundamentals table: for each company take its
 * record with the greatest year not after the cutoff year, then keep that record only if
 * it meets the return-on-capital, profit and market-capitalisation thresholds.
 */
module Screening {
  import opened Wrappers
  import opened Records

  /** The configured screening thresholds; both market-capitalisation bounds are inclusive. */
  datatype Thresholds = Thresholds(roceMin: real, patMin: real, capMin: real, capMax: real)

  predicate Passes(r: Fundamental, th: Thresholds)
  {
    r.roce >= th.roceMin && r.pat >= th.patMin && th.capMin <= r.marketCap <= th.capMax
  }

  /** A record is eligible for the cutoff when its company and year qualify. */
  predicate Eligible(r: Fundamental, company: int, cutoff: int)
  {
    r.companyId == company && r.year <= cutoff
  }

  /**
   * The grouped maximum: the greatest year of a record of `company` not after `cutoff`,
   * or None when the company has no such record.
   */
  function LatestYear(records: seq<Fundamental>, company: int, cutoff: int): (y: Option<int>)
    ensures y.None? <==> forall i :: 0 <= i < |records| ==> !Eligible(records[i], company, cutoff)
    ensures y.Some? ==> y.value <= cutoff
    ensures y.Some? ==>
      exists i :: 0 <= i < |records| && Eligible(records[i], company, cutoff) &&
        records[i].year == y.value
    ensures y.Some? ==>
      forall i :: 0 <= i < |records| && Eligible(records[i], company, cutoff) ==>
        records[i].year <= y.value
  {
    if records == [] then None
    else
      var rest := LatestYear(records[1..], company, cutoff);
      assert forall i :: 1 <= i < |records| ==> records[i] == records[1..][i - 1];
      var r := records[0];
      if Eligible(r, company, cutoff) then
        match rest
        case None => Some(r.year)
        case Some(y) => if r.year > y then Some(r.year) else Some(y)
      else rest
  }

  /** The declarative reading: no eligible record of the same company is later. */
  predicate IsLatest(records: seq<Fundamental>, r: Fundamental, cutoff: int)
  {
    r.year <= cutoff &&
    forall i :: 0 <= i < |records| && Eligible(records[i], r.companyId, cutoff) ==>
      records[i].year <= r.year
  }

  /** Whether the query returns a row for record `r`: the join with companies, the latest-year join and the filter. */
  predicate Keeps(records: seq<Fundamental>, tickers: map<int, string>, cutoff: int, th: Thresholds,
                  r: Fundamental)
  {
    r.companyId in tickers &&
    LatestYear(records, r.companyId, cutoff) == Some(r.year) &&
    Passes(r, th)
  }

  /** The rows the query returns for the first `k` records, in record order. */
  function ScreenPrefix(records: seq<Fundamental>, tickers: map<int, string>, cutoff: int,
                        th: Thresholds, k: nat): (rows: seq<Row>)
    requires k <= |records|
    ensures forall row :: row in rows <==>
      exists i :: 0 <= i < k && Keeps(records, tickers, cutoff, th, records[i]) &&
        row == Row(tickers[records[i].companyId], records[i])
  {
    if k == 0 then []
    else
      var before := ScreenPrefix(records, tickers, cutoff, th, k - 1);
      var r := records[k - 1];
      if Keeps(records, tickers, cutoff, th, r) then before + [Row(tickers[r.companyId], r)]
      else before
  }

  /** The query result over the whole table. */
  function Screen(records: seq<Fundamental>, tickers: map<int, string>, cutoff: int,
                  th: Thresholds): seq<Row>
  {
    ScreenPrefix(records, tickers, cutoff, th, |records|)
  }

  /** At most one record per (company, year), the table's uniqueness constraint. */
  predicate UniqueCompanyYear(records: seq<Fundamental>)
  {
    forall i, j :: 0 <= i < j < |records| ==>
      records[i].companyId != records[j].companyId || records[i].year != records[j].year
  }

  /** The grouped maximum agrees with the declarative "latest" reading, in both directions. */
  lemma LatestYearIsLatest(records: seq<Fundamental>, i: nat, cutoff: int)
    requires i < |records|
    ensures LatestYear(records, records[i].companyId, cutoff) == Some(records[i].year) <==>
      IsLatest(records, records[i], cutoff)
  {
    var r := records[i];
    var y := LatestYear(records, r.companyId, cutoff);
    if IsLatest(records, r, cutoff) {
      assert Eligible(records[i], r.companyId, cutoff);
      var j :| 0 <= j < |records| && Eligible(records[j], r.companyId, cutoff) && records[j].year == y.value;
    }
  }

  /**
   * A row is returned exactly for a record that is its company's latest at the cutoff,
   * whose company has a ticker, and that meets every threshold; the row carries that
   * company's ticker.
   */
  lemma ScreenMeaning(records: seq<Fundamental>, tickers: map<int, string>, cutoff: int,
                      th: Thresholds, row: Row)
    ensures row in Screen(records, tickers, cutoff, th) <==>
      exists i :: 0 <= i < |records| && records[i] == row.rec &&
        row.rec.companyId in tickers && row.ticker == tickers[row.rec.companyId] &&
        IsLatest(records, row.rec, cutoff) && Passes(row.rec, th)
  {
    if row in Screen(records, tickers, cutoff, th) {
      var i :| 0 <= i < |records| && Keeps(records, tickers, cutoff, th, records[i]) &&
        row == Row(tickers[records[i].companyId], records[i]);
      LatestYearIsLatest(records, i, cutoff);
    }
    if exists i :: 0 <= i < |records| && records[i] == row.rec &&
        row.rec.companyId in tickers && row.ticker == tickers[row.rec.companyId] &&
        IsLatest(records, row.rec, cutoff) && Passes(row.rec, th) {
      var i :| 0 <= i < |records| && records[i] == row.rec &&
        row.rec.companyId in tickers && row.ticker == tickers[row.rec.companyId] &&
        IsLatest(records, row.rec, cutoff) && Passes(row.rec, th);
      LatestYearIsLatest(records, i, cutoff);
      assert Keeps(records, tickers, cutoff, th, records[i]);
    }
  }

  /** Under the uniqueness constraint the query returns at most one row per company. */
  lemma OneRowPerCompany(records: seq<Fundamental>, tickers: map<int, string>, cutoff: int,
                         th: Thresholds, p: Row, q: Row)
    requires UniqueCompanyYear(records)
    requires p in Screen(records, tickers, cutoff, th) && q in Screen(records, tickers, cutoff, th)
    requires p.rec.companyId == q.rec.companyId
    ensures p == q
  {
    var i :| 0 <= i < |records| && Keeps(records, tickers, cutoff, th, records[i]) &&
      p == Row(tickers[records[i].companyId], records[i]);
    var j :| 0 <= j < |records| && Keeps(records, tickers, cutoff, th, records[j]) &&
      q == Row(tickers[records[j].companyId], records[j]);
    assert records[i].year == records[j].year;
    assert i == j;
  }

  /** No two positions of `rows` hold the same company. */
  predicate Distinct(rows: seq<Row>)
  {
    forall i, j :: 0 <= i < j < |rows| ==> rows[i].rec.companyId != rows[j].rec.companyId
  }

  /**
   * Under the uniqueness constraint no two positions of the first `k` records' result
   * hold the same company, so no row is repeated either.
   */
  lemma {:induction false} PrefixCompaniesDistinct(records: seq<Fundamental>, tickers: map<int, string>,
                                                   cutoff: int, th: Thresholds, k: nat)
    requires UniqueCompanyYear(records) && k <= |records|
    ensures Distinct(ScreenPrefix(records, tickers, cutoff, th, k))
  {
    if k > 0 {
      PrefixCompaniesDistinct(records, tickers, cutoff, th, k - 1);
      var before := ScreenPrefix(records, tickers, cutoff, th, k - 1);
      var r := records[k - 1];
      if Keeps(records, tickers, cutoff, th, r) {
        var s := before + [Row(tickers[r.companyId], r)];
        assert s == ScreenPrefix(records, tickers, cutoff, th, k);
        forall i | 0 <= i < |before|
          ensures before[i].rec.companyId != r.companyId
        {
          assert before[i] in before;
          var m :| 0 <= m < k - 1 && Keeps(records, tickers, cutoff, th, records[m]) &&
            before[i] == Row(tickers[records[m].companyId], records[m]);
          var q := records[m];
          assert q.companyId != r.companyId || q.year != r.year;
          assert LatestYear(records, q.companyId, cutoff) == Some(q.year);
          assert before[i].rec == q;
        }
        forall i, j | 0 <= i < j < |s|
          ensures s[i].rec.companyId != s[j].rec.companyId
        {
          assert s[i] == before[i];
          if j < |before| {
            assert s[j] == before[j];
            assert before[i].rec.companyId != before[j].rec.companyId;
          } else {
            assert s[j].rec == r;
            assert before[i].rec.companyId != r.companyId;
          }
        }
      }
    }
  }

  /** Under the uniqueness constraint each company occupies at most one position of the result. */
  lemma CompaniesDistinct(records: seq<Fundamental>, tickers: map<int, string>, cutoff: int,
                          th: Thresholds)
    requires UniqueCompanyYear(records)
    ensures Distinct(Screen(records, tickers, cutoff, th))
  {
    PrefixCompaniesDistinct(records, tickers, cutoff, th, |records|);
    assert Screen(records, tickers, cutoff, th) == ScreenPrefix(records, tickers, cutoff, th, |records|);
  }

  /**
   * Screening looks only at the latest record: when a company's latest record at the
   * cutoff fails a threshold, no row of that company is returned, even if one of its older
   * records would pass.
   */
  lemma OlderPassingRecordIgnored(records: seq<Fundamental>, tickers: map<int, string>,
                                  cutoff: int, th: Thresholds, k: nat)
    requires UniqueCompanyYear(records)
    requires k < |records| && IsLatest(records, records[k], cutoff) && !Passes(records[k], th)
    ensures forall row :: row in Screen(records, tickers, cutoff, th) ==>
      row.rec.companyId != records[k].companyId
  {
    forall row | row in Screen(records, tickers, cutoff, th)
      ensures row.rec.companyId != records[k].companyId
    {
      ScreenMeaning(records, tickers, cutoff, th, row);
      var i :| 0 <= i < |records| && records[i] == row.rec && IsLatest(records, row.rec, cutoff) &&
        Passes(row.rec, th);
      assert row.rec.companyId == records[k].companyId ==>
        Eligible(records[k], row.rec.companyId, cutoff) && Eligible(records[i], records[k].companyId, cutoff);
    }
  }
}
