/**
 * Ranking of the screened companies: an average ("fractional") rank per criterion, rank 1
 * being the best value in the criterion's direction and tied values sharing the mean of
 * the positions they occupy; a composite rank; and the top entries by composite rank.
 */
module Ranking {
  import opened RealSums
  import opened Records
  import opened Criteria

  /** `a` is strictly better than `b` in the given direction. */
  predicate Better(a: real, b: real, ascending: bool)
  {
    if ascending then a < b else a > b
  }

  /** What value `y` adds to the rank of value `x`: 1 if better, 1/2 if tied, else 0. */
  function Contribution(y: real, x: real, ascending: bool): real
  {
    if Better(y, x, ascending) then 1.0 else if y == x then 0.5 else 0.0
  }

  function Score(vals: seq<real>, x: real, ascending: bool): real
  {
    if vals == [] then 0.0 else Contribution(vals[0], x, ascending) + Score(vals[1..], x, ascending)
  }

  /**
   * The average rank of value `x` among `vals`: the number of strictly better values plus
   * the mean position among the values equal to it.
   */
  function AverageRank(vals: seq<real>, x: real, ascending: bool): real
  {
    Score(vals, x, ascending) + 0.5
  }

  function RanksAgainst(xs: seq<real>, vals: seq<real>, ascending: bool): (r: seq<real>)
    ensures |r| == |xs|
  {
    seq(|xs|, i requires 0 <= i < |xs| => AverageRank(vals, xs[i], ascending))
  }

  /** The rank of every entry of a column, in column order. */
  function Ranks(vals: seq<real>, ascending: bool): (r: seq<real>)
    ensures |r| == |vals|
  {
    RanksAgainst(vals, vals, ascending)
  }

  lemma {:induction false} ScoreRange(vals: seq<real>, x: real, ascending: bool)
    ensures 0.0 <= Score(vals, x, ascending) <= |vals| as real
    ensures x in vals ==> 0.5 <= Score(vals, x, ascending) <= |vals| as real - 0.5
  {
    if vals != [] {
      ScoreRange(vals[1..], x, ascending);
      if x in vals && x != vals[0] {
        assert x in vals[1..];
      }
    }
  }

  /** Every rank lies between 1 and the number of entries. */
  lemma RankBounds(vals: seq<real>, i: nat, ascending: bool)
    requires i < |vals|
    ensures 1.0 <= Ranks(vals, ascending)[i] <= |vals| as real
  {
    ScoreRange(vals, vals[i], ascending);
  }

  lemma {:induction false} ScoreMonotone(vals: seq<real>, a: real, b: real, ascending: bool)
    requires Better(a, b, ascending)
    ensures Score(vals, a, ascending) <= Score(vals, b, ascending)
    ensures a in vals ==> Score(vals, a, ascending) < Score(vals, b, ascending)
  {
    if vals != [] {
      ScoreMonotone(vals[1..], a, b, ascending);
      if a in vals && a != vals[0] {
        assert a in vals[1..];
      }
    }
  }

  /**
   * Ranks follow the values: a strictly better value gets a strictly smaller rank, equal
   * values get equal ranks, and the converse of both holds.
   */
  lemma RankOrder(vals: seq<real>, i: nat, j: nat, ascending: bool)
    requires i < |vals| && j < |vals|
    ensures var r := Ranks(vals, ascending);
      && (Better(vals[i], vals[j], ascending) <==> r[i] < r[j])
      && (vals[i] == vals[j] <==> r[i] == r[j])
  {
    if Better(vals[i], vals[j], ascending) {
      ScoreMonotone(vals, vals[i], vals[j], ascending);
    } else if Better(vals[j], vals[i], ascending) {
      ScoreMonotone(vals, vals[j], vals[i], ascending);
    }
  }

  /** The contributions of `x` to ranking `vals`'s entries. */
  function Dual(vals: seq<real>, x: real, ascending: bool): real
  {
    if vals == [] then 0.0 else Contribution(x, vals[0], ascending) + Dual(vals[1..], x, ascending)
  }

  lemma {:induction false} ScoreDual(vals: seq<real>, x: real, ascending: bool)
    ensures Score(vals, x, ascending) + Dual(vals, x, ascending) == |vals| as real
  {
    if vals != [] {
      ScoreDual(vals[1..], x, ascending);
    }
  }

  /** The sum of the scores of the entries of `xs` among `vals`. */
  function Total(xs: seq<real>, vals: seq<real>, ascending: bool): real
  {
    if xs == [] then 0.0 else Score(vals, xs[0], ascending) + Total(xs[1..], vals, ascending)
  }

  lemma {:induction false} TotalEmpty(xs: seq<real>, ascending: bool)
    ensures Total(xs, [], ascending) == 0.0
  {
    if xs != [] {
      TotalEmpty(xs[1..], ascending);
    }
  }

  lemma {:induction false} TotalConsRight(xs: seq<real>, v: real, vals: seq<real>, ascending: bool)
    ensures Total(xs, [v] + vals, ascending) == Dual(xs, v, ascending) + Total(xs, vals, ascending)
  {
    if xs != [] {
      TotalConsRight(xs[1..], v, vals, ascending);
      assert ([v] + vals)[1..] == vals;
    }
  }

  lemma {:induction false} TotalSymmetric(xs: seq<real>, vals: seq<real>, ascending: bool)
    ensures Total(xs, vals, ascending) + Total(vals, xs, ascending) == (|xs| * |vals|) as real
  {
    if xs == [] {
      TotalEmpty(vals, ascending);
    } else {
      TotalSymmetric(xs[1..], vals, ascending);
      assert xs == [xs[0]] + xs[1..];
      TotalConsRight(vals, xs[0], xs[1..], ascending);
      ScoreDual(vals, xs[0], ascending);
      assert (|xs| * |vals|) as real == |vals| as real + (|xs[1..]| * |vals|) as real;
    }
  }

  lemma {:induction false} SumRanksAgainst(xs: seq<real>, vals: seq<real>, ascending: bool)
    ensures Sum(RanksAgainst(xs, vals, ascending)) == Total(xs, vals, ascending) + (|xs| as real) / 2.0
  {
    if xs != [] {
      SumRanksAgainst(xs[1..], vals, ascending);
      assert RanksAgainst(xs, vals, ascending)[1..] == RanksAgainst(xs[1..], vals, ascending);
    }
  }

  /** The ranks of n entries always sum to n(n+1)/2, ties or not. */
  lemma RankSum(vals: seq<real>, ascending: bool)
    ensures Sum(Ranks(vals, ascending)) == ((|vals| * (|vals| + 1)) as real) / 2.0
  {
    SumRanksAgainst(vals, vals, ascending);
    TotalSymmetric(vals, vals, ascending);
  }

  /** All columns have `n` entries. */
  predicate Rectangular(cols: seq<seq<real>>, n: nat)
  {
    forall k :: 0 <= k < |cols| ==> |cols[k]| == n
  }

  /** Every entry of every column lies in [1, n]. */
  predicate WithinRankRange(cols: seq<seq<real>>, n: nat)
    requires Rectangular(cols, n)
  {
    forall k, i :: 0 <= k < |cols| && 0 <= i < n ==> 1.0 <= cols[k][i] <= n as real
  }

  /** One rank column per criterion, ranking the criterion's metric in its direction. */
  function RankColumns(rows: seq<Row>, criteria: seq<Criterion>): (cols: seq<seq<real>>)
    ensures |cols| == |criteria| && Rectangular(cols, |rows|)
  {
    seq(|criteria|, k requires 0 <= k < |criteria| =>
      Ranks(Column(rows, criteria[k].metric), criteria[k].ascending))
  }

  lemma RankColumnsInRange(rows: seq<Row>, criteria: seq<Criterion>)
    ensures WithinRankRange(RankColumns(rows, criteria), |rows|)
  {
    var cols := RankColumns(rows, criteria);
    forall k, i | 0 <= k < |cols| && 0 <= i < |rows|
      ensures 1.0 <= cols[k][i] <= |rows| as real
    {
      RankBounds(Column(rows, criteria[k].metric), i, criteria[k].ascending);
    }
  }

  /** The sum of the entries at position `i` over all columns. */
  function EntrySum(cols: seq<seq<real>>, i: nat): real
    requires forall k :: 0 <= k < |cols| ==> i < |cols[k]|
  {
    if cols == [] then 0.0 else cols[0][i] + EntrySum(cols[1..], i)
  }

  lemma {:induction false} EntrySumRange(cols: seq<seq<real>>, n: nat, i: nat)
    requires Rectangular(cols, n) && WithinRankRange(cols, n) && i < n
    ensures |cols| as real <= EntrySum(cols, i) <= (|cols| * n) as real
  {
    if cols != [] {
      EntrySumRange(cols[1..], n, i);
      assert 1.0 <= cols[0][i] <= n as real;
      assert (|cols| * n) as real == n as real + (|cols[1..]| * n) as real;
    }
  }

  /** Whether the composite is the mean of all rank columns. */
  predicate CombineRanks(compranking: string, count: nat)
  {
    compranking == "yes" && count > 1
  }

  /**
   * The composite rank: the mean of the rank columns when combining, otherwise the first
   * column alone (later criteria are then ignored).
   */
  function Composite(cols: seq<seq<real>>, combine: bool, n: nat): (r: seq<real>)
    requires |cols| >= 1 && Rectangular(cols, n)
    ensures |r| == n
  {
    if combine && |cols| > 1 then
      seq(n, i requires 0 <= i < n => EntrySum(cols, i) / (|cols| as real))
    else cols[0]
  }

  /** The composite of ranks in [1, n] is again in [1, n]. */
  lemma CompositeInRange(cols: seq<seq<real>>, combine: bool, n: nat)
    requires |cols| >= 1 && Rectangular(cols, n) && WithinRankRange(cols, n)
    ensures forall i :: 0 <= i < n ==> 1.0 <= Composite(cols, combine, n)[i] <= n as real
  {
    if combine && |cols| > 1 {
      forall i | 0 <= i < n
        ensures 1.0 <= Composite(cols, combine, n)[i] <= n as real
      {
        EntrySumRange(cols, n, i);
        var c := |cols| as real;
        var e := EntrySum(cols, i);
        assert c <= e <= c * (n as real);
        assert 1.0 <= e / c <= n as real;
      }
    }
  }

  /** The composite rank of every screened row under the parsed criteria. */
  function CompositeRanks(rows: seq<Row>, criteria: seq<Criterion>, compranking: string): (r: seq<real>)
    requires |criteria| >= 1
    ensures |r| == |rows|
    ensures forall i :: 0 <= i < |rows| ==> 1.0 <= r[i] <= |rows| as real
  {
    var cols := RankColumns(rows, criteria);
    RankColumnsInRange(rows, criteria);
    CompositeInRange(cols, CombineRanks(compranking, |criteria|), |rows|);
    Composite(cols, CombineRanks(compranking, |criteria|), |rows|)
  }

  /** The sum over the criteria of row i's rank under each criterion. */
  function RankTotal(rows: seq<Row>, criteria: seq<Criterion>, i: nat): real
    requires i < |rows|
  {
    if criteria == [] then 0.0
    else Ranks(Column(rows, criteria[0].metric), criteria[0].ascending)[i] + RankTotal(rows, criteria[1..], i)
  }

  /** Summing the rank columns entrywise adds up each criterion's rank of the row. */
  lemma {:induction false} EntrySumIsRankTotal(rows: seq<Row>, criteria: seq<Criterion>, i: nat)
    requires i < |rows|
    ensures EntrySum(RankColumns(rows, criteria), i) == RankTotal(rows, criteria, i)
  {
    if criteria != [] {
      EntrySumIsRankTotal(rows, criteria[1..], i);
      assert RankColumns(rows, criteria)[1..] == RankColumns(rows, criteria[1..]);
    }
  }

  /**
   * The composite rule: with composite ranking "yes" and at least two criteria, a row's
   * composite is the mean of its ranks under all criteria; otherwise it is its rank under
   * the first criterion, and the later criteria change nothing.
   */
  lemma CompositeRule(rows: seq<Row>, criteria: seq<Criterion>, compranking: string)
    requires |criteria| >= 1
    ensures compranking == "yes" && |criteria| >= 2 ==>
      forall i :: 0 <= i < |rows| ==>
        CompositeRanks(rows, criteria, compranking)[i] == RankTotal(rows, criteria, i) / (|criteria| as real)
    ensures !(compranking == "yes" && |criteria| >= 2) ==>
      && CompositeRanks(rows, criteria, compranking) ==
           Ranks(Column(rows, criteria[0].metric), criteria[0].ascending)
      && CompositeRanks(rows, criteria, compranking) == CompositeRanks(rows, criteria[..1], compranking)
  {
    var r := CompositeRanks(rows, criteria, compranking);
    if compranking == "yes" && |criteria| >= 2 {
      forall i | 0 <= i < |rows|
        ensures r[i] == RankTotal(rows, criteria, i) / (|criteria| as real)
      {
        EntrySumIsRankTotal(rows, criteria, i);
      }
    } else {
      assert RankColumns(rows, criteria[..1])[0] == RankColumns(rows, criteria)[0];
    }
  }

  /** A screened row with its composite rank. */
  datatype Ranked = Ranked(row: Row, rank: real)

  function Attach(rows: seq<Row>, ranks: seq<real>): (r: seq<Ranked>)
    requires |rows| == |ranks|
    ensures |r| == |rows|
  {
    seq(|rows|, i requires 0 <= i < |rows| => Ranked(rows[i], ranks[i]))
  }

  predicate SortedByRank(s: seq<Ranked>)
  {
    forall i, j :: 0 <= i < j < |s| ==> s[i].rank <= s[j].rank
  }

  /** Inserts `x` in front of the first entry whose rank is not smaller. */
  function Insert(x: Ranked, s: seq<Ranked>): (r: seq<Ranked>)
    ensures |r| == |s| + 1
  {
    if s == [] || x.rank <= s[0].rank then [x] + s else [s[0]] + Insert(x, s[1..])
  }

  lemma {:induction false} InsertPermutes(x: Ranked, s: seq<Ranked>)
    ensures multiset(Insert(x, s)) == multiset(s) + multiset{x}
  {
    if s != [] && x.rank > s[0].rank {
      InsertPermutes(x, s[1..]);
      assert s == [s[0]] + s[1..];
    }
  }

  /** A bound below `x` and below every entry of `s` stays below every entry after inserting. */
  lemma {:induction false} InsertBelow(x: Ranked, s: seq<Ranked>, bound: real)
    requires bound <= x.rank
    requires forall k :: 0 <= k < |s| ==> bound <= s[k].rank
    ensures forall k :: 0 <= k < |Insert(x, s)| ==> bound <= Insert(x, s)[k].rank
  {
    if s != [] && x.rank > s[0].rank {
      InsertBelow(x, s[1..], bound);
      var rest := Insert(x, s[1..]);
      assert forall k :: 1 <= k < |rest| + 1 ==> Insert(x, s)[k] == rest[k - 1];
    }
  }

  lemma {:induction false} InsertSorted(x: Ranked, s: seq<Ranked>)
    requires SortedByRank(s)
    ensures SortedByRank(Insert(x, s))
  {
    if s != [] && x.rank > s[0].rank {
      var rest := Insert(x, s[1..]);
      InsertSorted(x, s[1..]);
      InsertBelow(x, s[1..], s[0].rank);
      var r := [s[0]] + rest;
      forall i, j | 0 <= i < j < |r|
        ensures r[i].rank <= r[j].rank
      {
        if i == 0 {
          assert r[j] == rest[j - 1];
        } else {
          assert r[i] == rest[i - 1] && r[j] == rest[j - 1];
        }
      }
    }
  }

  /** Sorts by ascending rank (an insertion sort). */
  function SortByRank(s: seq<Ranked>): (r: seq<Ranked>)
    ensures |r| == |s|
  {
    if s == [] then [] else Insert(s[0], SortByRank(s[1..]))
  }

  /** The sort orders by rank and is a permutation of its input. */
  lemma {:induction false} SortByRankMeaning(s: seq<Ranked>)
    ensures SortedByRank(SortByRank(s))
    ensures multiset(SortByRank(s)) == multiset(s)
  {
    if s != [] {
      SortByRankMeaning(s[1..]);
      InsertSorted(s[0], SortByRank(s[1..]));
      InsertPermutes(s[0], SortByRank(s[1..]));
      assert s == [s[0]] + s[1..];
    }
  }

  /** The leading entries that a head of `size` keeps: negative sizes drop that many from the end. */
  function HeadLength(n: nat, size: int): nat
  {
    if size >= 0 then (if size < n then size else n)
    else (if n + size > 0 then n + size else 0)
  }

  /**
   * The head of `size` entries: a prefix of `s`, of `size` entries when there are that
   * many (all of them otherwise), and for a negative size all but the last -size entries
   * (none when there are not more than that).
   */
  function Head<T>(s: seq<T>, size: int): (r: seq<T>)
    ensures r <= s
    ensures size >= 0 ==> |r| == size || (|r| == |s| && |s| <= size)
    ensures size < 0 ==> |r| - size == |s| || (r == [] && |s| <= -size)
  {
    s[..HeadLength(|s|, size)]
  }

  /** The selection: sort by composite rank and keep the head of `size` entries. */
  function SelectTop(entries: seq<Ranked>, size: int): seq<Ranked>
  {
    Head(SortByRank(entries), size)
  }

  /** Cutting a rank-ordered list gives an ordered prefix whose ranks are at most the rest's. */
  lemma SplitSorted(sorted: seq<Ranked>, h: nat)
    requires SortedByRank(sorted) && h <= |sorted|
    ensures SortedByRank(sorted[..h])
    ensures forall i, j :: 0 <= i < h && 0 <= j < |sorted| - h ==> sorted[..h][i].rank <= sorted[h..][j].rank
  {
    var r := sorted[..h];
    var rest := sorted[h..];
    forall i, j | 0 <= i < j < |r| ensures r[i].rank <= r[j].rank {
      assert r[i] == sorted[i] && r[j] == sorted[j];
    }
    forall i, j | 0 <= i < |r| && 0 <= j < |rest|
      ensures r[i].rank <= rest[j].rank
    {
      assert r[i] == sorted[i] && rest[j] == sorted[h + j];
    }
  }

  /**
   * The selection has min(size, n) entries for a non-negative size, is ordered by rank,
   * and splits the candidates in two: the selection and the rest, where no entry of the
   * rest has a smaller rank than a selected one.
   */
  lemma SelectTopMeaning(entries: seq<Ranked>, size: int)
    ensures var r := SelectTop(entries, size);
      && |r| == HeadLength(|entries|, size)
      && SortedByRank(r)
      && exists rest: seq<Ranked> ::
        && multiset(r) + multiset(rest) == multiset(entries)
        && forall i, j :: 0 <= i < |r| && 0 <= j < |rest| ==> r[i].rank <= rest[j].rank
  {
    var sorted := SortByRank(entries);
    var h := HeadLength(|entries|, size);
    assert SelectTop(entries, size) == sorted[..h];
    SortByRankMeaning(entries);
    SplitSorted(sorted, h);
    SplitMultiset(sorted, h);
  }

  lemma SplitMultiset(s: seq<Ranked>, h: nat)
    requires h <= |s|
    ensures multiset(s[..h]) + multiset(s[h..]) == multiset(s)
  {
    assert s == s[..h] + s[h..];
  }
}
