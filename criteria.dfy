/**
 * Parsing the ranking specification "metric:dir,metric:dir,...": the comma-separated
 * pieces that contain a colon, stripped, each split once more on the colon into a column
 * name and a direction. A criterion is ascending exactly when its direction is "asc".
 */
module Criteria {
  import opened Wrappers
  import opened Records
  import opened Text

  datatype Criterion = Criterion(metric: Metric, ascending: bool)

  datatype RankError =
    | Malformed(text: string)      // a criterion with more than one colon cannot be unpacked
    | UnknownMetric(name: string)  // the name is not a numeric column of the query result
    | NoCriteria                   // no piece contained a colon, so there is no first ranking

  /** The stripped pieces of the specification that contain a colon, in order. */
  function WithColon(pieces: seq<string>): (texts: seq<string>)
    ensures |texts| <= |pieces|
  {
    if pieces == [] then []
    else if ':' in pieces[0] then [Strip(pieces[0])] + WithColon(pieces[1..])
    else WithColon(pieces[1..])
  }

  /** Text `t` is the criterion read from piece `p`. */
  predicate ReadFrom(t: string, p: string)
  {
    ':' in p && t == Strip(p)
  }

  /** Text `t` is read from one of `pieces`. */
  predicate HasSource(t: string, pieces: seq<string>)
  {
    exists i :: 0 <= i < |pieces| && ReadFrom(t, pieces[i])
  }

  /** Each criterion text is read from some piece that contains a colon. */
  lemma {:induction false} WithColonSound(pieces: seq<string>)
    ensures forall t :: t in WithColon(pieces) ==> HasSource(t, pieces)
  {
    if pieces != [] {
      var rest := WithColon(pieces[1..]);
      WithColonSound(pieces[1..]);
      forall t | t in WithColon(pieces)
        ensures HasSource(t, pieces)
      {
        if ':' in pieces[0] && t == Strip(pieces[0]) {
          assert ReadFrom(t, pieces[0]);
        } else {
          assert t in rest;
          assert HasSource(t, pieces[1..]);
          var i :| 0 <= i < |pieces[1..]| && ReadFrom(t, pieces[1..][i]);
          assert ReadFrom(t, pieces[i + 1]);
        }
      }
    }
  }

  /** Every piece that contains a colon yields a criterion text. */
  lemma {:induction false} WithColonComplete(pieces: seq<string>, i: nat)
    requires i < |pieces| && ':' in pieces[i]
    ensures Strip(pieces[i]) in WithColon(pieces)
  {
    var t := Strip(pieces[i]);
    if i == 0 {
      assert WithColon(pieces) == [t] + WithColon(pieces[1..]);
    } else {
      WithColonComplete(pieces[1..], i - 1);
      assert pieces[1..][i - 1] == pieces[i];
      var rest := WithColon(pieces[1..]);
      assert t in rest;
      if ':' in pieces[0] {
        assert WithColon(pieces) == [Strip(pieces[0])] + rest;
      } else {
        assert WithColon(pieces) == rest;
      }
    }
  }

  /**
   * Pieces are read one by one, so criterion texts keep the order of their pieces: the
   * texts of a concatenation are the concatenation of the texts.
   */
  lemma {:induction false} WithColonAppend(a: seq<string>, b: seq<string>)
    ensures WithColon(a + b) == WithColon(a) + WithColon(b)
  {
    if a != [] {
      var ab := a + b;
      assert ab[0] == a[0] && ab[1..] == a[1..] + b;
      WithColonAppend(a[1..], b);
      if ':' in a[0] {
        assert WithColon(ab) == [Strip(a[0])] + WithColon(ab[1..]);
        assert WithColon(a) == [Strip(a[0])] + WithColon(a[1..]);
      } else {
        assert WithColon(ab) == WithColon(ab[1..]);
        assert WithColon(a) == WithColon(a[1..]);
      }
    } else {
      assert a + b == b;
    }
  }

  function CriterionTexts(ranking: string): seq<string>
  {
    WithColon(Split(ranking, ','))
  }

  /** Unpacks one criterion into a column and a direction. */
  function ParseCriterion(text: string): (r: Result<Criterion, RankError>)
    ensures Count(text, ':') != 1 ==> r == Err(Malformed(text))
    ensures r.Ok? ==>
      exists dir :: ':' !in dir && text == ColumnName(r.value.metric) + ":" + dir &&
        (r.value.ascending <==> dir == "asc")
    ensures r.Err? ==> r.error.Malformed? || r.error.UnknownMetric?
  {
    var parts := Split(text, ':');
    if |parts| != 2 then Err(Malformed(text))
    else match MetricNamed(parts[0])
      case None => Err(UnknownMetric(parts[0]))
      case Some(m) =>
        JoinSplit(text, ':');
        assert text == parts[0] + ":" + parts[1];
        Ok(Criterion(m, parts[1] == "asc"))
  }

  /**
   * Every well-formed criterion parses: a column name, a colon and any direction without
   * a colon give that column, ascending exactly when the direction is "asc" (so " asc",
   * "ASC" or "ascending" all sort descending).
   */
  lemma ParseWellFormed(m: Metric, dir: string)
    requires ':' !in dir
    ensures ParseCriterion(ColumnName(m) + ":" + dir) == Ok(Criterion(m, dir == "asc"))
  {
    var name := ColumnName(m);
    assert ':' !in name;
    var parts := [name, dir];
    assert Join(parts, ':') == name + ":" + dir by {
      assert Join(parts[1..], ':') == dir;
    }
    SplitJoin(parts, ':');
  }

  /**
   * A column name and a direction, neither with a colon, where the name is not a numeric
   * column of the query result: the criterion names an unknown metric.
   */
  lemma ParseUnknownName(name: string, dir: string)
    requires ':' !in name && ':' !in dir
    requires MetricNamed(name).None?
    ensures ParseCriterion(name + ":" + dir) == Err(UnknownMetric(name))
  {
    var parts := [name, dir];
    assert Join(parts, ':') == name + ":" + dir by {
      assert Join(parts[1..], ':') == dir;
    }
    SplitJoin(parts, ':');
  }

  /** Parses the criteria in order; the first criterion that fails decides the error. */
  function ParseAll(texts: seq<string>): (r: Result<seq<Criterion>, RankError>)
    ensures r.Ok? ==>
      |r.value| == |texts| && forall k :: 0 <= k < |texts| ==> ParseCriterion(texts[k]) == Ok(r.value[k])
    ensures r.Err? ==>
      exists k :: 0 <= k < |texts| && ParseCriterion(texts[k]) == Err(r.error) &&
        forall j :: 0 <= j < k ==> ParseCriterion(texts[j]).Ok?
  {
    if texts == [] then Ok([])
    else match ParseCriterion(texts[0])
      case Err(e) => Err(e)
      case Ok(c) =>
        match ParseAll(texts[1..])
        case Err(e) =>
          ghost var k :| 0 <= k < |texts[1..]| && ParseCriterion(texts[1..][k]) == Err(e) &&
            forall j :: 0 <= j < k ==> ParseCriterion(texts[1..][j]).Ok?;
          assert ParseCriterion(texts[k + 1]) == Err(e);
          Err(e)
        case Ok(cs) => Ok([c] + cs)
  }

  /**
   * The criteria of a ranking specification. It succeeds exactly when there is a criterion
   * and every criterion parses; it fails with NoCriteria exactly when no piece contains a
   * colon, and otherwise with the error of the first criterion that does not parse.
   */
  function ParseRanking(ranking: string): (r: Result<seq<Criterion>, RankError>)
    ensures r == Err(NoCriteria) <==> CriterionTexts(ranking) == []
    ensures r.Ok? <==>
      CriterionTexts(ranking) != [] &&
      forall k :: 0 <= k < |CriterionTexts(ranking)| ==> ParseCriterion(CriterionTexts(ranking)[k]).Ok?
    ensures r.Ok? ==>
      var texts := CriterionTexts(ranking);
      |r.value| == |texts| >= 1 &&
      forall k :: 0 <= k < |texts| ==> ParseCriterion(texts[k]) == Ok(r.value[k])
    ensures r.Err? && r != Err(NoCriteria) ==>
      var texts := CriterionTexts(ranking);
      exists k :: 0 <= k < |texts| && ParseCriterion(texts[k]) == Err(r.error) &&
        forall j :: 0 <= j < k ==> ParseCriterion(texts[j]).Ok?
  {
    match ParseAll(CriterionTexts(ranking))
    case Err(e) => Err(e)
    case Ok(cs) => if cs == [] then Err(NoCriteria) else Ok(cs)
  }
}
