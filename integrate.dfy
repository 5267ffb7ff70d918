/**
  The one-off merge in UFC-Prediction/app/integrate_crawler_data.py: the prediction table
  gains eight stat columns, all NaN, and every crawler row whose name matches a fighter
  (ignoring case) copies its eight stats into the first such fighter's row.
 */
module Integrate {

  import opened Wrappers
  import opened Text
  import opened Frames

  /** The stat columns added to the prediction table, in the order they are added. */
  const NewColumns: seq<string> := [
    "sig_str_land_pM", "sig_str_abs_pM", "sig_str_def_pct", "sig_str_land_pct",
    "td_avg", "td_def_pct", "td_land_pct", "sub_avg"]

  /** The value `np.nan` writes into every row. */
  function NaNOf(row: Row): (c: Cell)
    ensures c == Missing
  {
    Missing
  }

  /** `enhanced_df[col] = np.nan` for each of the columns in turn. */
  function WithNaNColumns(t: Table, cols: seq<string>): (r: Table)
    ensures |r.rows| == |t.rows|
    decreases |cols|
  {
    if |cols| == 0 then t
    else SetColumn(WithNaNColumns(t, cols[..|cols| - 1]), cols[|cols| - 1], NaNOf)
  }

  /** `.str.lower()` on one cell: a string lower-cased, anything else NaN. */
  function Lowered(c: Cell): (r: Cell)
    ensures r.Str? <==> c.Str?
    ensures c.Str? ==> r == Str(Lower(c.s))
  {
    if c.Str? then Str(Lower(c.s)) else Missing
  }

  /** `matches.index[0]`: the first row whose lower-cased fighter name is the key. */
  function FirstMatch(rows: seq<Row>, key: string): (r: Option<nat>)
    ensures r.Some? ==> r.value < |rows| && Lowered(Get(rows[r.value], "fighter", Missing)) == Str(key)
    ensures r.Some? ==> forall j :: 0 <= j < r.value ==> Lowered(Get(rows[j], "fighter", Missing)) != Str(key)
    ensures r.None? ==> forall j :: 0 <= j < |rows| ==> Lowered(Get(rows[j], "fighter", Missing)) != Str(key)
    decreases |rows|
  {
    if |rows| == 0 then None
    else if Lowered(Get(rows[0], "fighter", Missing)) == Str(key) then Some(0)
    else
      var m := FirstMatch(rows[1..], key);
      assert forall j :: 1 <= j < |rows| ==> rows[j] == rows[1..][j - 1];
      if m.Some? then Some(m.value + 1) else None
  }

  /** The eight stat cells of a crawler row, under their column names. */
  function Stats(source: Row): (m: map<string, Cell>)
    ensures forall c :: c in m <==> c in NewColumns
  {
    map c | c in NewColumns :: Get(source, c, Missing)
  }

  /** The eight `enhanced_df.loc[fighter_idx, col] = row[col]` assignments on one row. */
  function CopyStats(target: Row, source: Row): Row {
    target + Stats(source)
  }

  /**
    One crawler row's lookup: the row the stats go to, or None. `row['name']` raises
    KeyError without a name column, `enhanced_df['fighter']` without a fighter column,
    `.str` on a column without strings and `.lower()` on a name that is not a string
    raise AttributeError, and a match reads all eight stats, the first absent one raising KeyError.
   */
  function MatchOf(t: Table, crawlerColumns: seq<string>, row: Row): (r: Result<Option<nat>, PyError>)
    ensures r.Ok? && r.value.Some? ==> r.value.value < |t.rows|
  {
    if "name" !in crawlerColumns then Err(KeyError("name"))
    else if "fighter" !in t.columns then Err(KeyError("fighter"))
    else if !StrColumn(t.rows, "fighter") then Err(AttributeError)
    else
      var name := Get(row, "name", Missing);
      if !name.Str? then Err(AttributeError)
      else
        var m := FirstMatch(t.rows, Lower(name.s));
        if m.Some? && FirstMissing(crawlerColumns, NewColumns).Some? then Err(KeyError(FirstMissing(crawlerColumns, NewColumns).value))
        else Ok(m)
  }

  /** One crawler row: the stats copied to the row its lookup finds, and one more match counted. */
  function Step(t: Table, count: nat, crawlerColumns: seq<string>, row: Row): (r: Result<(Table, nat), PyError>)
    ensures r.Ok? ==> |r.value.0.rows| == |t.rows| && r.value.1 <= count + 1
  {
    var m :- MatchOf(t, crawlerColumns, row);
    if m.None? then Ok((t, count))
    else Ok((Table(t.columns, t.rows[m.value := CopyStats(t.rows[m.value], row)]), count + 1))
  }

  /** The table and `matched_count` after the first n crawler rows. */
  function Merged(base: Table, crawler: Table, n: nat): (r: Result<(Table, nat), PyError>)
    requires n <= |crawler.rows|
    ensures r.Ok? ==> |r.value.0.rows| == |base.rows| && r.value.1 <= n
    decreases n
  {
    if n == 0 then Ok((base, 0))
    else
      match Merged(base, crawler, n - 1)
      case Err(e) => Err(e)
      case Ok((t, count)) => Step(t, count, crawler.columns, crawler.rows[n - 1])
  }

  /** What `integrate_crawler_data` produces. */
  datatype Integration =
    | NoCrawlerData                              // the crawler CSV failed to load: None
    | IntegrationError(error: PyError)           // an exception escapes the merge loop
    | Integrated(enhanced: Table, matched: nat)  // the enhanced table and `matched_count`

  /** `integrate_crawler_data`, where None stands for a crawler CSV that fails to load. */
  function Integrate(crawler: Option<Table>, prediction: Table): (r: Integration)
    ensures r == NoCrawlerData <==> crawler.None?
    ensures r.Integrated? ==> r.matched <= |crawler.value.rows| && |r.enhanced.rows| == |prediction.rows|
  {
    if crawler.None? then NoCrawlerData
    else
      var base := WithNaNColumns(prediction, NewColumns);
      match Merged(base, crawler.value, |crawler.value.rows|)
      case Err(e) => IntegrationError(e)
      case Ok((t, count)) => Integrated(t, count)
  }

  /** The loop adding the NaN columns. */
  method AddNaNColumns(t: Table) returns (r: Table)
    ensures r == WithNaNColumns(t, NewColumns)
  {
    r := t;
    for n := 0 to |NewColumns|
      invariant r == WithNaNColumns(t, NewColumns[..n])
    {
      assert NewColumns[..n + 1][..n] == NewColumns[..n];
      r := SetColumn(r, NewColumns[n], NaNOf);
    }
    assert NewColumns[..|NewColumns|] == NewColumns;
  }

  /** `integrate_crawler_data`: the crawler rows in order, each copying to its first match. */
  method IntegrateCrawlerData(crawler: Option<Table>, prediction: Table) returns (r: Integration)
    ensures r == Integrate(crawler, prediction)
  {
    if crawler.None? {
      return NoCrawlerData;
    }
    var crawlerDf := crawler.value;
    var base := AddNaNColumns(prediction);
    var enhanced := base;
    var matchedCount := 0;
    for n := 0 to |crawlerDf.rows|
      invariant Merged(base, crawlerDf, n) == Ok((enhanced, matchedCount))
    {
      var row := crawlerDf.rows[n];
      MergedNext(base, crawlerDf, n);
      var m := MatchOf(enhanced, crawlerDf.columns, row);
      if m.Err? {
        MergedErrSticks(base, crawlerDf, n + 1, |crawlerDf.rows|);
        return IntegrationError(m.error);
      }
      if m.value.Some? {
        var fighterIdx := m.value.value;
        ghost var next := (Table(enhanced.columns, enhanced.rows[fighterIdx := CopyStats(enhanced.rows[fighterIdx], row)]), matchedCount + 1);
        assert Step(enhanced, matchedCount, crawlerDf.columns, row) == Ok(next);
        enhanced := Table(enhanced.columns, enhanced.rows[fighterIdx := CopyStats(enhanced.rows[fighterIdx], row)]);
        matchedCount := matchedCount + 1;
      } else {
        assert Step(enhanced, matchedCount, crawlerDf.columns, row) == Ok((enhanced, matchedCount));
      }
    }
    return Integrated(enhanced, matchedCount);
  }

  /** The next table and count are the step on the current ones. */
  lemma MergedNext(base: Table, crawler: Table, n: nat)
    requires n < |crawler.rows| && Merged(base, crawler, n).Ok?
    ensures Merged(base, crawler, n + 1) ==
              Step(Merged(base, crawler, n).value.0, Merged(base, crawler, n).value.1, crawler.columns, crawler.rows[n])
  {
  }

  /** An exception on crawler row n - 1 ends the loop: every longer prefix gives that error. */
  lemma {:induction false} MergedErrSticks(base: Table, crawler: Table, n: nat, m: nat)
    requires n <= m <= |crawler.rows| && Merged(base, crawler, n).Err?
    ensures Merged(base, crawler, m) == Merged(base, crawler, n)
    decreases m
  {
    if n < m {
      MergedErrSticks(base, crawler, n, m - 1);
    }
  }

  // ---------------------------------------------------------------------------------------
  // Properties
  // ---------------------------------------------------------------------------------------

  /** NaN under each of the given columns. */
  function NaNMap(cols: seq<string>): (m: map<string, Cell>)
    ensures forall c :: c in m <==> c in cols
  {
    map c | c in cols :: Missing
  }

  /**
    Adding the columns keeps every original column in place and appends each new column
    the table lacks.
   */
  lemma {:induction false} WithNaNColumnsColumns(t: Table, n: nat)
    requires n <= |NewColumns|
    ensures var r := WithNaNColumns(t, NewColumns[..n]);
      && t.columns <= r.columns
      && forall c :: c in r.columns <==> c in t.columns || c in NewColumns[..n]
    decreases n
  {
    if n > 0 {
      WithNaNColumnsColumns(t, n - 1);
      assert NewColumns[..n][..n - 1] == NewColumns[..n - 1];
      assert NewColumns[..n] == NewColumns[..n - 1] + [NewColumns[n - 1]];
    }
  }

  /** Adding the columns keeps every row, each with NaN written under the new columns. */
  lemma {:induction false} WithNaNColumnsRows(t: Table, n: nat)
    requires n <= |NewColumns|
    ensures var r := WithNaNColumns(t, NewColumns[..n]);
      && |r.rows| == |t.rows|
      && forall i :: 0 <= i < |t.rows| ==> r.rows[i] == t.rows[i] + NaNMap(NewColumns[..n])
    decreases n
  {
    if n > 0 {
      WithNaNColumnsRows(t, n - 1);
      assert NewColumns[..n][..n - 1] == NewColumns[..n - 1];
      var prev := WithNaNColumns(t, NewColumns[..n - 1]);
      var c := NewColumns[n - 1];
      var r := SetColumn(prev, c, NaNOf);
      assert WithNaNColumns(t, NewColumns[..n]) == r;
      assert NewColumns[..n] == NewColumns[..n - 1] + [c];
      NaNMapSnoc(NewColumns[..n - 1], c);
      forall i | 0 <= i < |t.rows| ensures r.rows[i] == t.rows[i] + NaNMap(NewColumns[..n]) {
        UnionUpdate(t.rows[i], NaNMap(NewColumns[..n - 1]), c, Missing);
      }
    }
  }

  /** One more column of NaN. */
  lemma NaNMapSnoc(cols: seq<string>, c: string)
    ensures NaNMap(cols + [c]) == NaNMap(cols)[c := Missing]
  {
  }

  /** Writing one key after a union is the union with the key written into the right side. */
  lemma UnionUpdate(a: Row, b: map<string, Cell>, c: string, v: Cell)
    ensures (a + b)[c := v] == a + b[c := v]
  {
  }

  /** Writing a map over one with the same keys replaces it. */
  lemma OverwriteSameKeys(a: Row, b: map<string, Cell>, c: map<string, Cell>)
    requires b.Keys == c.Keys
    ensures (a + b) + c == a + c
  {
  }

  /** The fighter column is not one of the new columns. */
  lemma FighterNotNew()
    ensures "fighter" !in NewColumns && "name" !in NewColumns
  {
    assert forall k :: 0 <= k < |NewColumns| ==> NewColumns[k][0] == 's' || NewColumns[k][0] == 't';
  }

  /** The row crawler row j writes to: the first with its name, looked up in `rows`. */
  function Target(rows: seq<Row>, crawler: Table, j: nat): (r: Option<nat>)
    requires j < |crawler.rows|
    ensures r.Some? ==> r.value < |rows|
  {
    var name := Get(crawler.rows[j], "name", Missing);
    if name.Str? then FirstMatch(rows, Lower(name.s)) else None
  }

  /** The last of the first n crawler rows that writes to row i. */
  function LastWriter(rows: seq<Row>, crawler: Table, i: nat, n: nat): (r: Option<nat>)
    requires n <= |crawler.rows|
    ensures r.Some? ==> r.value < n && Target(rows, crawler, r.value) == Some(i)
    ensures r.Some? ==> forall j :: r.value < j < n ==> Target(rows, crawler, j) != Some(i)
    ensures r.None? ==> forall j :: 0 <= j < n ==> Target(rows, crawler, j) != Some(i)
    decreases n
  {
    if n == 0 then None
    else if Target(rows, crawler, n - 1) == Some(i) then Some(n - 1)
    else LastWriter(rows, crawler, i, n - 1)
  }

  /** How many of the first n crawler rows find a match. */
  function MatchCount(rows: seq<Row>, crawler: Table, n: nat): (r: nat)
    requires n <= |crawler.rows|
    ensures r <= n
    decreases n
  {
    if n == 0 then 0
    else MatchCount(rows, crawler, n - 1) + (if Target(rows, crawler, n - 1).Some? then 1 else 0)
  }

  /** Two row lists with the same fighter cells, row by row. */
  predicate SameFighters(a: seq<Row>, b: seq<Row>) {
    |a| == |b| && forall i :: 0 <= i < |a| ==> Get(a[i], "fighter", Missing) == Get(b[i], "fighter", Missing)
  }

  /**
    Row i after the first n crawler rows: the base row when none of them wrote to it, else
    the base row with the stats of the last that did.
   */
  function Expected(base: Table, crawler: Table, names: seq<Row>, i: nat, n: nat): Row
    requires i < |base.rows| && n <= |crawler.rows|
  {
    match LastWriter(names, crawler, i, n)
    case None => base.rows[i]
    case Some(j) => base.rows[i] + Stats(crawler.rows[j])
  }

  /**
    After the first n crawler rows: the columns are the base table's, a row no crawler row
    has written is the base row, and a written row is the base row with the stats of the
    last crawler row that matched it first; the count is the number of crawler rows that
    found a match. Matches are looked up in any rows with the base table's fighter cells.
   */
  lemma {:induction false} MergedState(base: Table, crawler: Table, n: nat, names: seq<Row>)
    requires n <= |crawler.rows| && Merged(base, crawler, n).Ok?
    requires SameFighters(names, base.rows)
    ensures var t := Merged(base, crawler, n).value.0;
      && t.columns == base.columns
      && |t.rows| == |base.rows|
      && forall i :: 0 <= i < |t.rows| ==> t.rows[i] == Expected(base, crawler, names, i, n)
    ensures Merged(base, crawler, n).value.1 == MatchCount(names, crawler, n)
    decreases n
  {
    if n > 0 {
      MergedState(base, crawler, n - 1, names);
      var prev := Merged(base, crawler, n - 1).value;
      var t := prev.0;
      var row := crawler.rows[n - 1];
      MergedKeepsFighters(base, crawler, n - 1, names);
      MatchOfTarget(t, names, crawler, n - 1);
      var m := MatchOf(t, crawler.columns, row);
      assert m.Ok?;
      var target := Target(names, crawler, n - 1);
      assert m.value == target;
      var t' := Merged(base, crawler, n).value.0;
      if target.None? {
        assert t' == t;
        forall i | 0 <= i < |t'.rows| ensures t'.rows[i] == Expected(base, crawler, names, i, n) {
          assert LastWriter(names, crawler, i, n) == LastWriter(names, crawler, i, n - 1);
        }
      } else {
        var w := target.value;
        assert t' == Table(t.columns, t.rows[w := CopyStats(t.rows[w], row)]);
        forall i | 0 <= i < |t'.rows| ensures t'.rows[i] == Expected(base, crawler, names, i, n) {
          if i == w {
            assert LastWriter(names, crawler, i, n) == Some(n - 1);
            match LastWriter(names, crawler, w, n - 1)
            case None =>
            case Some(j) => OverwriteSameKeys(base.rows[w], Stats(crawler.rows[j]), Stats(row));
          } else {
            assert LastWriter(names, crawler, i, n) == LastWriter(names, crawler, i, n - 1);
          }
        }
      }
    }
  }

  /** No crawler row writes the fighter column, so the merge keeps the fighter cells. */
  lemma MergedKeepsFighters(base: Table, crawler: Table, n: nat, names: seq<Row>)
    requires n <= |crawler.rows| && SameFighters(names, base.rows)
    requires var r := Merged(base, crawler, n);
      r.Ok? && forall i :: 0 <= i < |r.value.0.rows| ==> r.value.0.rows[i] == Expected(base, crawler, names, i, n)
    ensures SameFighters(Merged(base, crawler, n).value.0.rows, names)
  {
    var t := Merged(base, crawler, n).value.0;
    FighterNotNew();
    forall i | 0 <= i < |t.rows| ensures Get(t.rows[i], "fighter", Missing) == Get(names[i], "fighter", Missing) {
      match LastWriter(names, crawler, i, n)
      case None =>
      case Some(j) => assert "fighter" !in Stats(crawler.rows[j]);
    }
  }

  /**
    While every row keeps the fighter cell of `names`, a crawler row's lookup that does not
    raise finds the row it finds in `names`.
   */
  lemma MatchOfTarget(t: Table, names: seq<Row>, crawler: Table, j: nat)
    requires j < |crawler.rows| && SameFighters(t.rows, names)
    requires MatchOf(t, crawler.columns, crawler.rows[j]).Ok?
    ensures MatchOf(t, crawler.columns, crawler.rows[j]).value == Target(names, crawler, j)
  {
    var name := Get(crawler.rows[j], "name", Missing);
    FirstMatchSameKeys(t.rows, names, Lower(name.s));
  }

  /** Rows with the same fighter cells have the same first match. */
  lemma {:induction false} FirstMatchSameKeys(a: seq<Row>, b: seq<Row>, key: string)
    requires SameFighters(a, b)
    ensures FirstMatch(a, key) == FirstMatch(b, key)
    decreases |a|
  {
    if |a| > 0 {
      assert SameFighters(a[1..], b[1..]) by {
        forall i | 0 <= i < |a| - 1 ensures Get(a[1..][i], "fighter", Missing) == Get(b[1..][i], "fighter", Missing) {
          assert a[1..][i] == a[i + 1] && b[1..][i] == b[i + 1];
        }
      }
      FirstMatchSameKeys(a[1..], b[1..], key);
    }
  }

  /**
    The result: None exactly when the crawler CSV did not load. A successful merge keeps
    every prediction column and appends the eight it lacks; each prediction row keeps its
    cells and gets NaN under the eight columns when no crawler row matched it first, and
    otherwise the stats of the last crawler row that did; `matched_count` counts the
    crawler rows that found a match, at most all of them.
   */
  lemma IntegrationResult(crawler: Option<Table>, prediction: Table)
    ensures Integrate(crawler, prediction) == NoCrawlerData <==> crawler.None?
    ensures var r := Integrate(crawler, prediction);
      r.Integrated? ==>
        var n := |crawler.value.rows|;
        && prediction.columns <= r.enhanced.columns
        && (forall c :: c in r.enhanced.columns <==> c in prediction.columns || c in NewColumns)
        && |r.enhanced.rows| == |prediction.rows|
        && (forall i :: 0 <= i < |prediction.rows| ==>
              r.enhanced.rows[i] == match LastWriter(prediction.rows, crawler.value, i, n)
                                    case None => prediction.rows[i] + NaNMap(NewColumns)
                                    case Some(j) => prediction.rows[i] + Stats(crawler.value.rows[j]))
        && r.matched == MatchCount(prediction.rows, crawler.value, n) <= n
  {
    if crawler.Some? {
      var base := WithNaNColumns(prediction, NewColumns);
      var n := |crawler.value.rows|;
      WithNaNColumnsColumns(prediction, |NewColumns|);
      WithNaNColumnsRows(prediction, |NewColumns|);
      assert NewColumns[..|NewColumns|] == NewColumns;
      FighterNotNew();
      assert SameFighters(prediction.rows, base.rows) by {
        forall i | 0 <= i < |prediction.rows|
          ensures Get(prediction.rows[i], "fighter", Missing) == Get(base.rows[i], "fighter", Missing)
        {
          assert "fighter" !in NaNMap(NewColumns);
        }
      }
      if Merged(base, crawler.value, n).Ok? {
        MergedState(base, crawler.value, n, prediction.rows);
        forall i | 0 <= i < |prediction.rows|
          ensures Expected(base, crawler.value, prediction.rows, i, n) ==
                    match LastWriter(prediction.rows, crawler.value, i, n)
                    case None => prediction.rows[i] + NaNMap(NewColumns)
                    case Some(j) => prediction.rows[i] + Stats(crawler.value.rows[j])
        {
          match LastWriter(prediction.rows, crawler.value, i, n)
          case None =>
          case Some(j) => OverwriteSameKeys(prediction.rows[i], NaNMap(NewColumns), Stats(crawler.value.rows[j]));
        }
      }
    }
  }

  /**
    A row is written only by a crawler row whose lower-cased name equals the row's
    lower-cased fighter name, and only when no earlier row has that name: the first match.
   */
  lemma TargetFirst(rows: seq<Row>, crawler: Table, j: nat, i: nat)
    requires j < |crawler.rows| && Target(rows, crawler, j) == Some(i)
    ensures Get(crawler.rows[j], "name", Missing).Str?
    ensures Lowered(Get(rows[i], "fighter", Missing)) == Str(Lower(Get(crawler.rows[j], "name", Missing).s))
    ensures forall h :: 0 <= h < i ==> Lowered(Get(rows[h], "fighter", Missing)) != Lowered(Get(rows[i], "fighter", Missing))
  {
  }

  /**
    The loop fails only on a non-empty crawler table, with the errors its lookups raise;
    a crawler table without a name column fails on its first row.
   */
  lemma MergedErrors(base: Table, crawler: Table, n: nat)
    requires n <= |crawler.rows|
    ensures Merged(base, crawler, n).Err? ==>
              && n > 0
              && (Merged(base, crawler, n).error in {KeyError("name"), KeyError("fighter"), AttributeError}
                  || exists k :: 0 <= k < |NewColumns| && Merged(base, crawler, n).error == KeyError(NewColumns[k]))
    ensures n > 0 && "name" !in crawler.columns ==> Merged(base, crawler, n) == Err(KeyError("name"))
  {
    if n > 0 && "name" !in crawler.columns {
      assert Merged(base, crawler, 1) == Err(KeyError("name"));
      MergedErrSticks(base, crawler, 1, n);
    }
    if Merged(base, crawler, n).Err? {
      MergedErrCause(base, crawler, n);
    }
  }

  /** The error of a failed loop is the error of one row's lookup. */
  lemma {:induction false} MergedErrCause(base: Table, crawler: Table, n: nat)
    requires n <= |crawler.rows| && Merged(base, crawler, n).Err?
    ensures n > 0
    ensures Merged(base, crawler, n).error in {KeyError("name"), KeyError("fighter"), AttributeError}
            || exists k :: 0 <= k < |NewColumns| && Merged(base, crawler, n).error == KeyError(NewColumns[k])
    decreases n
  {
    if Merged(base, crawler, n - 1).Err? {
      MergedErrCause(base, crawler, n - 1);
    } else {
      var t := Merged(base, crawler, n - 1).value.0;
      var missing := FirstMissing(crawler.columns, NewColumns);
      if missing.Some? {
        var k :| 0 <= k < |NewColumns| && NewColumns[k] == missing.value;
      }
    }
  }
}
