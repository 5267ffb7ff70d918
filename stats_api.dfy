/**
  The fighter lookup endpoint of the stats API: loading the newest fighter table with a
  normalised name column, then a substring tier over the normalised names and, when that
  finds nothing, a fuzzy tier ranked by an external similarity scorer.
 */
module StatsApi {
  import opened Wrappers
  import opened Text
  import opened Frames

  // ---------------------------------------------------------------------------------------
  // _load_fighter_table
  // ---------------------------------------------------------------------------------------

  /** The name-column candidates, in the order they are tried. */
  const NameAliases: seq<string> := ["fighter", "fighter_name", "name", "Fighter", "Name"]

  /** Why the table cannot be served. */
  datatype LoadError =
    | NoCsv          // FileNotFoundError: no fighter_stats CSV
    | DuplicateName  // an alias renamed onto an existing `name` column: `df["name"]` is a frame and `.str` raises
    | NameNotText    // a `name` column of numbers only: pandas reads it as numbers and `.str` raises

  /** The position of the first candidate the columns contain. */
  function FirstPresent(cands: seq<string>, cols: seq<string>): (r: Option<nat>)
    ensures r.Some? ==> r.value < |cands| && cands[r.value] in cols
    ensures r.Some? ==> forall k :: 0 <= k < r.value ==> cands[k] !in cols
    ensures r.None? <==> forall k :: 0 <= k < |cands| ==> cands[k] !in cols
  {
    if |cands| == 0 then None
    else if cands[0] in cols then Some(0)
    else match FirstPresent(cands[1..], cols)
      case None => None
      case Some(k) => Some(k + 1)
  }

  /** A row's cell under `from` moved to the label `to`. */
  function Relabel(row: Row, from: string, to: string): Row {
    if from in row then (row - {from})[to := row[from]] else row
  }

  /** `df.rename(columns={from: to})`: the column keeps its place and its cells, under the new label. */
  function RenameColumn(t: Table, from: string, to: string): (r: Table)
    ensures |r.columns| == |t.columns| && |r.rows| == |t.rows|
    ensures forall i :: 0 <= i < |t.columns| ==> r.columns[i] == if t.columns[i] == from then to else t.columns[i]
    ensures forall i :: 0 <= i < |t.rows| ==> r.rows[i] == Relabel(t.rows[i], from, to)
  {
    Table(seq(|t.columns|, i requires 0 <= i < |t.columns| => if t.columns[i] == from then to else t.columns[i]),
          seq(|t.rows|, i requires 0 <= i < |t.rows| => Relabel(t.rows[i], from, to)))
  }

  /** `df.get(col, "")` for one row: the cell when the column exists, the empty string otherwise. */
  function NamePart(t: Table, row: Row, col: string): Cell {
    if col in t.columns then Get(row, col, Missing) else Str("")
  }

  /** `first + " " + last`, then `.str.strip()`; NaN when either part is not text. */
  function JoinName(first: Cell, last: Cell): (c: Cell)
    ensures c.Str? <==> first.Str? && last.Str?
  {
    if first.Str? && last.Str? then Str(Strip(first.s + " " + last.s)) else Missing
  }

  /** The `name` column built from `First Name` and `Last Name` when the table has none. */
  function NameFromParts(t: Table): (r: Table)
    ensures "name" !in t.columns ==> r.columns == t.columns + ["name"]
  {
    SetColumn(t, "name", row => JoinName(NamePart(t, row, "First Name"), NamePart(t, row, "Last Name")))
  }

  /** `fillna("").str.strip().str.lower()` on one cell; a number is not text, so `.str` gives NaN. */
  function NormCell(c: Cell): Cell {
    match c
    case Str(s) => Str(Lower(Strip(s)))
    case Missing => Str("")
    case Num(_) => Missing
  }

  /** The `name_norm` column. */
  function AddNameNorm(t: Table): Table {
    SetColumn(t, "name_norm", row => NormCell(Get(row, "name", Missing)))
  }

  /** Renaming the first alias to `name` collides with a `name` column already there. */
  predicate Clash(cols: seq<string>) {
    var a := FirstPresent(NameAliases, cols);
    a.Some? && NameAliases[a.value] != "name" && "name" in cols
  }

  /** The table after the rename loop and, when there is still no `name`, the built name. */
  function Named(t: Table): Table {
    var a := FirstPresent(NameAliases, t.columns);
    var renamed := if a.Some? then RenameColumn(t, NameAliases[a.value], "name") else t;
    if "name" in renamed.columns then renamed else NameFromParts(renamed)
  }

  /**
    A `name` column pandas reads as numbers: rows, and a number in every one of them (a
    missing cell becomes "" under `fillna("")`, which makes the column text).
   */
  predicate NumericNames(rows: seq<Row>) {
    |rows| > 0 && forall i :: 0 <= i < |rows| ==> Get(rows[i], "name", Missing).Num?
  }

  /**
    The served table: the first alias renamed, a name built when there is none, and
    `name_norm`; `.str` raises on a duplicated or a numeric `name` column.
   */
  function NormalizedTable(t: Table): Result<Table, LoadError> {
    if Clash(t.columns) then Err(DuplicateName)
    else if NumericNames(Named(t).rows) then Err(NameNotText)
    else Ok(AddNameNorm(Named(t)))
  }

  /** `_load_fighter_table`, given the newest CSV (or none): the rename loop stops at the first alias. */
  method LoadFighterTable(csv: Option<Table>) returns (r: Result<Table, LoadError>)
    ensures csv.None? ==> r == Err(NoCsv)
    ensures csv.Some? ==> r == NormalizedTable(csv.value)
  {
    if csv.None? {
      return Err(NoCsv);
    }
    var df := csv.value;
    var clash := false;
    var i := 0;
    while i < |NameAliases|
      invariant 0 <= i <= |NameAliases| && df == csv.value && !clash
      invariant forall k :: 0 <= k < i ==> NameAliases[k] !in df.columns
    {
      if NameAliases[i] in df.columns {
        FirstPresentAt(NameAliases, df.columns, i);
        clash := NameAliases[i] != "name" && "name" in df.columns;
        df := RenameColumn(df, NameAliases[i], "name");
        break;
      }
      i := i + 1;
    }
    if "name" !in df.columns {
      df := NameFromParts(df);
    }
    if clash {
      return Err(DuplicateName);
    }
    if NumericNames(df.rows) {
      return Err(NameNotText);
    }
    df := AddNameNorm(df);
    return Ok(df);
  }

  /** With candidate i present and none before it, i is the first present one. */
  lemma {:induction false} FirstPresentAt(cands: seq<string>, cols: seq<string>, i: nat)
    requires i < |cands| && cands[i] in cols
    requires forall k :: 0 <= k < i ==> cands[k] !in cols
    ensures FirstPresent(cands, cols) == Some(i)
  {
    if i > 0 {
      FirstPresentAt(cands[1..], cols, i - 1);
    }
  }

  /**
    The load fails with duplicate names exactly when `fighter` or `fighter_name` would be
    renamed onto an existing `name`; it fails otherwise exactly when the name column is numeric.
   */
  lemma NormalizedClash(t: Table)
    ensures NormalizedTable(t) == Err(DuplicateName) <==> Clash(t.columns)
    ensures NormalizedTable(t) == Err(NameNotText) <==> !Clash(t.columns) && NumericNames(Named(t).rows)
    ensures Clash(t.columns) <==> ("fighter" in t.columns || "fighter_name" in t.columns) && "name" in t.columns
  {
    var a := FirstPresent(NameAliases, t.columns);
    if "fighter" in t.columns {
      FirstPresentAt(NameAliases, t.columns, 0);
    } else if "fighter_name" in t.columns {
      FirstPresentAt(NameAliases, t.columns, 1);
    } else if "name" in t.columns {
      FirstPresentAt(NameAliases, t.columns, 2);
    }
  }

  /** With alias k the first present (and no clash), the table has `name`, `name_norm` and every later alias. */
  lemma NormalizedAliasColumns(t: Table, k: nat)
    requires FirstPresent(NameAliases, t.columns) == Some(k) && !Clash(t.columns)
    requires !NumericNames(Named(t).rows)
    ensures NormalizedTable(t).Ok?
    ensures var r := NormalizedTable(t).value;
            && "name" in r.columns && "name_norm" in r.columns && |r.rows| == |t.rows|
            && (forall j :: k < j < |NameAliases| && NameAliases[j] in t.columns ==> NameAliases[j] in r.columns)
  {
    var renamed := RenameColumn(t, NameAliases[k], "name");
    AliasRenamed(t, k);
    assert NormalizedTable(t) == Ok(AddNameNorm(renamed));
    forall j | k < j < |NameAliases| && NameAliases[j] in t.columns
      ensures NameAliases[j] in renamed.columns
    {
      var q :| 0 <= q < |t.columns| && t.columns[q] == NameAliases[j];
      assert renamed.columns[q] == NameAliases[j];
    }
  }

  /**
    With alias k the first present (and no clash), `name` holds that alias's cells, `name_norm`
    their normalisation, and every other column is untouched.
   */
  lemma NormalizedFromAlias(t: Table, k: nat)
    requires FirstPresent(NameAliases, t.columns) == Some(k) && !Clash(t.columns)
    requires !NumericNames(Named(t).rows)
    ensures NormalizedTable(t).Ok? && |NormalizedTable(t).value.rows| == |t.rows|
    ensures var r := NormalizedTable(t).value;
            forall i :: 0 <= i < |t.rows| ==>
              && (NameAliases[k] in t.rows[i] ==> Get(r.rows[i], "name", Missing) == t.rows[i][NameAliases[k]])
              && r.rows[i]["name_norm"] == NormCell(Get(r.rows[i], "name", Missing))
              && forall c :: c != NameAliases[k] && c != "name" && c != "name_norm" ==>
                   Get(r.rows[i], c, Missing) == Get(t.rows[i], c, Missing)
  {
    var alias := NameAliases[k];
    var renamed := RenameColumn(t, alias, "name");
    AliasRenamed(t, k);
    var r := AddNameNorm(renamed);
    forall i | 0 <= i < |t.rows|
      ensures (alias in t.rows[i] ==> Get(r.rows[i], "name", Missing) == t.rows[i][alias])
      ensures r.rows[i]["name_norm"] == NormCell(Get(r.rows[i], "name", Missing))
      ensures forall c :: c != alias && c != "name" && c != "name_norm" ==>
                Get(r.rows[i], c, Missing) == Get(t.rows[i], c, Missing)
    {
      assert r.rows[i] == renamed.rows[i]["name_norm" := NormCell(Get(renamed.rows[i], "name", Missing))];
      RelabelCells(t.rows[i], alias, "name");
    }
  }

  /**
    With alias k the first present and no clash, the table is that rename plus `name_norm`,
    or the numeric-name error.
   */
  lemma AliasRenamed(t: Table, k: nat)
    requires FirstPresent(NameAliases, t.columns) == Some(k) && !Clash(t.columns)
    ensures "name" in RenameColumn(t, NameAliases[k], "name").columns
    ensures Named(t) == RenameColumn(t, NameAliases[k], "name")
    ensures NormalizedTable(t) == if NumericNames(Named(t).rows) then Err(NameNotText)
                                  else Ok(AddNameNorm(RenameColumn(t, NameAliases[k], "name")))
  {
    var renamed := RenameColumn(t, NameAliases[k], "name");
    var p :| 0 <= p < |t.columns| && t.columns[p] == NameAliases[k];
    assert renamed.columns[p] == "name";
  }

  /**
    In a well-formed table whose alias k is the first present (and no clash), the load
    raises on a numeric name exactly when there are rows and every alias cell is a number.
   */
  lemma NumericAliasNames(t: Table, k: nat)
    requires WellFormed(t)
    requires FirstPresent(NameAliases, t.columns) == Some(k) && !Clash(t.columns)
    ensures NormalizedTable(t) == Err(NameNotText) <==>
              |t.rows| > 0 && forall i :: 0 <= i < |t.rows| ==> t.rows[i][NameAliases[k]].Num?
  {
    var alias := NameAliases[k];
    AliasRenamed(t, k);
    var named := Named(t);
    forall i | 0 <= i < |t.rows| ensures alias in t.rows[i] && Get(named.rows[i], "name", Missing) == t.rows[i][alias] {
      RelabelCells(t.rows[i], alias, "name");
    }
  }

  /** Relabelling moves the one cell and leaves every other label's cell alone. */
  lemma RelabelCells(row: Row, from: string, to: string)
    ensures from in row ==> Relabel(row, from, to)[to] == row[from]
    ensures forall c :: c != from && c != to ==> Get(Relabel(row, from, to), c, Missing) == Get(row, c, Missing)
  {
  }

  /** Without any alias, `name` is the trimmed `First Name + " " + Last Name` (a missing part read as ""). */
  lemma NormalizedFromParts(t: Table)
    requires FirstPresent(NameAliases, t.columns).None?
    ensures NormalizedTable(t).Ok?
    ensures var r := NormalizedTable(t).value;
            && r.columns == t.columns + ["name"] + (if "name_norm" in t.columns then [] else ["name_norm"])
            && |r.rows| == |t.rows|
            && forall i :: 0 <= i < |t.rows| ==>
                 && r.rows[i]["name"] == JoinName(NamePart(t, t.rows[i], "First Name"), NamePart(t, t.rows[i], "Last Name"))
                 && r.rows[i]["name_norm"] == NormCell(r.rows[i]["name"])
  {
    PartsNamed(t);
    var named := NameFromParts(t);
    assert "name_norm" in named.columns <==> "name_norm" in t.columns;
  }

  /** Without any alias the name is built from the parts, which is never a number column. */
  lemma PartsNamed(t: Table)
    requires FirstPresent(NameAliases, t.columns).None?
    ensures Named(t) == NameFromParts(t) && "name" !in t.columns
    ensures NormalizedTable(t) == Ok(AddNameNorm(NameFromParts(t)))
  {
    assert NameAliases[2] == "name";
    var named := NameFromParts(t);
    if |t.rows| > 0 {
      assert !Get(named.rows[0], "name", Missing).Num?;
    }
  }

  // ---------------------------------------------------------------------------------------
  // fighter: the substring tier
  // ---------------------------------------------------------------------------------------

  /** `df["name_norm"].str.contains(q, na=False)` on one row (a literal substring test). */
  predicate SubstringHit(row: Row, q: string) {
    var n := Get(row, "name_norm", Missing);
    n.Str? && Contains(n.s, q)
  }

  /** `df[mask]` for the substring mask. */
  function SubstringRows(t: Table, q: string): (r: seq<Row>)
    ensures |r| <= |t.rows|
  {
    RowsSuch(t.rows, row => SubstringHit(row, q))
  }

  /** The `name` cell of every row. */
  function NameCells(rows: seq<Row>): (r: seq<Cell>)
    ensures |r| == |rows| && forall i :: 0 <= i < |rows| ==> r[i] == Get(rows[i], "name", Missing)
  {
    seq(|rows|, i requires 0 <= i < |rows| => Get(rows[i], "name", Missing))
  }

  /** `dropna().unique()`: the distinct non-missing cells in order of first appearance. */
  function Unique(cs: seq<Cell>): (u: seq<Cell>)
    ensures forall k :: 0 <= k < |u| ==> !u[k].Missing? && u[k] in cs
    ensures forall i :: 0 <= i < |cs| && !cs[i].Missing? ==> cs[i] in u
    ensures forall a, b :: 0 <= a < b < |u| ==> u[a] != u[b]
  {
    if |cs| == 0 then []
    else
      var u := Unique(cs[..|cs| - 1]);
      var last := cs[|cs| - 1];
      assert forall i :: 0 <= i < |cs| - 1 ==> cs[i] == cs[..|cs| - 1][i];
      if last.Missing? || last in u then u else u + [last]
  }

  /**
    Unique lists its cells in order of first appearance: wherever a later cell of the list
    occurs in the input, an earlier one has already occurred.
   */
  lemma {:induction false} UniqueOrder(cs: seq<Cell>, a: nat, b: nat, j: nat)
    requires a < b < |Unique(cs)| && j < |cs| && cs[j] == Unique(cs)[b]
    ensures exists i :: 0 <= i < j && cs[i] == Unique(cs)[a]
  {
    var init := cs[..|cs| - 1];
    var u := Unique(cs);
    var v := Unique(init);
    assert u[a] == v[a];
    if j == |cs| - 1 {
      var i :| 0 <= i < |init| && init[i] == v[a];
      assert cs[i] == u[a];
    } else if b < |v| {
      assert u[b] == v[b] && init[j] == v[b];
      UniqueOrder(init, a, b, j);
      var i :| 0 <= i < j && init[i] == v[a];
      assert cs[i] == u[a];
    } else {
      assert false;
    }
  }

  /** `rows[rows["name"] == n].iloc[0]`: the first row carrying the name n. */
  function FirstNamed(rows: seq<Row>, n: Cell): (r: Row)
    requires n in NameCells(rows) && !n.Missing?
    ensures exists i :: 0 <= i < |rows| && rows[i] == r && Get(r, "name", Missing) == n &&
                        forall j :: 0 <= j < i ==> Get(rows[j], "name", Missing) != n
  {
    if Get(rows[0], "name", Missing) == n then rows[0]
    else
      assert n in NameCells(rows[1..]) by {
        var i :| 0 <= i < |rows| && NameCells(rows)[i] == n;
        assert i > 0 && NameCells(rows[1..])[i - 1] == n;
      }
      var r := FirstNamed(rows[1..], n);
      var i :| 0 <= i < |rows[1..]| && rows[1..][i] == r && Get(r, "name", Missing) == n &&
                forall j :: 0 <= j < i ==> Get(rows[1..][j], "name", Missing) != n;
      assert rows[i + 1] == r;
      r
  }

  /** The substring answer: the first qualifying row of each of the first `limit` distinct names. */
  function SubstringResults(t: Table, q: string, limit: int): (r: seq<Row>)
  {
    var subset := SubstringRows(t, q);
    var names := Take(Unique(NameCells(subset)), limit);
    seq(|names|, k requires 0 <= k < |names| => FirstNamed(subset, names[k]))
  }

  /** The substring answer holds at most `limit` rows (for limit >= 0), each a qualifying row of the table. */
  lemma SubstringResultsRows(t: Table, q: string, limit: int)
    ensures var r := SubstringResults(t, q, limit);
            && |r| == |Take(Unique(NameCells(SubstringRows(t, q))), limit)| && (limit >= 0 ==> |r| <= limit)
            && (forall k :: 0 <= k < |r| ==> r[k] in t.rows && SubstringHit(r[k], q))
  {
    var subset := SubstringRows(t, q);
    var r := SubstringResults(t, q, limit);
    RowsSuchMember(t.rows, row => SubstringHit(row, q));
    forall k | 0 <= k < |r| ensures r[k] in t.rows && SubstringHit(r[k], q) {
      var i :| 0 <= i < |subset| && subset[i] == r[k];
    }
  }

  /**
    The answered rows carry distinct names, in order of first appearance among the
    qualifying rows (the list `Unique` builds), each the first qualifying row of its name.
   */
  lemma SubstringResultsNames(t: Table, q: string, limit: int)
    ensures var subset := SubstringRows(t, q);
            var names := Take(Unique(NameCells(subset)), limit);
            var r := SubstringResults(t, q, limit);
            && names <= Unique(NameCells(subset)) && |r| == |names|
            && (forall k :: 0 <= k < |r| ==> Get(r[k], "name", Missing) == names[k] && !names[k].Missing?)
            && (forall a, b :: 0 <= a < b < |r| ==> Get(r[a], "name", Missing) != Get(r[b], "name", Missing))
            && (forall k :: 0 <= k < |r| ==>
                  exists i :: 0 <= i < |subset| && subset[i] == r[k] &&
                              forall j :: 0 <= j < i ==> Get(subset[j], "name", Missing) != names[k])
  {
    var subset := SubstringRows(t, q);
    var u := Unique(NameCells(subset));
    var names := Take(u, limit);
    assert forall k :: 0 <= k < |names| ==> names[k] == u[k];
  }

  /** With a limit at least the number of distinct names, every named qualifying row's name is answered. */
  lemma SubstringResultsComplete(t: Table, q: string, limit: int)
    requires limit >= |Unique(NameCells(SubstringRows(t, q)))|
    ensures var subset := SubstringRows(t, q);
            var r := SubstringResults(t, q, limit);
            forall i :: 0 <= i < |subset| && !Get(subset[i], "name", Missing).Missing? ==>
              exists k :: 0 <= k < |r| && Get(r[k], "name", Missing) == Get(subset[i], "name", Missing)
  {
    var subset := SubstringRows(t, q);
    var u := Unique(NameCells(subset));
    var r := SubstringResults(t, q, limit);
    assert Take(u, limit) == u;
    forall i | 0 <= i < |subset| && !Get(subset[i], "name", Missing).Missing?
      ensures exists k :: 0 <= k < |r| && Get(r[k], "name", Missing) == Get(subset[i], "name", Missing)
    {
      assert NameCells(subset)[i] == Get(subset[i], "name", Missing);
      var k :| 0 <= k < |u| && u[k] == Get(subset[i], "name", Missing);
      assert Get(r[k], "name", Missing) == u[k];
    }
  }

  // ---------------------------------------------------------------------------------------
  // fighter: the fuzzy tier
  // ---------------------------------------------------------------------------------------

  /**
    The best-scoring position below n that is not yet taken; among equal scores the earliest,
    as a stable ranking keeps them.
   */
  function BestIn(scores: seq<real>, taken: seq<nat>, n: nat): (r: Option<nat>)
    requires n <= |scores|
    ensures r.Some? ==> r.value < n && r.value !in taken
    ensures r.Some? ==> forall j :: 0 <= j < n && j !in taken ==> scores[j] <= scores[r.value]
    ensures r.Some? ==> forall j :: 0 <= j < r.value && j !in taken ==> scores[j] < scores[r.value]
    ensures r.None? <==> forall j :: 0 <= j < n ==> j in taken
  {
    if n == 0 then None
    else
      var b := BestIn(scores, taken, n - 1);
      if n - 1 in taken then b
      else if b.None? || scores[n - 1] > scores[b.value] then Some(n - 1)
      else b
  }

  /**
    A ranking of positions: valid and distinct, best score first, and no position left out
    scoring above the last one listed.
   */
  predicate Ranked(scores: seq<real>, r: seq<nat>) {
    && (forall a :: 0 <= a < |r| ==> r[a] < |scores|)
    && (forall a, b :: 0 <= a < b < |r| ==> r[a] != r[b])
    && (forall a, b :: 0 <= a < b < |r| ==> scores[r[b]] <= scores[r[a]])
    && (|r| > 0 ==> forall j :: 0 <= j < |scores| && j !in r ==> scores[j] <= scores[r[|r| - 1]])
  }

  /**
    `process.extract(..., limit=k)`: a ranking of the k best scores; fewer only when every
    position is listed.
   */
  function TopK(scores: seq<real>, k: nat): (r: seq<nat>)
    ensures |r| <= k && Ranked(scores, r)
    ensures |r| < k ==> forall j :: 0 <= j < |scores| ==> j in r
    decreases k
  {
    if k == 0 then []
    else
      var prev := TopK(scores, k - 1);
      match BestIn(scores, prev, |scores|)
      case None => prev
      case Some(i) =>
        RankedExtend(scores, prev, i);
        prev + [i]
  }

  /** Appending the best position not yet listed keeps a ranking. */
  lemma RankedExtend(scores: seq<real>, prev: seq<nat>, i: nat)
    requires Ranked(scores, prev) && BestIn(scores, prev, |scores|) == Some(i)
    ensures Ranked(scores, prev + [i])
  {
    RankedExtendDistinct(scores, prev, i);
    RankedExtendSorted(scores, prev, i);
    RankedExtendCovers(scores, prev, i);
  }

  /** The extended ranking still lists valid positions, each once. */
  lemma RankedExtendDistinct(scores: seq<real>, prev: seq<nat>, i: nat)
    requires Ranked(scores, prev) && i < |scores| && i !in prev
    ensures forall a :: 0 <= a < |prev + [i]| ==> (prev + [i])[a] < |scores|
    ensures forall a, b :: 0 <= a < b < |prev + [i]| ==> (prev + [i])[a] != (prev + [i])[b]
  {
    var r := prev + [i];
    assert forall a :: 0 <= a < |prev| ==> r[a] == prev[a];
    assert r[|prev|] == i;
  }

  /** The extended ranking is still best score first. */
  lemma RankedExtendSorted(scores: seq<real>, prev: seq<nat>, i: nat)
    requires Ranked(scores, prev) && i < |scores| && i !in prev
    ensures forall a, b :: 0 <= a < b < |prev + [i]| ==> scores[(prev + [i])[b]] <= scores[(prev + [i])[a]]
  {
    var r := prev + [i];
    var n := |prev|;
    assert forall a :: 0 <= a < n ==> r[a] == prev[a];
    if n > 0 {
      RankedBelowAll(scores, prev, i);
    }
    forall a, b | 0 <= a < b < |r| ensures scores[r[b]] <= scores[r[a]] {
      if b < n {
        assert r[a] == prev[a] && r[b] == prev[b];
      }
    }
  }

  /** No position left out of the extended ranking scores above the one appended. */
  lemma RankedExtendCovers(scores: seq<real>, prev: seq<nat>, i: nat)
    requires BestIn(scores, prev, |scores|) == Some(i)
    ensures forall j :: 0 <= j < |scores| && j !in prev + [i] ==> scores[j] <= scores[(prev + [i])[|prev|]]
  {
    var r := prev + [i];
    assert r[|prev|] == i;
    forall j | 0 <= j < |scores| && j !in r ensures scores[j] <= scores[i] {
      assert j !in prev;
    }
  }

  /** A position left out of a ranking scores no higher than any position listed. */
  lemma RankedBelowAll(scores: seq<real>, prev: seq<nat>, i: nat)
    requires Ranked(scores, prev) && |prev| > 0
    requires i < |scores| && i !in prev
    ensures forall a :: 0 <= a < |prev| ==> scores[i] <= scores[prev[a]]
  {
    var n := |prev|;
    assert scores[i] <= scores[prev[n - 1]];
    forall a | 0 <= a < n ensures scores[prev[n - 1]] <= scores[prev[a]] {
      if a < n - 1 {
        assert scores[prev[n - 1]] <= scores[prev[a]];
      }
    }
  }

  /** Python `int(x)` on a float: truncation toward zero. */
  function Trunc(x: real): (n: int)
    ensures x >= 0.0 ==> n as real <= x < n as real + 1.0
    ensures x < 0.0 ==> n as real - 1.0 < x <= n as real
  {
    if x >= 0.0 then x.Floor else -((-x).Floor)
  }

  /** `df["name"].fillna("").tolist()`: the candidates the scorer compares the query with. */
  function Choices(t: Table): (r: seq<Cell>)
    ensures |r| == |t.rows|
  {
    seq(|t.rows|, i requires 0 <= i < |t.rows| => FillNa(Get(t.rows[i], "name", Missing), Str("")))
  }

  /** The scorer's verdict on every candidate. */
  function Scores(query: string, choices: seq<Cell>, wratio: (string, Cell) -> real): (r: seq<real>)
    ensures |r| == |choices| && forall i :: 0 <= i < |choices| ==> r[i] == wratio(query, choices[i])
  {
    seq(|choices|, i requires 0 <= i < |choices| => wratio(query, choices[i]))
  }

  /** A matched row with `_match_score` set to the truncated score. */
  function Scored(row: Row, score: real): Row {
    row["_match_score" := Num(Trunc(score) as real)]
  }

  /** The fuzzy loop: the row of every listed position, in rank order, each carrying its score. */
  method FuzzyRows(t: Table, top: seq<nat>, scores: seq<real>) returns (rows: seq<Row>)
    requires forall a :: 0 <= a < |top| ==> top[a] < |t.rows| && top[a] < |scores|
    ensures |rows| == |top|
    ensures forall a :: 0 <= a < |top| ==> rows[a] == Scored(t.rows[top[a]], scores[top[a]])
  {
    rows := [];
    for a := 0 to |top|
      invariant |rows| == a
      invariant forall b :: 0 <= b < a ==> rows[b] == Scored(t.rows[top[b]], scores[top[b]])
    {
      var row := t.rows[top[a]];
      row := row["_match_score" := Num(Trunc(scores[top[a]]) as real)];
      rows := rows + [row];
    }
  }

  /** The fuzzy answer for a table: the rows of the `limit` best scores (none for a negative limit). */
  predicate FuzzyAnswer(t: Table, name: string, limit: int, wratio: (string, Cell) -> real, rows: seq<Row>) {
    var scores := Scores(name, Choices(t), wratio);
    var top := TopK(scores, if limit < 0 then 0 else limit);
    |rows| == |top| && forall a :: 0 <= a < |top| ==> rows[a] == Scored(t.rows[top[a]], scores[top[a]])
  }

  /** The fuzzy answer as a list: the one sequence `FuzzyAnswer` accepts. */
  function FuzzyResults(t: Table, name: string, limit: int, wratio: (string, Cell) -> real): (r: seq<Row>)
    ensures FuzzyAnswer(t, name, limit, wratio, r)
  {
    var scores := Scores(name, Choices(t), wratio);
    var top := TopK(scores, if limit < 0 then 0 else limit);
    seq(|top|, a requires 0 <= a < |top| => Scored(t.rows[top[a]], scores[top[a]]))
  }

  /**
    An answered row holds NaN: a missing cell under one of the table's columns (`to_dict`
    lists every column) or under a key the row carries. The JSON response is rendered with
    `allow_nan=False`, so such an answer is an uncaught ValueError.
   */
  predicate HoldsNaN(cols: seq<string>, rows: seq<Row>) {
    || (exists i, c :: 0 <= i < |rows| && c in cols && Get(rows[i], c, Missing).Missing?)
    || (exists i, c :: 0 <= i < |rows| && c in rows[i] && rows[i][c].Missing?)
  }

  /**
    The tier the endpoint answers from: the substring tier on the trimmed, lowercased query
    when any row qualifies, else the fuzzy tier on the raw query.
   */
  function Tier(t: Table, name: string, limit: int, wratio: (string, Cell) -> real): (r: (bool, seq<Row>))
  {
    var q := Lower(Strip(name));
    if exists i :: 0 <= i < |t.rows| && SubstringHit(t.rows[i], q) then (true, SubstringResults(t, q, limit))
    else (false, FuzzyResults(t, name, limit, wratio))
  }

  /** Rows taken from a table without NaN hold none. */
  lemma {:induction false} RowsOfTableServe(cols: seq<string>, rows: seq<Row>, sub: seq<Row>)
    requires !HoldsNaN(cols, rows)
    requires forall k :: 0 <= k < |sub| ==> sub[k] in rows
    ensures !HoldsNaN(cols, sub)
  {
    forall k, c | 0 <= k < |sub| && c in cols ensures !Get(sub[k], c, Missing).Missing? {
      var i :| 0 <= i < |rows| && rows[i] == sub[k];
    }
    forall k, c | 0 <= k < |sub| && c in sub[k] ensures !sub[k][c].Missing? {
      var i :| 0 <= i < |rows| && rows[i] == sub[k];
    }
  }

  /** A table without NaN answers none on the substring tier: every answered row is one of its rows. */
  lemma SubstringTierServes(t: Table, q: string, limit: int)
    requires !HoldsNaN(t.columns, t.rows)
    ensures !HoldsNaN(t.columns, SubstringResults(t, q, limit))
  {
    SubstringResultsRows(t, q, limit);
    RowsOfTableServe(t.columns, t.rows, SubstringResults(t, q, limit));
  }

  /** A table without NaN answers none on the fuzzy tier: the added score is a number. */
  lemma FuzzyTierServes(t: Table, name: string, limit: int, wratio: (string, Cell) -> real)
    requires !HoldsNaN(t.columns, t.rows)
    ensures !HoldsNaN(t.columns, FuzzyResults(t, name, limit, wratio))
  {
    var f := FuzzyResults(t, name, limit, wratio);
    var scores := Scores(name, Choices(t), wratio);
    var top := TopK(scores, if limit < 0 then 0 else limit);
    forall a, c | 0 <= a < |f| && c in t.columns ensures !Get(f[a], c, Missing).Missing? {
      assert f[a] == Scored(t.rows[top[a]], scores[top[a]]);
    }
    forall a, c | 0 <= a < |f| && c in f[a] ensures !f[a][c].Missing? {
      assert f[a] == Scored(t.rows[top[a]], scores[top[a]]);
      if c != "_match_score" {
        assert c in t.rows[top[a]];
      }
    }
  }

  /**
    The tier's answer: exact exactly when some row qualifies, then the substring rows, else
    the fuzzy rows; a table without NaN answers none either way.
   */
  lemma TierAnswer(t: Table, name: string, limit: int, wratio: (string, Cell) -> real)
    ensures var q := Lower(Strip(name));
            var r := Tier(t, name, limit, wratio);
            && (r.0 <==> exists i :: 0 <= i < |t.rows| && SubstringHit(t.rows[i], q))
            && (r.0 ==> r.1 == SubstringResults(t, q, limit))
            && (!r.0 ==> FuzzyAnswer(t, name, limit, wratio, r.1))
            && (!HoldsNaN(t.columns, t.rows) ==> !HoldsNaN(t.columns, r.1))
  {
    if !HoldsNaN(t.columns, t.rows) {
      SubstringTierServes(t, Lower(Strip(name)), limit);
      FuzzyTierServes(t, name, limit, wratio);
    }
  }

  // ---------------------------------------------------------------------------------------
  // fighter: the endpoint
  // ---------------------------------------------------------------------------------------

  /** The 404 detail when there is no table. */
  const NoCsvDetail: string := "No fighter_stats CSV found. Run a crawl first."

  /** What `/fighter` answers. */
  datatype FighterResponse =
    | NotFound(detail: string)   // HTTP 404
    | ServerError                // an uncaught exception: HTTP 500
    | Matches(query: string, exact: bool, results: seq<Row>, message: string)

  /**
    `/fighter?name=..&limit=..`: 404 without a table; otherwise the substring tier on the
    trimmed, lowercased query when any row qualifies, else the fuzzy tier on the raw query,
    and a 500 when the rows of that tier hold NaN.
   */
  method Fighter(csv: Option<Table>, name: string, limit: int, wratio: (string, Cell) -> real)
    returns (resp: FighterResponse)
    ensures csv.None? ==> resp == NotFound(NoCsvDetail)
    ensures csv.Some? && NormalizedTable(csv.value).Err? ==> resp == ServerError
    ensures csv.Some? && NormalizedTable(csv.value).Ok? ==>
              var t := NormalizedTable(csv.value).value;
              var tier := Tier(t, name, limit, wratio);
              && (resp == ServerError <==> HoldsNaN(t.columns, tier.1))
              && (resp != ServerError ==>
                    resp == Matches(name, tier.0, tier.1, if tier.0 then "Substring matches" else "Fuzzy matches"))
  {
    var loaded := LoadFighterTable(csv);
    if loaded.Err? {
      if loaded.error == NoCsv {
        return NotFound(NoCsvDetail);
      }
      return ServerError;
    }
    var df := loaded.value;
    var q := Lower(Strip(name));
    var subset := SubstringRows(df, q);
    RowsSuchEmpty(df.rows, row => SubstringHit(row, q));
    if |subset| == 0 {
      var scores := Scores(name, Choices(df), wratio);
      var top := TopK(scores, if limit < 0 then 0 else limit);
      var rows := FuzzyRows(df, top, scores);
      assert rows == FuzzyResults(df, name, limit, wratio);
      assert Tier(df, name, limit, wratio) == (false, rows);
      if HoldsNaN(df.columns, rows) {
        return ServerError;
      }
      return Matches(name, false, rows, "Fuzzy matches");
    }
    var rows := SubstringResults(df, q, limit);
    assert Tier(df, name, limit, wratio) == (true, rows);
    if HoldsNaN(df.columns, rows) {
      return ServerError;
    }
    return Matches(name, true, rows, "Substring matches");
  }

  /**
    On a served row the substring test reads the name: a text name qualifies exactly when
    it contains the query once trimmed and lowercased (query in name, not the reverse), a
    missing name only for the empty query, a numeric name never.
   */
  lemma SubstringHitName(row: Row, q: string)
    requires "name_norm" in row && row["name_norm"] == NormCell(Get(row, "name", Missing))
    ensures Get(row, "name", Missing).Str? ==>
              (SubstringHit(row, q) <==> Contains(Lower(Strip(Get(row, "name", Missing).s)), q))
    ensures Get(row, "name", Missing).Missing? ==> (SubstringHit(row, q) <==> q == "")
    ensures Get(row, "name", Missing).Num? ==> !SubstringHit(row, q)
    ensures q == "" ==> (SubstringHit(row, q) <==> !Get(row, "name", Missing).Num?)
  {
    var n := Get(row, "name", Missing);
    if n.Str? {
      ContainsEmpty(Lower(Strip(n.s)));
    }
    if n.Missing? && q != "" {
      assert !(q <= "");
    }
  }
}
