/**
  The search endpoint of the crawler's web API: pick the newest fighter CSV by name, keep
  the rows some text cell of which contains the query case-insensitively, project to the
  familiar columns, and render missing values as empty strings.
 */
module SearchApi {
  import opened Wrappers
  import opened Text
  import opened Frames

  // ---------------------------------------------------------------------------------------
  // latest_csv
  // ---------------------------------------------------------------------------------------

  /** `sorted(files)[-1]`: the greatest file name in Python string order, None for no file. */
  function LatestCsv(files: seq<string>): (r: Option<string>)
    ensures r.None? <==> |files| == 0
    ensures r.Some? ==> r.value in files && forall k :: 0 <= k < |files| ==> LexLe(files[k], r.value)
  {
    if |files| == 0 then None
    else
      var rest := LatestCsv(files[1..]);
      LexLeReflexive(files[0]);
      if rest.None? then Some(files[0])
      else if LexLe(files[0], rest.value) then rest
      else
        LexLeTotal(files[0], rest.value);
        LexLeAfter(files[1..], rest.value, files[0]);
        Some(files[0])
  }

  /** Everything below m is below anything above m. */
  lemma LexLeAfter(files: seq<string>, m: string, top: string)
    requires forall k :: 0 <= k < |files| ==> LexLe(files[k], m)
    requires LexLe(m, top)
    ensures forall k :: 0 <= k < |files| ==> LexLe(files[k], top)
  {
    forall k | 0 <= k < |files| ensures LexLe(files[k], top) {
      LexLeTransitive(files[k], m, top);
    }
  }

  // ---------------------------------------------------------------------------------------
  // search
  // ---------------------------------------------------------------------------------------

  /**
    A column pandas reads as text (`dtype == "object"`): it has a text cell, and every cell
    that is not missing is text.
   */
  predicate TextColumn(t: Table, c: string) {
    && (exists i :: 0 <= i < |t.rows| && Get(t.rows[i], c, Missing).Str?)
    && forall i :: 0 <= i < |t.rows| ==> !Get(t.rows[i], c, Missing).Num?
  }

  /** `astype(str)` on a text column's cell: the text itself, or "nan" for a missing value. */
  function AsText(c: Cell): string {
    if c.Str? then c.s else "nan"
  }

  /** The mask as written: a text column whose string form contains the query, ignoring case. */
  predicate MatchesAsWritten(t: Table, row: Row, q: string) {
    exists c :: c in t.columns && TextColumn(t, c) && ContainsIgnoreCase(AsText(Get(row, c, Missing)), q)
  }

  /** The mask as intended (`na=False`): a text cell, never a missing one, contains the query. */
  predicate Matches(t: Table, row: Row, q: string) {
    exists c :: c in t.columns && TextColumn(t, c) && Get(row, c, Missing).Str? &&
                ContainsIgnoreCase(Get(row, c, Missing).s, q)
  }

  /** The columns the answer keeps, compared by their lowercased names. */
  const KeepColumns: set<string> := {
    "fighter", "name", "height", "weight", "reach", "stance", "dob",
    "slpm", "str_acc", "sapm", "str_def", "td_avg", "td_acc",
    "td_def", "sub_avg", "win", "loss", "draw"}

  /** `[c for c in columns if c.lower() in KeepColumns]`, in column order. */
  function Familiar(cols: seq<string>): (r: seq<string>)
    ensures forall c :: c in r <==> c in cols && Lower(c) in KeepColumns
    ensures |r| == 0 <==> forall c :: c in cols ==> Lower(c) !in KeepColumns
  {
    if |cols| == 0 then []
    else
      assert forall c :: c in cols <==> c == cols[0] || c in cols[1..];
      (if Lower(cols[0]) in KeepColumns then [cols[0]] else []) + Familiar(cols[1..])
  }

  /** The projected columns: the familiar ones when there are any, all of them otherwise. */
  function Projection(cols: seq<string>): seq<string> {
    var keep := Familiar(cols);
    if |keep| > 0 then keep else cols
  }

  /** `fillna("")` then one record: the row's cells under the given columns, in column order. */
  function Record(row: Row, cols: seq<string>): (r: Dict<Cell>)
    ensures Keys(r) == cols
    ensures forall k :: 0 <= k < |cols| ==> r[k].1 == FillNa(Get(row, cols[k], Missing), Str(""))
  {
    seq(|cols|, k requires 0 <= k < |cols| => (cols[k], FillNa(Get(row, cols[k], Missing), Str(""))))
  }

  /**
    `df.apply(f).any(axis=1)` needs `apply` to build a frame, which it does only when `f`
    gives a sequence for the first column. A first column that is not `object` gives the
    scalar False, `apply` returns a Series, and `.any(axis=1)` raises ValueError. A table
    without data rows goes through pandas' empty-result path, which probes `f` with an empty
    float column, gets the scalar False and raises the same way; `TextColumn` is false there.
   */
  predicate MaskRaises(t: Table) {
    |t.columns| == 0 || !TextColumn(t, t.columns[0])
  }

  /** What `/search` answers. */
  datatype SearchResponse =
    | Invalid            // HTTP 422: the query is shorter than two characters
    | Unavailable        // HTTP 503: no fighter data yet
    | ServerError        // HTTP 500: the mask raised ValueError
    | Results(count: nat, results: seq<Dict<Cell>>)

  /** The mask as written applied. */
  function KeptRows(t: Table, q: string): (r: seq<Row>)
    ensures |r| <= |t.rows|
  {
    RowsSuch(t.rows, row => MatchesAsWritten(t, row, q))
  }

  /** The mask as intended applied. */
  function KeptRowsIntended(t: Table, q: string): (r: seq<Row>)
    ensures |r| <= |t.rows|
  {
    RowsSuch(t.rows, row => Matches(t, row, q))
  }

  /** The records of the kept rows under the projected columns. */
  function Records(rows: seq<Row>, cols: seq<string>): (r: seq<Dict<Cell>>)
    ensures |r| == |rows| && forall i :: 0 <= i < |rows| ==> r[i] == Record(rows[i], cols)
  {
    seq(|rows|, i requires 0 <= i < |rows| => Record(rows[i], cols))
  }

  /** `/search?name=..`, given the newest fighter table (None when the folder holds no CSV). */
  function Search(latest: Option<Table>, name: string): SearchResponse {
    if |name| < 2 then Invalid
    else if latest.None? then Unavailable
    else if MaskRaises(latest.value) then ServerError
    else
      var t := latest.value;
      var kept := KeptRows(t, name);
      Results(|kept|, Records(kept, Projection(t.columns)))
  }

  /** `/search` with the mask as intended: a missing text cell never matches. */
  function SearchIntended(latest: Option<Table>, name: string): SearchResponse {
    if |name| < 2 then Invalid
    else if latest.None? then Unavailable
    else if MaskRaises(latest.value) then ServerError
    else
      var t := latest.value;
      var kept := KeptRowsIntended(t, name);
      Results(|kept|, Records(kept, Projection(t.columns)))
  }

  /**
    The outcome: a short query is refused, a missing table is a 503, a first column that is
    not text is a 500; otherwise the answer counts the rows the mask keeps, each record has
    exactly the projected columns, and no value is missing.
   */
  lemma SearchOutcome(latest: Option<Table>, name: string)
    ensures Search(latest, name) == Invalid <==> |name| < 2
    ensures Search(latest, name) == Unavailable <==> |name| >= 2 && latest.None?
    ensures Search(latest, name) == ServerError <==> |name| >= 2 && latest.Some? && MaskRaises(latest.value)
    ensures Search(latest, name).Results? ==>
              var r := Search(latest, name);
              && r.count == |r.results| == |KeptRows(latest.value, name)|
              && forall i :: 0 <= i < |r.results| ==>
                   && r.results[i] == Record(KeptRows(latest.value, name)[i], Projection(latest.value.columns))
                   && Keys(r.results[i]) == Projection(latest.value.columns)
                   && forall k :: 0 <= k < |r.results[i]| ==> !r.results[i][k].1.Missing?
  {
  }

  /**
    As written, a row is kept exactly when it is a table row and the string form of one of
    its cells in a text column, "nan" for a missing one, contains the query, ignoring case.
   */
  lemma KeptRowsMembers(t: Table, q: string)
    ensures forall x :: x in KeptRows(t, q) <==> x in t.rows && MatchesAsWritten(t, x, q)
  {
    RowsSuchMember(t.rows, row => MatchesAsWritten(t, row, q));
    RowsSuchKeeps(t.rows, row => MatchesAsWritten(t, row, q));
  }

  /** As intended, a row is kept exactly when a text cell of it contains the query, ignoring case. */
  lemma KeptRowsIntendedMembers(t: Table, q: string)
    ensures forall x :: x in KeptRowsIntended(t, q) <==> x in t.rows && Matches(t, x, q)
  {
    RowsSuchMember(t.rows, row => Matches(t, row, q));
    RowsSuchKeeps(t.rows, row => Matches(t, row, q));
  }

  /**
    The two masks differ only on missing cells: every row the intended mask keeps is kept as
    written, and a table row kept only as written has a missing cell in a text column and a
    query that "nan" contains.
   */
  lemma AsWrittenAgainstIntended(t: Table, row: Row, q: string)
    ensures Matches(t, row, q) ==> MatchesAsWritten(t, row, q)
    ensures row in t.rows && MatchesAsWritten(t, row, q) && !Matches(t, row, q) ==>
              ContainsIgnoreCase("nan", q) &&
              exists c :: c in t.columns && TextColumn(t, c) && Get(row, c, Missing).Missing?
  {
    if Matches(t, row, q) {
      var c :| c in t.columns && TextColumn(t, c) && Get(row, c, Missing).Str? && ContainsIgnoreCase(Get(row, c, Missing).s, q);
      assert AsText(Get(row, c, Missing)) == Get(row, c, Missing).s;
    }
    if row in t.rows && MatchesAsWritten(t, row, q) && !Matches(t, row, q) {
      var c :| c in t.columns && TextColumn(t, c) && ContainsIgnoreCase(AsText(Get(row, c, Missing)), q);
      OnlyWrittenCell(t, row, q, c);
    }
  }

  /** A text column's cell that matches only as written is a missing cell read as "nan". */
  lemma OnlyWrittenCell(t: Table, row: Row, q: string, c: string)
    requires row in t.rows && c in t.columns && TextColumn(t, c)
    requires ContainsIgnoreCase(AsText(Get(row, c, Missing)), q) && !Matches(t, row, q)
    ensures Get(row, c, Missing).Missing? && ContainsIgnoreCase("nan", q)
  {
    var cell := Get(row, c, Missing);
    if cell.Str? {
      assert Matches(t, row, q);
    }
    var i :| 0 <= i < |t.rows| && t.rows[i] == row;
    assert !cell.Num?;
  }

  /**
    A table with no text column, with or without data rows, has a first column that is not
    text, so the mask raises and the answer is a server error, whatever the query.
   */
  lemma NoTextColumnRaises(t: Table, q: string)
    requires forall c :: c in t.columns ==> !TextColumn(t, c)
    requires |q| >= 2
    ensures Search(Some(t), q) == ServerError
  {
    if |t.columns| > 0 {
      assert t.columns[0] in t.columns;
    }
  }

  /** A table without data rows, a header-only CSV, makes the mask raise: a server error. */
  lemma HeaderOnlyRaises(t: Table, q: string)
    requires |t.rows| == 0 && |q| >= 2
    ensures Search(Some(t), q) == ServerError
    ensures SearchIntended(Some(t), q) == ServerError
  {
  }

  /** A first column that is text lets the mask through, so a long query gets results. */
  lemma TextFirstColumnResults(t: Table, q: string)
    requires |t.columns| > 0 && TextColumn(t, t.columns[0]) && |q| >= 2
    ensures Search(Some(t), q).Results?
  {
  }

  /** The projection keeps the familiar columns in their order, or every column when none is familiar. */
  lemma ProjectionColumns(cols: seq<string>)
    ensures (exists c :: c in cols && Lower(c) in KeepColumns) ==>
              forall c :: c in Projection(cols) <==> c in cols && Lower(c) in KeepColumns
    ensures (forall c :: c in cols ==> Lower(c) !in KeepColumns) ==> Projection(cols) == cols
  {
  }

  /** A two-row text table whose second row has a missing name. */
  const FindingTable: Table := Table(["name"], [map["name" := Str("Jon Jones")], map["name" := Missing]])

  /**
    As written, the row with a missing name matches "na" (its cell reads "nan" after
    `astype(str)`, before `na=False` can apply); as intended it does not.
   */
  lemma MissingCellMatchesAsWritten()
    ensures MatchesAsWritten(FindingTable, FindingTable.rows[1], "na")
    ensures !Matches(FindingTable, FindingTable.rows[1], "na")
  {
    var t := FindingTable;
    assert Get(t.rows[0], "name", Missing).Str?;
    assert TextColumn(t, "name");
    assert Lower("nan") == "nan" && Lower("na") == "na";
    assert "na" <= "nan";
  }

  /** As intended, a row none of whose cells is text is never kept, whatever the query. */
  lemma MissingNeverMatches(t: Table, row: Row, q: string)
    requires forall c :: c in t.columns ==> !Get(row, c, Missing).Str?
    ensures !Matches(t, row, q)
    ensures row in t.rows ==> row !in KeptRowsIntended(t, q)
  {
    KeptRowsIntendedMembers(t, q);
  }

  /**
    The finding on the endpoint: as written, "na" answers only the row with the missing name,
    rendered as an empty name, and not "Jon Jones"; as intended it answers nothing.
   */
  lemma FindingSearch()
    ensures Search(Some(FindingTable), "na") == Results(1, [[("name", Str(""))]])
    ensures SearchIntended(Some(FindingTable), "na") == Results(0, [])
  {
    var t := FindingTable;
    assert Get(t.rows[0], "name", Missing).Str?;
    assert TextColumn(t, "name");
    assert !MaskRaises(t);
    assert Lower("name") == "name";
    assert Projection(t.columns) == ["name"];
    JonJonesLacksNa();
    assert !MatchesAsWritten(t, t.rows[0], "na");
    assert !Matches(t, t.rows[0], "na");
    MissingCellMatchesAsWritten();
    assert t.rows[1..] == [t.rows[1]];
    assert KeptRows(t, "na") == [t.rows[1]];
    assert KeptRowsIntended(t, "na") == [];
    MissingNameRecord(t.rows[1]);
    SearchKept(t, "na");
  }

  /** A row with a missing name renders as an empty name. */
  lemma MissingNameRecord(row: Row)
    requires Get(row, "name", Missing).Missing?
    ensures Records([row], ["name"]) == [[("name", Str(""))]]
  {
    var rec := Record(row, ["name"]);
    assert |rec| == 1 && rec[0] == ("name", Str(""));
    assert rec == [("name", Str(""))];
  }

  /** A long query on a table whose mask does not raise answers the records of the kept rows. */
  lemma SearchKept(t: Table, q: string)
    requires |q| >= 2 && !MaskRaises(t)
    ensures Search(Some(t), q) == Results(|KeptRows(t, q)|, Records(KeptRows(t, q), Projection(t.columns)))
    ensures SearchIntended(Some(t), q) == Results(|KeptRowsIntended(t, q)|, Records(KeptRowsIntended(t, q), Projection(t.columns)))
  {
  }

  /** "Jon Jones" does not contain "na", ignoring case: it has no a. */
  lemma JonJonesLacksNa()
    ensures !ContainsIgnoreCase("Jon Jones", "na")
  {
    var s := "Jon Jones";
    assert 'a' !in s && 'A' !in s;
    LowerLacks(s, 'a', 'A');
    assert Lower("na")[1] == 'a';
    CharNotContained(Lower(s), Lower("na"), 'a');
  }
}
