/**
  The UFC 320 batch predictor in UFC-Prediction/app/ufc320_live_predictions.py: a roster
  read from the crawler's latest CSV with a normalised search key, the tiered fighter
  lookup, the regex-based conversion of one crawler row to the model's features (NaN where
  a pattern does not match, every default 0), and the prediction for two names.
 */
module LivePredictor {

  import opened Wrappers
  import opened Text
  import opened Numerals
  import opened Frames
  import opened Schema
  import opened LegacyApp
  import opened LiveApp

  // ---------------------------------------------------------------------------------------
  // load_system: the roster and its search key
  // ---------------------------------------------------------------------------------------

  /** `.str.strip()` on one cell; a cell that is not a string becomes NaN. */
  function StripCell(c: Cell): (r: Cell)
    ensures r.Str? <==> c.Str?
  {
    if c.Str? then Str(Strip(c.s)) else Missing
  }

  /**
    `.str.lower().str.replace(r'[^\w\s]', '', regex=True)` on one cell: lower-cased, with
    every character that is neither a word character nor whitespace removed.
   */
  function SearchKey(c: Cell): (r: Cell)
    ensures r.Str? <==> c.Str?
    ensures r.Str? ==> forall k :: 0 <= k < |r.s| ==>
              (IsWordChar(r.s[k]) || IsSpace(r.s[k])) && !('A' <= r.s[k] <= 'Z')
  {
    if c.Str? then
      var s := KeepWordAndSpace(Lower(c.s));
      KeepWordAndSpaceMembers(Lower(c.s));
      assert forall k :: 0 <= k < |s| ==> s[k] in Lower(c.s);
      Str(s)
    else Missing
  }

  /** `df['name'] = df['name'].str.strip()`: every row's name trimmed, the columns unchanged. */
  function StripNames(t: Table): (r: Table)
    ensures r.columns == t.columns && |r.rows| == |t.rows|
    ensures forall i :: 0 <= i < |t.rows| ==> r.rows[i] == t.rows[i]["name" := StripCell(Get(t.rows[i], "name", Missing))]
  {
    Table(t.columns, seq(|t.rows|, i requires 0 <= i < |t.rows| =>
      t.rows[i]["name" := StripCell(Get(t.rows[i], "name", Missing))]))
  }

  /** `df['name_search'] = ...`: a new last column (or the same column overwritten) holding the search key. */
  function AddSearchKeys(t: Table): (r: Table)
    ensures r.columns == if "name_search" in t.columns then t.columns else t.columns + ["name_search"]
    ensures |r.rows| == |t.rows|
    ensures forall i :: 0 <= i < |t.rows| ==>
              r.rows[i] == t.rows[i]["name_search" := SearchKey(Get(t.rows[i], "name", Missing))]
  {
    Table(if "name_search" in t.columns then t.columns else t.columns + ["name_search"],
          seq(|t.rows|, i requires 0 <= i < |t.rows| =>
            t.rows[i]["name_search" := SearchKey(Get(t.rows[i], "name", Missing))]))
  }

  /**
    The roster each row of which keeps its other cells, has its name trimmed and carries
    the search key of that trimmed name.
   */
  lemma CleanRoster(t: Table)
    ensures var r := AddSearchKeys(StripNames(t));
      && |r.rows| == |t.rows|
      && forall i :: 0 <= i < |t.rows| ==>
           && Get(r.rows[i], "name", Missing) == StripCell(Get(t.rows[i], "name", Missing))
           && Get(r.rows[i], "name_search", Missing) == SearchKey(StripCell(Get(t.rows[i], "name", Missing)))
           && forall c :: c in t.rows[i] && c != "name" && c != "name_search" ==> r.rows[i][c] == t.rows[i][c]
  {
  }

  /**
    `UFC_Live_Predictor`: the roster (`crawler_df`) and the trained model, None until
    loaded. Reading `latest.csv` and unpickling the model are inputs: None where the file is
    missing or the load raises.
   */
  class Predictor {
    var roster: Option<Table>
    var model: Option<Classifier>

    /** `__init__`: both fields None, then `load_system`. */
    constructor (latest: Option<Table>, pickled: Option<Classifier>)
      ensures latest.None? ==> roster == None && model == None
      ensures latest.Some? ==> model == pickled
      ensures latest.Some? ==>
                roster == Some(if pickled.Some? && "name" in latest.value.columns && StrColumn(latest.value.rows, "name")
                               then AddSearchKeys(StripNames(latest.value)) else latest.value)
    {
      roster := None;
      model := None;
      new;
      var loaded := LoadSystem(latest, pickled);
    }

    /**
      `load_system`: False without the CSV; otherwise the roster is stored at once, so a
      model that fails to load, a roster without a name column, or one whose name column
      holds no string (pandas then reads it as numbers and `.str` raises AttributeError),
      leaves the raw roster in place and answers False. On success the names are trimmed
      and the search key added.
     */
    method LoadSystem(latest: Option<Table>, pickled: Option<Classifier>) returns (ok: bool)
      modifies this
      ensures ok <==> latest.Some? && pickled.Some? && "name" in latest.value.columns &&
                      StrColumn(latest.value.rows, "name")
      ensures latest.None? ==> roster == old(roster) && model == old(model)
      ensures latest.Some? ==> roster == Some(if ok then AddSearchKeys(StripNames(latest.value)) else latest.value)
      ensures latest.Some? ==> model == if pickled.Some? then pickled else old(model)
    {
      if latest.None? {
        return false;
      }
      roster := latest;
      if pickled.None? {
        return false;
      }
      model := pickled;
      if "name" !in latest.value.columns || !StrColumn(latest.value.rows, "name") {
        return false;
      }
      var t := StripNames(latest.value);
      roster := Some(t);
      t := AddSearchKeys(t);
      roster := Some(t);
      return true;
    }

    /**
      Everything `predict_fight` does before calling the model: find both fighters, read
      the first one's name (for the progress line), convert both, and build the features.
     */
    function FightFeatures(fighter1: string, fighter2: string): (r: Result<(Table, Table, Matrix), PyError>)
      reads this
      ensures r.Ok? ==> Find(roster, fighter1) == Ok(r.value.0) && Find(roster, fighter2) == Ok(r.value.1)
      ensures r.Ok? ==> |r.value.2| == 1 && |r.value.2[0]| == 58
      ensures r.Ok? ==> forall k :: 0 <= k < 58 ==> !r.value.2[0][k].Missing?
    {
      var found1 :- Find(roster, fighter1);
      var found2 :- Find(roster, fighter2);
      if "name" !in found1.columns then Err(KeyError("name"))
      else
        var c1 :- CrawlerFormat(found1, roster.value.rows);
        var c2 :- CrawlerFormat(found2, roster.value.rows);
        Ok((found1, found2, Features(c1, c2)))
    }

    /**
      `predict_fight`: any exception becomes the error result; otherwise prediction 1
      makes fighter1 the winner, and the confidence is absent ("N/A") when the
      probabilities are unavailable.
     */
    function PredictFight(fighter1: string, fighter2: string): (r: CardPrediction)
      reads this
      ensures r.fighter1 == fighter1 && r.fighter2 == fighter2
      ensures r.Picked? ==> {r.winner, r.loser} == {fighter1, fighter2}
    {
      match FightFeatures(fighter1, fighter2)
      case Err(e) => Raised(e, fighter1, fighter2)
      case Ok((found1, found2, features)) =>
        if model.None? then Raised(AttributeError, fighter1, fighter2)
        else
          var p := model.value.predict(features);
          if p.None? then Raised(ModelError, fighter1, fighter2)
          else
            var blueWins := p.value == 1;
            Picked(if blueWins then fighter1 else fighter2, if blueWins then fighter2 else fighter1,
                      Confidence(model.value.proba(features)), fighter1, fighter2, StatsOf(found1), StatsOf(found2))
    }
  }

  // ---------------------------------------------------------------------------------------
  // find_fighter (reads the roster field, passed here as a parameter)
  // ---------------------------------------------------------------------------------------

  /** The pattern `find_fighter` hands to `str.replace`, which takes it literally. */
  const PatternLiteral: string := "[^\\w\\s]"

  /** `fighter_name.lower().strip().replace(r'[^\w\s]', '')`: punctuation is kept. */
  function SearchQuery(name: string): (q: string)
    ensures !Contains(Strip(Lower(name)), PatternLiteral) ==> q == Strip(Lower(name))
  {
    RemoveLiteral(Strip(Lower(name)), PatternLiteral)
  }

  /**
    The partial-match mask: the search key contains the first token of the query, or the
    name contains the first token of the raw name ignoring case; NaN matches nothing.
   */
  predicate PartialHit(row: Row, token: string, rawToken: string) {
    var key, name := Get(row, "name_search", Missing), Get(row, "name", Missing);
    (key.Str? && Contains(key.s, token)) || (name.Str? && ContainsIgnoreCase(name.s, rawToken))
  }

  /** `exact_match`: the rows whose search key equals the query. */
  function ExactRows(t: Table, name: string): seq<Row> {
    RowsWhere(t.rows, "name_search", Str(SearchQuery(name)))
  }

  /**
    `find_fighter`: a one-row frame. The first row whose key equals the query wins; else
    the first row the partial mask keeps; else ValueError "not found". Without a roster
    the call raises "Crawler data not loaded".
   */
  function Find(roster: Option<Table>, name: string): (r: Result<Table, PyError>)
    ensures r.Ok? ==> roster.Some? && r.value.columns == roster.value.columns
    ensures r.Ok? ==> |r.value.rows| == 1 && r.value.rows[0] in roster.value.rows
  {
    if roster.None? then Err(DataNotLoaded)
    else
      var t := roster.value;
      if "name_search" !in t.columns then Err(KeyError("name_search"))
      else
        var exact := ExactRows(t, name);
        RowsWhereMembers(t.rows, "name_search", Str(SearchQuery(name)));
        if |exact| > 0 then Ok(Table(t.columns, [exact[0]]))
        else FindPartialTier(t, name)
  }

  /**
    The partial tier: `split()[0]` of a blank query raises IndexError; the first row the
    partial mask keeps, else "not found".
   */
  function FindPartialTier(t: Table, name: string): (r: Result<Table, PyError>)
    ensures r.Ok? ==> r.value.columns == t.columns && |r.value.rows| == 1 && r.value.rows[0] in t.rows
  {
    if FirstToken(SearchQuery(name)).None? then Err(IndexError)
    else if "name" !in t.columns then Err(KeyError("name"))
    else if FirstToken(name).None? then Err(IndexError)
    else
      var partial := PartialRows(t, FirstToken(SearchQuery(name)).value, FirstToken(name).value);
      if |partial| > 0 then Ok(Table(t.columns, [partial[0]])) else Err(FighterNotFound(name))
  }

  /** `partial_matches`: the rows the partial mask keeps, in roster order. */
  function PartialRows(t: Table, token: string, rawToken: string): (r: seq<Row>)
    ensures forall x :: x in r ==> x in t.rows
  {
    RowsSuchMember(t.rows, row => PartialHit(row, token, rawToken));
    RowsSuch(t.rows, row => PartialHit(row, token, rawToken))
  }

  /** The row's search key equals the query. */
  predicate ExactHit(row: Row, name: string) {
    CellEq(Get(row, "name_search", Missing), Str(SearchQuery(name)))
  }

  /** Both first tokens exist and the row passes the partial mask built from them. */
  predicate PartialHitFor(row: Row, name: string) {
    && FirstToken(SearchQuery(name)).Some? && FirstToken(name).Some?
    && PartialHit(row, FirstToken(SearchQuery(name)).value, FirstToken(name).value)
  }

  /** No row is selected exactly when no key equals the query. */
  lemma ExactRowsEmpty(t: Table, name: string)
    ensures |ExactRows(t, name)| == 0 <==> forall j :: 0 <= j < |t.rows| ==> !ExactHit(t.rows[j], name)
  {
    RowsWhereEmpty(t.rows, "name_search", Str(SearchQuery(name)));
  }

  /** When some key equals the query, the lookup returns the first such row and nothing else. */
  lemma FindExact(t: Table, name: string, i: nat)
    requires "name_search" in t.columns
    requires i < |t.rows| && ExactHit(t.rows[i], name)
    requires forall j :: 0 <= j < i ==> !ExactHit(t.rows[j], name)
    ensures Find(Some(t), name) == Ok(Table(t.columns, [t.rows[i]]))
  {
    RowsWhereFirst(t.rows, "name_search", Str(SearchQuery(name)), i);
  }

  /**
    With no exact key, the lookup returns the first row whose key contains the query's first
    token or whose name contains the raw name's first token, ignoring case.
   */
  lemma FindPartial(t: Table, name: string, i: nat)
    requires "name_search" in t.columns && "name" in t.columns
    requires forall j :: 0 <= j < |t.rows| ==> !ExactHit(t.rows[j], name)
    requires i < |t.rows| && PartialHitFor(t.rows[i], name)
    requires forall j :: 0 <= j < i ==> !PartialHitFor(t.rows[j], name)
    ensures Find(Some(t), name) == Ok(Table(t.columns, [t.rows[i]]))
  {
    ExactRowsEmpty(t, name);
    var token, rawToken := FirstToken(SearchQuery(name)).value, FirstToken(name).value;
    RowsSuchFirst(t.rows, row => PartialHit(row, token, rawToken), i);
  }

  /** Without an exact key, the lookup is the partial tier. */
  lemma FindFallback(t: Table, name: string)
    requires "name_search" in t.columns
    requires forall j :: 0 <= j < |t.rows| ==> !ExactHit(t.rows[j], name)
    ensures Find(Some(t), name) == FindPartialTier(t, name)
  {
    ExactRowsEmpty(t, name);
  }

  /** The partial tier fails exactly on a blank query, no name column or no partial hit. */
  lemma PartialTierFails(t: Table, name: string)
    ensures FindPartialTier(t, name).Err? <==>
              "name" !in t.columns || FirstToken(SearchQuery(name)).None? || FirstToken(name).None?
              || forall j :: 0 <= j < |t.rows| ==> !PartialHitFor(t.rows[j], name)
    ensures FirstToken(SearchQuery(name)).None? ==> FindPartialTier(t, name) == Err(IndexError)
    ensures "name" in t.columns && FirstToken(SearchQuery(name)).Some? && FirstToken(name).Some?
            && (forall j :: 0 <= j < |t.rows| ==> !PartialHitFor(t.rows[j], name)) ==>
              FindPartialTier(t, name) == Err(FighterNotFound(name))
  {
    var q := SearchQuery(name);
    if FirstToken(q).Some? && FirstToken(name).Some? && "name" in t.columns {
      var token, rawToken := FirstToken(q).value, FirstToken(name).value;
      PartialRowsEmpty(t, token, rawToken);
      assert forall j :: 0 <= j < |t.rows| ==> (PartialHit(t.rows[j], token, rawToken) <==> PartialHitFor(t.rows[j], name));
    }
  }

  /** The partial tier keeps no row exactly when no row passes the mask. */
  lemma PartialRowsEmpty(t: Table, token: string, rawToken: string)
    ensures |PartialRows(t, token, rawToken)| == 0 <==> forall j :: 0 <= j < |t.rows| ==> !PartialHit(t.rows[j], token, rawToken)
  {
    RowsSuchEmpty(t.rows, row => PartialHit(row, token, rawToken));
  }

  /**
    The lookup fails exactly when there is no roster ("Crawler data not loaded"), no search
    key column, or no exact key and then one of the fallback failures.
   */
  lemma FindFails(roster: Option<Table>, name: string)
    ensures roster.None? ==> Find(roster, name) == Err(DataNotLoaded)
    ensures roster.Some? && "name_search" !in roster.value.columns ==> Find(roster, name) == Err(KeyError("name_search"))
    ensures roster.Some? && "name_search" in roster.value.columns ==>
              (Find(roster, name).Err? ==> forall j :: 0 <= j < |roster.value.rows| ==> !ExactHit(roster.value.rows[j], name))
  {
    if roster.Some? {
      ExactRowsEmpty(roster.value, name);
    }
  }

  // ---------------------------------------------------------------------------------------
  // convert_crawler_to_prediction_format
  // ---------------------------------------------------------------------------------------

  /** A frame built column by column: the column names in insertion order, each with its cells. */
  type ColumnFrame = Dict<seq<Cell>>

  /** `fighter_data[c]` as a list of cells, one per row. */
  function Column(t: Table, c: string): (r: seq<Cell>)
    ensures |r| == |t.rows|
    ensures forall i :: 0 <= i < |r| ==> r[i] == Get(t.rows[i], c, Missing)
  {
    seq(|t.rows|, i requires 0 <= i < |t.rows| => Get(t.rows[i], c, Missing))
  }

  /** An element-wise column operation. */
  function MapCells(cs: seq<Cell>, f: Cell -> Cell): (r: seq<Cell>)
    ensures |r| == |cs|
    ensures forall i :: 0 <= i < |cs| ==> r[i] == f(cs[i])
  {
    seq(|cs|, i requires 0 <= i < |cs| => f(cs[i]))
  }

  /** `str.extract(r"(\d+)' (\d+)")` then feet * 30.48 + inches * 2.54; NaN without a match. */
  function HeightCell(c: Cell): Cell {
    if c.Str? && HeightMatch(c.s).Some? then
      Num(FeetInchesToCm(DigitsValue(HeightMatch(c.s).value.0) as real, DigitsValue(HeightMatch(c.s).value.1) as real))
    else Missing
  }

  /** `str.extract(r'(\d+)').astype(float) * 2.54`: the first digit run in inches; NaN without one. */
  function ReachCell(c: Cell): Cell {
    if c.Str? && FirstDigitRun(c.s).Some? then Num(InchesToCm(DigitsValue(FirstDigitRun(c.s).value) as real))
    else Missing
  }

  /** `str.extract(r'(\d+)').astype(float)`: the first digit run; NaN without one. */
  function WeightCell(c: Cell): Cell {
    if c.Str? && FirstDigitRun(c.s).Some? then Num(DigitsValue(FirstDigitRun(c.s).value) as real)
    else Missing
  }

  /** `fillna(0)` on one cell. */
  function ZeroFill(c: Cell): Cell {
    FillNa(c, Num(0.0))
  }

  /** `converted[col] = 0`: a column of zeros. */
  function Zeros(n: nat): (r: seq<Cell>)
    ensures |r| == n && forall i :: 0 <= i < n ==> r[i] == Num(0.0)
  {
    seq(n, i => Num(0.0))
  }

  /** The source columns the conversion reads, in the order it reads them. */
  const HeadInputs: seq<string> := ["name", "height", "reach", "weight", "n_win", "n_loss"]

  /** The source columns the conversion reads through the `.str` accessor. */
  const TextInputs: seq<string> := ["height", "reach", "weight"]

  /**
    `.str` on column c of the found frame. The one-row slice `iloc[0:1]` keeps the roster's
    column type, so a roster column that holds no string (NaN and numbers only, read as a
    numeric column) raises AttributeError. A text column passes when the found cells hold a
    string or are all NaN, and raises when they are numbers only.
   */
  predicate StrAccessorOk(fd: Table, rosterRows: seq<Row>, c: string) {
    && StrColumn(rosterRows, c)
    && ((exists i :: 0 <= i < |fd.rows| && Get(fd.rows[i], c, Missing).Str?) ||
        forall i :: 0 <= i < |fd.rows| ==> !Get(fd.rows[i], c, Missing).Num?)
  }

  /**
    The first head assignment that raises, in the order they run: a KeyError for an absent
    column, and an AttributeError from `.str` on height, reach or weight; None when all six
    go through. `rosterRows` are the rows of the roster the frame was cut from.
   */
  function HeadError(fd: Table, rosterRows: seq<Row>): Option<PyError> {
    if "name" !in fd.columns then Some(KeyError("name"))
    else if "height" !in fd.columns then Some(KeyError("height"))
    else if !StrAccessorOk(fd, rosterRows, "height") then Some(AttributeError)
    else if "reach" !in fd.columns then Some(KeyError("reach"))
    else if !StrAccessorOk(fd, rosterRows, "reach") then Some(AttributeError)
    else if "weight" !in fd.columns then Some(KeyError("weight"))
    else if !StrAccessorOk(fd, rosterRows, "weight") then Some(AttributeError)
    else if "n_win" !in fd.columns then Some(KeyError("n_win"))
    else if "n_loss" !in fd.columns then Some(KeyError("n_loss"))
    else None
  }

  /** The 30 columns of a converted frame: the fighter's name, then the model's 29 features. */
  const CrawlerColumns: seq<string> := ["fighter"] + LiveColumns

  /** The first six columns: name, the three regex conversions, and the record with NaN as 0. */
  function HeadColumns(fd: Table): (r: ColumnFrame)
    ensures Keys(r) == ["fighter"] + LiveHead
    ensures Rectangular(r, |fd.rows|)
  {
    [("fighter", Column(fd, "name")),
     ("Height_cms", MapCells(Column(fd, "height"), HeightCell)),
     ("Reach_cms", MapCells(Column(fd, "reach"), ReachCell)),
     ("Weight_lbs", MapCells(Column(fd, "weight"), WeightCell)),
     ("wins", MapCells(Column(fd, "n_win"), ZeroFill)),
     ("losses", MapCells(Column(fd, "n_loss"), ZeroFill))]
  }

  /** The eight statistics, each the source column with NaN as 0. */
  function StatColumnsOf(fd: Table): (r: ColumnFrame)
    ensures Keys(r) == StatColumns
    ensures Rectangular(r, |fd.rows|)
  {
    seq(|StatColumns|, j requires 0 <= j < |StatColumns| =>
      (StatColumns[j], MapCells(Column(fd, StatColumns[j]), ZeroFill)))
  }

  /** The stance one-hot columns; NaN or any other label sets Open. */
  function StanceColumnsOf(stance: seq<Cell>): (r: ColumnFrame)
    ensures Keys(r) == StanceColumns
    ensures Rectangular(r, |stance|)
  {
    [("Stance_Orthodox", MapCells(stance, c => Num(StanceOneHot(c)[0]))),
     ("Stance_Southpaw", MapCells(stance, c => Num(StanceOneHot(c)[1]))),
     ("Stance_Switch", MapCells(stance, c => Num(StanceOneHot(c)[2]))),
     ("Stance_Open_Stance", MapCells(stance, c => Num(StanceOneHot(c)[3])))]
  }

  /** The twelve default columns, every one (age included) a column of zeros. */
  function DefaultColumns(n: nat): (r: ColumnFrame)
    ensures Keys(r) == TailColumns
    ensures Rectangular(r, n)
    ensures forall j, i :: 0 <= j < |r| && 0 <= i < |r[j].1| ==> r[j].1[i] == Num(0.0)
  {
    var zeros := Zeros(n);
    seq(|TailColumns|, j requires 0 <= j < |TailColumns| => (TailColumns[j], zeros))
  }

  /**
    The converted frame: the first error of the head assignments, else a KeyError for the
    first statistic or stance column missing; otherwise the 30 columns, one cell per source
    row. `rosterRows` are the rows of the roster the frame was cut from, which fix the
    column types `.str` sees.
   */
  function CrawlerFormat(fd: Table, rosterRows: seq<Row>): (r: Result<ColumnFrame, PyError>)
    ensures r.Ok? ==> Keys(r.value) == CrawlerColumns && Rectangular(r.value, |fd.rows|)
  {
    var head := HeadError(fd, rosterRows);
    var missing := FirstMissing(fd.columns, StatColumns + ["stance"]);
    if head.Some? then Err(head.value)
    else if missing.Some? then Err(KeyError(missing.value))
    else Ok(ConvertedBlocks(fd))
  }

  /** The head, statistic, stance and default blocks in order: the 30 converted columns. */
  function ConvertedBlocks(fd: Table): (r: ColumnFrame)
    ensures Keys(r) == CrawlerColumns && Rectangular(r, |fd.rows|)
  {
    var h, s, st, d := HeadColumns(fd), StatColumnsOf(fd), StanceColumnsOf(Column(fd, "stance")), DefaultColumns(|fd.rows|);
    CrawlerColumnsBlocks();
    KeysConcat(h, s);
    KeysConcat(h + s, st);
    KeysConcat(h + s + st, d);
    RectangularConcat(h, s, |fd.rows|);
    RectangularConcat(h + s, st, |fd.rows|);
    RectangularConcat(h + s + st, d, |fd.rows|);
    h + s + st + d
  }

  /**
    `convert_crawler_to_prediction_format`: the head columns, the eight statistics, the
    stance columns, then the loop adding each default column the frame does not have.
   */
  method ConvertCrawler(fd: Table, rosterRows: seq<Row>) returns (r: Result<ColumnFrame, PyError>)
    ensures r == CrawlerFormat(fd, rosterRows)
  {
    CrawlerFormatCases(fd, rosterRows);
    ConvertedKeys(fd);
    var converted :- ConvertHead(fd, rosterRows);
    converted :- PutStatColumns(converted, fd);
    if "stance" !in fd.columns {
      return Err(KeyError("stance"));
    }
    var stance := Column(fd, "stance");
    converted := LiveApp.WriteStance(converted,
      MapCells(stance, c => Num(StanceOneHot(c)[0])), MapCells(stance, c => Num(StanceOneHot(c)[1])),
      MapCells(stance, c => Num(StanceOneHot(c)[2])), MapCells(stance, c => Num(StanceOneHot(c)[3])));
    converted := FillDefaults(converted, |fd.rows|);
    return Ok(converted);
  }

  /** The converted frame's outcome, stage by stage. */
  lemma CrawlerFormatCases(fd: Table, rosterRows: seq<Row>)
    ensures HeadError(fd, rosterRows).Some? ==> CrawlerFormat(fd, rosterRows) == Err(HeadError(fd, rosterRows).value)
    ensures HeadError(fd, rosterRows).None? && FirstMissing(fd.columns, StatColumns).Some? ==>
              CrawlerFormat(fd, rosterRows) == Err(KeyError(FirstMissing(fd.columns, StatColumns).value))
    ensures (HeadError(fd, rosterRows).None? && FirstMissing(fd.columns, StatColumns).None? &&
             "stance" !in fd.columns) ==> CrawlerFormat(fd, rosterRows) == Err(KeyError("stance"))
    ensures (HeadError(fd, rosterRows).None? && FirstMissing(fd.columns, StatColumns).None? &&
             "stance" in fd.columns) ==>
              CrawlerFormat(fd, rosterRows) ==
                Ok(HeadColumns(fd) + StatColumnsOf(fd) + StanceColumnsOf(Column(fd, "stance")) + DefaultColumns(|fd.rows|))
  {
    FirstMissingConcat(fd.columns, StatColumns, ["stance"]);
  }

  /** The head assignments go through exactly when the six columns are present and `.str` works on height, reach and weight. */
  lemma HeadErrorNone(fd: Table, rosterRows: seq<Row>)
    ensures HeadError(fd, rosterRows).None? <==>
              (forall c :: c in HeadInputs ==> c in fd.columns) &&
              forall c :: c in TextInputs ==> StrAccessorOk(fd, rosterRows, c)
  {
    assert forall c :: c in HeadInputs <==> c == "name" || c == "height" || c == "reach" || c == "weight" || c == "n_win" || c == "n_loss";
    assert forall c :: c in TextInputs <==> c == "height" || c == "reach" || c == "weight";
  }

  /** A head error is a KeyError naming an absent column, or an AttributeError from a present text column. */
  lemma HeadErrorCause(fd: Table, rosterRows: seq<Row>)
    ensures HeadError(fd, rosterRows).Some? ==>
              (exists c :: c in HeadInputs && c !in fd.columns && HeadError(fd, rosterRows).value == KeyError(c)) ||
              (HeadError(fd, rosterRows).value == AttributeError &&
               exists c :: c in TextInputs && c in fd.columns && !StrAccessorOk(fd, rosterRows, c))
  {
    var e := HeadError(fd, rosterRows);
    if e.Some? {
      if e.value.KeyError? {
        var c := e.value.key;
        assert c in HeadInputs && c !in fd.columns;
      } else {
        var c := if !StrAccessorOk(fd, rosterRows, "height") then "height"
                 else if !StrAccessorOk(fd, rosterRows, "reach") then "reach" else "weight";
        assert c in TextInputs && c in fd.columns && !StrAccessorOk(fd, rosterRows, c);
      }
    }
  }

  /** Where `.str` works on height, reach and weight, a head error is the KeyError of the first absent column. */
  lemma HeadErrorKeyError(fd: Table, rosterRows: seq<Row>)
    requires forall c :: c in TextInputs ==> StrAccessorOk(fd, rosterRows, c)
    ensures HeadError(fd, rosterRows) ==
              if FirstMissing(fd.columns, HeadInputs).Some? then Some(KeyError(FirstMissing(fd.columns, HeadInputs).value)) else None
  {
    var cols := fd.columns;
    assert TextInputs[0] == "height" && TextInputs[1] == "reach" && TextInputs[2] == "weight";
    assert StrAccessorOk(fd, rosterRows, "height") && StrAccessorOk(fd, rosterRows, "reach") && StrAccessorOk(fd, rosterRows, "weight");
    if "name" !in cols { FirstMissingAt(cols, HeadInputs, 0); }
    else if "height" !in cols { FirstMissingAt(cols, HeadInputs, 1); }
    else if "reach" !in cols { FirstMissingAt(cols, HeadInputs, 2); }
    else if "weight" !in cols { FirstMissingAt(cols, HeadInputs, 3); }
    else if "n_win" !in cols { FirstMissingAt(cols, HeadInputs, 4); }
    else if "n_loss" !in cols { FirstMissingAt(cols, HeadInputs, 5); }
    else {
      assert forall k :: 0 <= k < |HeadInputs| ==> HeadInputs[k] in cols;
    }
  }

  /** The keys of the frame after each block: distinct, and free of the next block's. */
  lemma ConvertedKeys(fd: Table)
    ensures Distinct(Keys(HeadColumns(fd)) + StatColumns)
    ensures Distinct(Keys(HeadColumns(fd) + StatColumnsOf(fd)) + StanceColumns)
    ensures Distinct(Keys(HeadColumns(fd) + StatColumnsOf(fd) + StanceColumnsOf(Column(fd, "stance"))) + TailColumns)
  {
    CrawlerColumnsBlocks();
    var h := HeadColumns(fd);
    var s := StatColumnsOf(fd);
    var st := StanceColumnsOf(Column(fd, "stance"));
    KeysConcat(h, s);
    KeysConcat(h + s, st);
  }

  /** The six head assignments (every source column checked before the first write). */
  method ConvertHead(fd: Table, rosterRows: seq<Row>) returns (r: Result<ColumnFrame, PyError>)
    ensures r == if HeadError(fd, rosterRows).Some? then Err(HeadError(fd, rosterRows).value) else Ok(HeadColumns(fd))
  {
    var cols := fd.columns;
    if "name" !in cols { return Err(KeyError("name")); }
    if "height" !in cols { return Err(KeyError("height")); }
    if !StrAccessorOk(fd, rosterRows, "height") { return Err(AttributeError); }
    if "reach" !in cols { return Err(KeyError("reach")); }
    if !StrAccessorOk(fd, rosterRows, "reach") { return Err(AttributeError); }
    if "weight" !in cols { return Err(KeyError("weight")); }
    if !StrAccessorOk(fd, rosterRows, "weight") { return Err(AttributeError); }
    if "n_win" !in cols { return Err(KeyError("n_win")); }
    if "n_loss" !in cols { return Err(KeyError("n_loss")); }
    var converted := WriteHead(
      Column(fd, "name"), MapCells(Column(fd, "height"), HeightCell), MapCells(Column(fd, "reach"), ReachCell),
      MapCells(Column(fd, "weight"), WeightCell), MapCells(Column(fd, "n_win"), ZeroFill),
      MapCells(Column(fd, "n_loss"), ZeroFill));
    return Ok(converted);
  }

  /** The six head columns written into an empty frame, given their cells. */
  method WriteHead(fighter: seq<Cell>, height: seq<Cell>, reach: seq<Cell>, weight: seq<Cell>,
                   wins: seq<Cell>, losses: seq<Cell>) returns (converted: ColumnFrame)
    ensures converted == [("fighter", fighter), ("Height_cms", height), ("Reach_cms", reach),
                          ("Weight_lbs", weight), ("wins", wins), ("losses", losses)]
  {
    converted := Put([], "fighter", fighter);
    PutFresh(converted, "Height_cms", height);
    converted := Put(converted, "Height_cms", height);
    PutFresh(converted, "Reach_cms", reach);
    converted := Put(converted, "Reach_cms", reach);
    PutFresh(converted, "Weight_lbs", weight);
    converted := Put(converted, "Weight_lbs", weight);
    PutFresh(converted, "wins", wins);
    converted := Put(converted, "wins", wins);
    PutFresh(converted, "losses", losses);
    converted := Put(converted, "losses", losses);
  }

  /** The eight statistic assignments, each reading its source column. */
  method PutStatColumns(converted: ColumnFrame, fd: Table) returns (r: Result<ColumnFrame, PyError>)
    requires Distinct(Keys(converted) + StatColumns)
    ensures r == if FirstMissing(fd.columns, StatColumns).Some?
                 then Err(KeyError(FirstMissing(fd.columns, StatColumns).value))
                 else Ok(converted + StatColumnsOf(fd))
  {
    var acc := converted;
    for j := 0 to |StatColumns|
      invariant forall k :: 0 <= k < j ==> StatColumns[k] in fd.columns
      invariant acc == converted + StatColumnsOf(fd)[..j]
    {
      var col := StatColumns[j];
      if col !in fd.columns {
        FirstMissingAt(fd.columns, StatColumns, j);
        return Err(KeyError(col));
      }
      PutNextPair(converted, StatColumnsOf(fd), j);
      acc := Put(acc, col, MapCells(Column(fd, col), ZeroFill));
    }
    assert StatColumnsOf(fd)[..|StatColumns|] == StatColumnsOf(fd);
    return Ok(acc);
  }

  /** `for col in default_columns: if col not in converted.columns: converted[col] = 0`. */
  method FillDefaults(converted: ColumnFrame, n: nat) returns (r: ColumnFrame)
    requires Distinct(Keys(converted) + TailColumns)
    ensures r == converted + DefaultColumns(n)
  {
    r := converted;
    for j := 0 to |TailColumns|
      invariant r == converted + DefaultColumns(n)[..j]
    {
      var col := TailColumns[j];
      PutNextPair(converted, DefaultColumns(n), j);
      if col !in Keys(r) {
        r := Put(r, col, Zeros(n));
      }
    }
    assert DefaultColumns(n)[..|TailColumns|] == DefaultColumns(n);
  }

  /**
    Writing pair j of a planned list into a dict that holds the dict it started from and
    the first j pairs appends the pair; its key is not there yet.
   */
  lemma PutNextPair<V>(converted: Dict<V>, pairs: Dict<V>, j: nat)
    requires Distinct(Keys(converted) + Keys(pairs)) && j < |pairs|
    ensures pairs[j].0 !in Keys(converted + pairs[..j])
    ensures Put(converted + pairs[..j], pairs[j].0, pairs[j].1) == converted + pairs[..j + 1]
  {
    var ks := Keys(converted) + Keys(pairs);
    var acc := converted + pairs[..j];
    KeysConcat(converted, pairs[..j]);
    assert Keys(acc) == ks[..|converted| + j];
    DistinctNotBefore(ks, |converted| + j);
    assert ks[|converted| + j] == pairs[j].0;
    assert pairs[..j + 1] == pairs[..j] + [pairs[j]];
  }

  /** The first missing column of a list is that of its first part, else that of the rest. */
  lemma {:induction false} FirstMissingConcat(cols: seq<string>, a: seq<string>, b: seq<string>)
    ensures FirstMissing(cols, a + b) == if FirstMissing(cols, a).Some? then FirstMissing(cols, a) else FirstMissing(cols, b)
  {
    if |a| > 0 {
      assert (a + b)[1..] == a[1..] + b;
      FirstMissingConcat(cols, a[1..], b);
    } else {
      assert a + b == b;
    }
  }

  /** With the first j columns present and column j absent, column j is the first missing one. */
  lemma {:induction false} FirstMissingAt(cols: seq<string>, needed: seq<string>, j: nat)
    requires j < |needed| && needed[j] !in cols
    requires forall k :: 0 <= k < j ==> needed[k] in cols
    ensures FirstMissing(cols, needed) == Some(needed[j])
  {
    if j > 0 {
      FirstMissingAt(cols, needed[1..], j - 1);
    }
  }

  /** The converted columns are distinct and fall into the four written blocks. */
  lemma CrawlerColumnsBlocks()
    ensures Distinct(CrawlerColumns)
    ensures CrawlerColumns == ["fighter"] + LiveHead + StatColumns + StanceColumns + TailColumns
    ensures Distinct(["fighter"] + LiveHead + StatColumns)
    ensures Distinct(["fighter"] + LiveHead + StatColumns + StanceColumns)
    ensures Distinct(["fighter"] + LiveHead + StatColumns + StanceColumns + TailColumns)
  {
    LiveColumnsDistinct();
    LiveColumnsBlocks();
    assert "fighter" !in LiveColumns;
    assert CrawlerColumns == ["fighter"] + LiveColumns;
    assert LiveColumns == LiveHead + StatColumns + StanceColumns + TailColumns;
    assert ["fighter"] + LiveHead + StatColumns + StanceColumns + TailColumns == CrawlerColumns;
    assert ["fighter"] + LiveHead + StatColumns == CrawlerColumns[..14];
    assert ["fighter"] + LiveHead + StatColumns + StanceColumns == CrawlerColumns[..18];
    DistinctLeft(CrawlerColumns[..14], CrawlerColumns[14..]);
    DistinctLeft(CrawlerColumns[..18], CrawlerColumns[18..]);
  }

  // Properties of the conversion.

  /** Every column of a frame holds n cells. */
  predicate Rectangular(f: ColumnFrame, n: nat) {
    forall k :: 0 <= k < |f| ==> |f[k].1| == n
  }

  /**
    The conversion fails exactly when a column it reads is absent or `.str` fails on height,
    reach or weight; the error is a KeyError naming an absent column or that AttributeError.
   */
  lemma CrawlerFormatFails(fd: Table, rosterRows: seq<Row>)
    ensures CrawlerFormat(fd, rosterRows).Err? <==>
              (exists c :: c in HeadInputs + StatColumns + ["stance"] && c !in fd.columns) ||
              exists c :: c in TextInputs && !StrAccessorOk(fd, rosterRows, c)
    ensures CrawlerFormat(fd, rosterRows).Err? ==>
              (exists c :: c in HeadInputs + StatColumns + ["stance"] && c !in fd.columns &&
                           CrawlerFormat(fd, rosterRows).error == KeyError(c)) ||
              (CrawlerFormat(fd, rosterRows).error == AttributeError &&
               exists c :: c in TextInputs && c in fd.columns && !StrAccessorOk(fd, rosterRows, c))
  {
    HeadErrorNone(fd, rosterRows);
    HeadErrorCause(fd, rosterRows);
    var rest := StatColumns + ["stance"];
    var needed := HeadInputs + rest;
    assert forall c :: c in needed <==> c in HeadInputs || c in rest;
    if FirstMissing(fd.columns, rest).None? {
      assert forall c :: c in rest ==> c in fd.columns by {
        forall c | c in rest ensures c in fd.columns {
          var k :| 0 <= k < |rest| && rest[k] == c;
        }
      }
    }
  }


  lemma RectangularConcat(f: ColumnFrame, g: ColumnFrame, n: nat)
    requires Rectangular(f, n) && Rectangular(g, n)
    ensures Rectangular(f + g, n)
  {
    assert forall k :: |f| <= k < |f + g| ==> (f + g)[k] == g[k - |f|];
  }

  /** A successful conversion is the four blocks in order. */
  lemma CrawlerFormatOk(fd: Table, rosterRows: seq<Row>)
    requires CrawlerFormat(fd, rosterRows).Ok?
    ensures CrawlerFormat(fd, rosterRows).value == ConvertedBlocks(fd)
  {
  }

  /** All twelve default columns, age among them, hold only zeros. */
  lemma CrawlerDefaultsZero(fd: Table, rosterRows: seq<Row>)
    requires CrawlerFormat(fd, rosterRows).Ok?
    ensures CrawlerFormat(fd, rosterRows).value[29].0 == "age"
    ensures forall k, i :: 18 <= k < 30 && 0 <= i < |CrawlerFormat(fd, rosterRows).value[k].1| ==>
                           CrawlerFormat(fd, rosterRows).value[k].1[i] == Num(0.0)
  {
    CrawlerFormatOk(fd, rosterRows);
    BlocksDefaultsZero(fd);
  }

  /** The last twelve converted columns are the default block. */
  lemma BlocksDefaultsZero(fd: Table)
    ensures ConvertedBlocks(fd)[29].0 == "age"
    ensures forall k, i :: 18 <= k < 30 && 0 <= i < |ConvertedBlocks(fd)[k].1| ==> ConvertedBlocks(fd)[k].1[i] == Num(0.0)
  {
    var h, s, st, d := HeadColumns(fd), StatColumnsOf(fd), StanceColumnsOf(Column(fd, "stance")), DefaultColumns(|fd.rows|);
    var v := h + s + st + d;
    assert v == ConvertedBlocks(fd);
    assert |h| == 6 && |s| == 8 && |st| == 4 && |d| == 12;
    assert forall k :: 18 <= k < 30 ==> v[k] == d[k - 18];
  }

  /** Row i of the stance columns is the one-hot encoding of row i's stance. */
  lemma CrawlerStance(fd: Table, rosterRows: seq<Row>, i: nat)
    requires CrawlerFormat(fd, rosterRows).Ok? && i < |fd.rows|
    ensures forall k :: 14 <= k < 18 ==>
              CrawlerFormat(fd, rosterRows).value[k].1[i] ==
                Num(if k - 14 == StanceIndex(Get(fd.rows[i], "stance", Missing)) then 1.0 else 0.0)
  {
    CrawlerFormatOk(fd, rosterRows);
    BlocksStance(fd, i);
  }

  /** Columns 14 to 17 of the converted blocks are the stance block. */
  lemma BlocksStance(fd: Table, i: nat)
    requires i < |fd.rows|
    ensures forall k :: 14 <= k < 18 ==>
              ConvertedBlocks(fd)[k].1[i] == Num(if k - 14 == StanceIndex(Get(fd.rows[i], "stance", Missing)) then 1.0 else 0.0)
  {
    var h, s, st, d := HeadColumns(fd), StatColumnsOf(fd), StanceColumnsOf(Column(fd, "stance")), DefaultColumns(|fd.rows|);
    var v := h + s + st + d;
    assert v == ConvertedBlocks(fd);
    assert |h| == 6 && |s| == 8 && |st| == 4;
    assert forall k :: 14 <= k < 18 ==> v[k] == st[k - 14];
    StanceOneHotExactlyOne(Get(fd.rows[i], "stance", Missing));
  }

  /** A height of the form `F' I` (then nothing or a non-digit) converts to F * 30.48 + I * 2.54 cm. */
  lemma HeightCellForm(feet: string, inches: string, tail: string)
    requires IsDigitString(feet) && IsDigitString(inches)
    requires |tail| == 0 || !IsDigit(tail[0])
    ensures HeightCell(Str(feet + "' " + inches + tail)) ==
              Num(FeetInchesToCm(DigitsValue(feet) as real, DigitsValue(inches) as real))
  {
    HeightMatchForm(feet, inches, tail);
  }

  /** A converted height comes from a `F' I` pattern inside the source text; anything else is NaN. */
  lemma HeightCellSound(c: Cell)
    ensures HeightCell(c).Num? ==>
              exists feet, inches :: IsDigitString(feet) && IsDigitString(inches) &&
                Contains(c.s, feet + "' " + inches) &&
                HeightCell(c) == Num(FeetInchesToCm(DigitsValue(feet) as real, DigitsValue(inches) as real))
    ensures !HeightCell(c).Num? ==> HeightCell(c) == Missing
  {
    if HeightCell(c).Num? {
      HeightMatchOccurs(c.s);
      var m := HeightMatch(c.s).value;
      assert IsDigitString(m.0) && IsDigitString(m.1) && Contains(c.s, m.0 + "' " + m.1);
    }
  }

  /**
    Reach and weight read the first digit run: with the first digit at position i, reach is
    that run in inches times 2.54 and weight is the run itself; text without a digit is NaN.
   */
  lemma ReachWeightCells(s: string, i: nat)
    requires i < |s| && IsDigit(s[i]) && forall k :: 0 <= k < i ==> !IsDigit(s[k])
    ensures ReachCell(Str(s)) == Num(InchesToCm(DigitsValue(DigitRun(s[i..])) as real))
    ensures WeightCell(Str(s)) == Num(DigitsValue(DigitRun(s[i..])) as real)
  {
    FirstDigitRunAt(s, i);
  }

  /** Reach and weight are NaN exactly for a non-string or a text without any digit. */
  lemma ReachWeightMissing(c: Cell)
    ensures ReachCell(c) == Missing <==> !c.Str? || forall k :: 0 <= k < |c.s| ==> !IsDigit(c.s[k])
    ensures WeightCell(c) == Missing <==> !c.Str? || forall k :: 0 <= k < |c.s| ==> !IsDigit(c.s[k])
  {
  }

  // ---------------------------------------------------------------------------------------
  // predict_fight
  // ---------------------------------------------------------------------------------------

  /** Row i of a column frame: cell i of every column, in column order. */
  function RowOf(f: ColumnFrame, i: nat): (r: seq<Cell>)
    requires forall k :: 0 <= k < |f| ==> i < |f[k].1|
    ensures |r| == |f| && forall k :: 0 <= k < |f| ==> r[k] == f[k].1[i]
  {
    seq(|f|, k requires 0 <= k < |f| => f[k].1[i])
  }

  /**
    `combined.values` for two one-row converted frames: each without its first (`fighter`)
    column, Blue's cells before Red's, every NaN replaced by 0.
   */
  function Features(c1: ColumnFrame, c2: ColumnFrame): (m: Matrix)
    requires |c1| > 0 && |c2| > 0 && Rectangular(c1, 1) && Rectangular(c2, 1)
    ensures |m| == 1 && |m[0]| == |c1| - 1 + |c2| - 1
    ensures forall k :: 0 <= k < |m[0]| ==> !m[0][k].Missing?
  {
    [MapCells(RowOf(c1[1..], 0) + RowOf(c2[1..], 0), ZeroFill)]
  }

  /** The analysis block: the record cells, the striking and takedown rates and the stance. */
  datatype FighterStats = FighterStats(wins: Cell, losses: Cell, draws: Cell, sigStrPM: Cell, tdAvg: Cell, stance: Cell)

  /** `fighter1_stats` / `fighter2_stats`, read from the found row; `n_draw` is 0 when the roster has no such column. */
  function StatsOf(t: Table): (s: FighterStats)
    requires |t.rows| > 0
    ensures s.draws == if "n_draw" in t.columns then Get(t.rows[0], "n_draw", Missing) else Num(0.0)
  {
    var row := t.rows[0];
    FighterStats(Get(row, "n_win", Missing), Get(row, "n_loss", Missing),
                 if "n_draw" in t.columns then Get(row, "n_draw", Missing) else Num(0.0),
                 Get(row, "sig_str_land_pM", Missing), Get(row, "td_avg", Missing), Get(row, "stance", Missing))
  }

  /** The dict `predict_fight` returns: a prediction, or the error that was raised; either way both names. */
  datatype CardPrediction =
    | Picked(winner: string, loser: string, confidence: Option<real>, fighter1: string, fighter2: string,
                stats1: FighterStats, stats2: FighterStats)
    | Raised(error: PyError, fighter1: string, fighter2: string)

  // Properties of predict_fight.

  /** The features fail with the first error raised: a missing roster, then each lookup in turn. */
  lemma FightFeaturesFails(p: Predictor, fighter1: string, fighter2: string)
    ensures p.roster.None? ==> p.FightFeatures(fighter1, fighter2) == Err(DataNotLoaded)
    ensures Find(p.roster, fighter1).Err? ==> p.FightFeatures(fighter1, fighter2) == Err(Find(p.roster, fighter1).error)
    ensures Find(p.roster, fighter1).Ok? && Find(p.roster, fighter2).Err? ==>
              p.FightFeatures(fighter1, fighter2) == Err(Find(p.roster, fighter2).error)
    ensures Find(p.roster, fighter1).Ok? && Find(p.roster, fighter2).Ok? ==>
              (p.FightFeatures(fighter1, fighter2).Err? <==>
                 "name" !in p.roster.value.columns ||
                 CrawlerFormat(Find(p.roster, fighter1).value, p.roster.value.rows).Err? ||
                 CrawlerFormat(Find(p.roster, fighter2).value, p.roster.value.rows).Err?)
  {
  }

  /** A successful feature step converted both found rows and combined the conversions. */
  lemma FightFeaturesParts(p: Predictor, fighter1: string, fighter2: string)
    requires p.FightFeatures(fighter1, fighter2).Ok?
    ensures var (found1, found2, features) := p.FightFeatures(fighter1, fighter2).value;
            && |found1.rows| == 1 && |found2.rows| == 1
            && CrawlerFormat(found1, p.roster.value.rows).Ok? && CrawlerFormat(found2, p.roster.value.rows).Ok?
            && features == Features(CrawlerFormat(found1, p.roster.value.rows).value, CrawlerFormat(found2, p.roster.value.rows).value)
  {
    var found1, found2 := Find(p.roster, fighter1).value, Find(p.roster, fighter2).value;
    var c1, c2 := CrawlerFormat(found1, p.roster.value.rows), CrawlerFormat(found2, p.roster.value.rows);
    assert c1.Ok? && c2.Ok?;
    assert p.FightFeatures(fighter1, fighter2) == Ok((found1, found2, Features(c1.value, c2.value)));
  }

  /**
    The feature row: Blue's 29 converted values (the `fighter` column dropped) before Red's,
    labelled with the live model's B_ then R_ columns, NaN read as 0, and every default column
    (age included) 0 on both sides.
   */
  lemma FeaturesLayout(fd1: Table, fd2: Table, rosterRows: seq<Row>)
    requires CrawlerFormat(fd1, rosterRows).Ok? && CrawlerFormat(fd2, rosterRows).Ok? && |fd1.rows| == 1 && |fd2.rows| == 1
    ensures var c1, c2 := CrawlerFormat(fd1, rosterRows).value, CrawlerFormat(fd2, rosterRows).value;
            && Keys(c1[1..]) == LiveColumns && Keys(c2[1..]) == LiveColumns
            && Prefixed("B_", Keys(c1[1..])) + Prefixed("R_", Keys(c2[1..])) == Prefixed("B_", LiveColumns) + Prefixed("R_", LiveColumns)
            && Features(c1, c2)[0][..29] == MapCells(RowOf(c1[1..], 0), ZeroFill)
            && Features(c1, c2)[0][29..] == MapCells(RowOf(c2[1..], 0), ZeroFill)
            && forall k :: (17 <= k < 29 || 46 <= k < 58) ==> Features(c1, c2)[0][k] == Num(0.0)
  {
    var c1, c2 := CrawlerFormat(fd1, rosterRows).value, CrawlerFormat(fd2, rosterRows).value;
    TailKeys(c1);
    TailKeys(c2);
    CrawlerDefaultsZero(fd1, rosterRows);
    CrawlerDefaultsZero(fd2, rosterRows);
    FeaturesHalves(c1, c2);
    FeaturesZeros(c1, c2);
  }

  /** The feature row is Blue's cells (first column dropped) then Red's, NaN read as 0. */
  lemma FeaturesHalves(c1: ColumnFrame, c2: ColumnFrame)
    requires |c1| > 0 && |c2| > 0 && Rectangular(c1, 1) && Rectangular(c2, 1)
    ensures Features(c1, c2)[0][..|c1| - 1] == MapCells(RowOf(c1[1..], 0), ZeroFill)
    ensures Features(c1, c2)[0][|c1| - 1..] == MapCells(RowOf(c2[1..], 0), ZeroFill)
  {
    var row := RowOf(c1[1..], 0) + RowOf(c2[1..], 0);
    assert Features(c1, c2)[0] == MapCells(row, ZeroFill);
  }

  /** Columns 18 to 29 of each converted frame (the defaults) are 0 in the feature row. */
  lemma FeaturesZeros(c1: ColumnFrame, c2: ColumnFrame)
    requires |c1| == 30 && |c2| == 30 && Rectangular(c1, 1) && Rectangular(c2, 1)
    requires forall k, i :: 18 <= k < 30 && 0 <= i < |c1[k].1| ==> c1[k].1[i] == Num(0.0)
    requires forall k, i :: 18 <= k < 30 && 0 <= i < |c2[k].1| ==> c2[k].1[i] == Num(0.0)
    ensures forall k :: (17 <= k < 29 || 46 <= k < 58) ==> Features(c1, c2)[0][k] == Num(0.0)
  {
    var row := RowOf(c1[1..], 0) + RowOf(c2[1..], 0);
    assert Features(c1, c2)[0] == MapCells(row, ZeroFill);
    forall k | 17 <= k < 29 || 46 <= k < 58 ensures Features(c1, c2)[0][k] == Num(0.0) {
      if k < 29 {
        assert row[k] == c1[k + 1].1[0];
      } else {
        assert row[k] == c2[k - 28].1[0];
      }
    }
  }

  /** Dropping the first column of a converted frame leaves the live model's 29 columns. */
  lemma TailKeys(c: ColumnFrame)
    requires Keys(c) == CrawlerColumns
    ensures Keys(c[1..]) == LiveColumns
  {
    assert Keys(c[1..]) == Keys(c)[1..];
  }

  /**
    The outcome: an error exactly when a step raised, naming that step's error; otherwise
    prediction 1 makes fighter1 the winner (and fighter2 otherwise), the confidence is the
    largest probability as a percentage when there are probabilities, and the analysis is
    read from the two found rows.
   */
  lemma PredictFightOutcome(p: Predictor, fighter1: string, fighter2: string)
    ensures var r := p.PredictFight(fighter1, fighter2);
            var ff := p.FightFeatures(fighter1, fighter2);
            && (ff.Err? ==> r == Raised(ff.error, fighter1, fighter2))
            && (ff.Ok? && p.model.None? ==> r == Raised(AttributeError, fighter1, fighter2))
            && (ff.Ok? && p.model.Some? && p.model.value.predict(ff.value.2).None? ==>
                  r == Raised(ModelError, fighter1, fighter2))
            && (r.Picked? <==> ff.Ok? && p.model.Some? && p.model.value.predict(ff.value.2).Some?)
    ensures var r := p.PredictFight(fighter1, fighter2);
            var ff := p.FightFeatures(fighter1, fighter2);
            r.Picked? ==>
              && (fighter1 != fighter2 ==> (r.winner == fighter1 <==> p.model.value.predict(ff.value.2) == Some(1)))
              && (r.confidence.Some? <==> p.model.value.proba(ff.value.2).Some? && |p.model.value.proba(ff.value.2).value| > 0)
              && r.confidence == Confidence(p.model.value.proba(ff.value.2))
              && r.stats1 == StatsOf(ff.value.0) && r.stats2 == StatsOf(ff.value.1)
              && ff.value.0.rows[0] in p.roster.value.rows && ff.value.1.rows[0] in p.roster.value.rows
  {
    var r := p.PredictFight(fighter1, fighter2);
    var ff := p.FightFeatures(fighter1, fighter2);
    if r.Picked? {
      assert ff.Ok? && p.model.Some?;
      var pr := p.model.value.predict(ff.value.2);
      assert pr.Some?;
      assert r.winner == if pr.value == 1 then fighter1 else fighter2;
      assert r.confidence == Confidence(p.model.value.proba(ff.value.2));
    }
  }

  /**
    A roster whose height, reach or weight column holds no string (all NaN, or plain
    numbers) makes every prediction from it end in the "Prediction failed" result.
   */
  lemma TextFreeColumnFails(p: Predictor, fighter1: string, fighter2: string, c: string)
    requires p.roster.Some? && c in TextInputs && !StrColumn(p.roster.value.rows, c)
    ensures p.PredictFight(fighter1, fighter2).Raised?
  {
    var ff := p.FightFeatures(fighter1, fighter2);
    if Find(p.roster, fighter1).Ok? && Find(p.roster, fighter2).Ok? && "name" in p.roster.value.columns {
      var found1 := Find(p.roster, fighter1).value;
      assert !StrAccessorOk(found1, p.roster.value.rows, c);
      CrawlerFormatFails(found1, p.roster.value.rows);
      FightFeaturesFails(p, fighter1, fighter2);
    }
    assert ff.Err?;
  }
}
