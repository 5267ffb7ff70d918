/**
  The Streamlit application in UFC-Prediction/app/app/app.py: unit converters with fixed
  fallbacks, the mapping of crawler rows into the legacy training schema, the Blue/Red
  sample built from two roster IDs, and the decision shown to the user.
 */
module LegacyApp {

  import opened Wrappers
  import opened Text
  import opened Numerals
  import opened Frames
  import opened Schema

  /** `convert_height`: `F'I` (inch marks dropped) to centimetres; 180.0 on any failure. */
  function ConvertHeight(c: Cell): real {
    if c.Str? && '\'' in c.s then
      var parts := Split(RemoveChar(c.s, '"'), '\'');
      if |parts| == 2 then FeetInches(parts[0], parts[1]) else 180.0
    else 180.0
  }

  const CmPerInch: real := 2.54

  function InchesToCm(inches: real): real {
    inches * CmPerInch
  }

  function FeetInchesToCm(feet: real, inches: real): real {
    feet * 30.48 + inches * CmPerInch
  }

  /** The two pieces around the apostrophe as centimetres, 180.0 when either is not a number. */
  function FeetInches(feet: string, inches: string): real {
    match (ParseFloat(feet), ParseFloat(Strip(inches)))
    case (Some(f), Some(i)) => FeetInchesToCm(f, i)
    case _ => 180.0
  }

  /** The string `convert_reach` tests with `isdigit`: inch marks and hyphens gone, trimmed. */
  function ReachCheck(s: string): string {
    Strip(RemoveChar(RemoveChar(s, '-'), '"'))
  }

  /**
    `convert_reach`: digits (inch marks allowed) to centimetres, 180.0 when the check fails.
    The conversion drops only the inch marks, so a hyphen that passes the check can make
    `float` raise ValueError, which is not caught.
   */
  function ConvertReach(c: Cell): Result<real, PyError> {
    if c.Str? && IsDigitString(ReachCheck(c.s)) then
      match ParseFloat(RemoveChar(c.s, '"'))
      case Some(v) => Ok(InchesToCm(v))
      case None => Err(ValueError)
    else Ok(180.0)
  }

  /** `convert_weight`: the number formed by every digit of the string; 170.0 when there is none. */
  function ConvertWeight(c: Cell): real {
    if c.Str? then
      match ParseFloat(FilterDigits(c.s))
      case Some(v) => v
      case None => 170.0
    else 170.0
  }

  /** A height `F'I` (after inch marks are dropped) is converted from its two pieces. */
  lemma HeightPieces(s: string, feet: string, inches: string)
    requires RemoveChar(s, '"') == feet + "'" + inches
    requires '\'' !in feet && '\'' !in inches
    ensures ConvertHeight(Str(s)) == FeetInches(feet, inches)
  {
    HeightSplit(s, feet, inches);
  }

  lemma HeightSplit(s: string, feet: string, inches: string)
    requires RemoveChar(s, '"') == feet + "'" + inches
    requires '\'' !in feet && '\'' !in inches
    ensures '\'' in s && Split(RemoveChar(s, '"'), '\'') == [feet, inches]
  {
    assert (feet + "'" + inches)[|feet|] == '\'';
    RemoveCharMembers(s, '"');
    SplitJoin(feet, inches, '\'');
    SplitNoSeparator(inches, '\'');
  }

  /** Two numeric pieces are F feet and I inches in centimetres. */
  lemma FeetInchesValue(feet: string, inches: string, f: real, i: real)
    requires ParseFloat(feet) == Some(f) && ParseFloat(Strip(inches)) == Some(i)
    ensures FeetInches(feet, inches) == FeetInchesToCm(f, i)
  {
  }

  /** A height written `F'I` with numeric parts is F feet and I inches in centimetres. */
  lemma HeightFeetInches(s: string, feet: string, inches: string, f: real, i: real)
    requires RemoveChar(s, '"') == feet + "'" + inches
    requires '\'' !in feet && '\'' !in inches
    requires ParseFloat(feet) == Some(f) && ParseFloat(Strip(inches)) == Some(i)
    ensures ConvertHeight(Str(s)) == FeetInchesToCm(f, i)
  {
    HeightPieces(s, feet, inches);
    FeetInchesValue(feet, inches, f, i);
  }

  /** Without exactly one apostrophe (after inch marks are dropped) the height is 180.0. */
  lemma HeightNeedsOneApostrophe(s: string)
    requires multiset(RemoveChar(s, '"'))['\''] != 1
    ensures ConvertHeight(Str(s)) == 180.0
  {
    SplitCount(RemoveChar(s, '"'), '\'');
  }

  /** Either part failing to parse puts the height at 180.0. */
  lemma HeightNeedsNumbers(s: string, feet: string, inches: string)
    requires RemoveChar(s, '"') == feet + "'" + inches
    requires '\'' !in feet && '\'' !in inches
    requires ParseFloat(feet).None? || ParseFloat(Strip(inches)).None?
    ensures ConvertHeight(Str(s)) == 180.0
  {
    HeightPieces(s, feet, inches);
  }

  /** A reach made of digits (inch marks and surrounding blanks allowed) is that many inches. */
  lemma ReachDigits(s: string)
    requires IsDigitString(Strip(RemoveChar(s, '"')))
    ensures ConvertReach(Str(s)) == Ok(InchesToCm(DigitsValue(Strip(RemoveChar(s, '"'))) as real))
  {
    ReachCheckOfDigits(s);
    ParseDigits(RemoveChar(s, '"'));
    ConvertReachParsed(s, DigitsValue(Strip(RemoveChar(s, '"'))) as real);
  }

  /** A reach that passes the check and parses converts that number. */
  lemma ConvertReachParsed(s: string, v: real)
    requires IsDigitString(ReachCheck(s)) && ParseFloat(RemoveChar(s, '"')) == Some(v)
    ensures ConvertReach(Str(s)) == Ok(InchesToCm(v))
  {
  }

  lemma ReachCheckOfDigits(s: string)
    requires IsDigitString(Strip(RemoveChar(s, '"')))
    ensures ReachCheck(s) == Strip(RemoveChar(s, '"'))
  {
    var x := RemoveChar(s, '"');
    assert '-' !in x by {
      StripDigitsOnly(x);
      forall k | 0 <= k < |x| ensures x[k] != '-' {
      }
    }
    assert RemoveChar(x, '-') == x;
    assert RemoveChar(RemoveChar(s, '-'), '"') == RemoveChar(x, '-') by {
      RemoveCharCommutes(s, '-', '"');
    }
  }

  /**
    A hyphen between two digit runs passes the check (which drops hyphens) and then makes
    the conversion (which keeps them) raise ValueError.
   */
  lemma ReachHyphenRaises(a: string, b: string)
    requires IsDigitString(a) && IsDigitString(b)
    ensures ConvertReach(Str(a + "-" + b)) == Err(ValueError)
  {
    ReachCheckOfHyphen(a, b);
    ParseHyphenFails(a, b);
  }

  lemma ReachCheckOfHyphen(a: string, b: string)
    requires IsDigitString(a) && IsDigitString(b)
    ensures IsDigitString(ReachCheck(a + "-" + b))
    ensures RemoveChar(a + "-" + b, '"') == a + "-" + b
  {
    HyphenedDigits(a, b);
    HyphenRemoved(a, b);
    assert RemoveChar(a + b, '"') == a + b;
    StripNoSpaceEnds(a + b);
  }

  lemma HyphenRemoved(a: string, b: string)
    requires IsDigitString(a) && IsDigitString(b)
    ensures RemoveChar(a + "-" + b, '-') == a + b
  {
    RemoveCharAppend(a + "-", b, '-');
    RemoveCharAppend(a, "-", '-');
    assert '-' !in a && '-' !in b;
  }

  /** Every character of `a-b` but the hyphen is a digit. */
  lemma HyphenedDigits(a: string, b: string)
    requires IsDigitString(a) && IsDigitString(b)
    ensures forall k :: 0 <= k < |a + "-" + b| && k != |a| ==> IsDigit((a + "-" + b)[k])
    ensures (a + "-" + b)[|a|] == '-'
    ensures IsDigitString(a + b)
  {
    var s := a + "-" + b;
    forall k | 0 <= k < |s| && k != |a| ensures IsDigit(s[k]) {
      if k < |a| { assert s[k] == a[k]; } else { assert s[k] == b[k - |a| - 1]; }
    }
    var t := a + b;
    forall k | 0 <= k < |t| ensures IsDigit(t[k]) {
      if k < |a| { assert t[k] == a[k]; } else { assert t[k] == b[k - |a|]; }
    }
  }

  lemma ParseHyphenFails(a: string, b: string)
    requires IsDigitString(a) && IsDigitString(b)
    ensures ParseFloat(a + "-" + b) == None
  {
    var s := a + "-" + b;
    HyphenedDigits(a, b);
    assert s[0] == a[0] && s[|s| - 1] == b[|b| - 1];
    StripNoSpaceEnds(s);
    assert '.' !in s by {
      forall k | 0 <= k < |s| ensures s[k] != '.' {
      }
    }
    assert !IsDigit(s[|a|]);
    ParseIntegerNotDigits(s);
  }

  /** A weight is the number its digits spell, or 170.0 when it has none. */
  lemma WeightDigits(s: string)
    ensures ConvertWeight(Str(s)) == if FilterDigits(s) == [] then 170.0 else DigitsValue(FilterDigits(s)) as real
  {
    var d := FilterDigits(s);
    if d != [] {
      StripNoSpaceEnds(d);
      ParseDigits(d);
    } else {
      ParseNeedsDigit(d);
    }
  }

  /** The columns of the table `load_live_data` builds, in assignment order. */
  const LegacyColumns: seq<string> := LegacyHead + StatColumns + StanceColumns + TailColumns

  /**
    The live load raises, and the static table is used instead, when the crawler table has
    no `name` column, lacks a statistics column (`df.get(col, 0).fillna` on the int 0), or has
    a reach that makes `convert_reach` raise.
   */
  predicate LiveLoadFails(df: Table) {
    || "name" !in df.columns
    || (exists c :: c in StatColumns && c !in df.columns)
    || (exists i :: 0 <= i < |df.rows| && ConvertReach(Get(df.rows[i], "reach", Str(""))).Err?)
  }

  /** The stance label of a crawler row; every row is Orthodox when the column is absent. */
  function StanceOf(df: Table, src: Row): Cell {
    if "stance" in df.columns then Get(src, "stance", Missing) else Str("Orthodox")
  }

  /** A win/loss count: the crawler column, or 0 when the table does not have it. */
  function CountOf(df: Table, src: Row, col: string): Cell {
    if col in df.columns then Get(src, col, Missing) else Num(0.0)
  }

  /** The physical and record columns `load_live_data` writes first, in assignment order. */
  const LegacyHead: seq<string> := ["fighter", "wins", "losses", "Height_cms", "Reach_cms", "Weight_lbs"]

  /**
    The column assignments `load_live_data` makes for crawler row src, in order, before the
    final `fillna(0)`; `reach` is the converted reach of that row.
   */
  function LegacyPairs(df: Table, src: Row, reach: real): (d: Dict<Cell>)
    ensures Keys(d) == LegacyColumns
  {
    var stance := StanceOneHot(StanceOf(df, src));
    var head :=
      [ ("fighter", Get(src, "name", Missing)),
        ("wins", CountOf(df, src, "n_win")),
        ("losses", CountOf(df, src, "n_loss")),
        ("Height_cms", Num(ConvertHeight(Get(src, "height", Str(""))))),
        ("Reach_cms", Num(reach)),
        ("Weight_lbs", Num(ConvertWeight(Get(src, "weight", Str(""))))) ];
    var stats := seq(8, j requires 0 <= j < 8 => (StatColumns[j], FillNa(Get(src, StatColumns[j], Missing), Num(0.0))));
    var stances := seq(4, j requires 0 <= j < 4 => (StanceColumns[j], Num(stance[j])));
    var tail := seq(12, j requires 0 <= j < 12 => (TailColumns[j], Num(TailDefault(TailColumns[j]))));
    assert Keys(head) == LegacyHead;
    assert Keys(stats) == StatColumns;
    assert Keys(stances) == StanceColumns;
    assert Keys(tail) == TailColumns;
    KeysConcat(head, stats);
    KeysConcat(head + stats, stances);
    KeysConcat(head + stats + stances, tail);
    var d := head + stats + stances + tail;
    d
  }

  /** The assignments of LegacyPairs one by one. */
  lemma LegacyPairsAt(df: Table, src: Row, reach: real)
    ensures var d := LegacyPairs(df, src, reach);
      && |d| == 30
      && d[0] == ("fighter", Get(src, "name", Missing))
      && d[1] == ("wins", CountOf(df, src, "n_win"))
      && d[2] == ("losses", CountOf(df, src, "n_loss"))
      && d[3] == ("Height_cms", Num(ConvertHeight(Get(src, "height", Str("")))))
      && d[4] == ("Reach_cms", Num(reach))
      && d[5] == ("Weight_lbs", Num(ConvertWeight(Get(src, "weight", Str("")))))
      && (forall j :: 0 <= j < 8 ==> d[6 + j] == (StatColumns[j], FillNa(Get(src, StatColumns[j], Missing), Num(0.0))))
      && (forall j :: 0 <= j < 4 ==> d[14 + j] == (StanceColumns[j], Num(StanceOneHot(StanceOf(df, src))[j])))
      && (forall j :: 0 <= j < 12 ==> d[18 + j] == (TailColumns[j], Num(TailDefault(TailColumns[j]))))
  {
  }

  /** The legacy row built from crawler row src: every assignment made, then NaN filled with 0. */
  function LegacyRow(df: Table, src: Row, reach: real): Row {
    FillRow(ToRow(LegacyPairs(df, src, reach)), Num(0.0))
  }

  /** What `load_live_data` puts in the legacy row built from crawler row `src`. */
  predicate IsLegacyRow(df: Table, src: Row, r: Row) {
    var reach := ConvertReach(Get(src, "reach", Str("")));
    reach.Ok? && r == LegacyRow(df, src, reach.value)
  }

  /** The per-row part of `load_live_data`: one column after another, then the defaults, then `fillna(0)`. */
  method LegacyRowOf(df: Table, src: Row) returns (r: Row)
    requires ConvertReach(Get(src, "reach", Str(""))).Ok?
    ensures IsLegacyRow(df, src, r)
  {
    var reach := ConvertReach(Get(src, "reach", Str(""))).value;
    ghost var d := LegacyPairs(df, src, reach);
    LegacyPairsAt(df, src, reach);
    r := WriteColumns(df, src, reach, d);
    r := FillRow(r, Num(0.0));
  }

  /** Every column assignment of `load_live_data`, in order, given the planned pairs d. */
  method WriteColumns(df: Table, src: Row, reach: real, ghost d: Dict<Cell>) returns (r: Row)
    requires |d| == 30
    requires d[0] == ("fighter", Get(src, "name", Missing))
    requires d[1] == ("wins", CountOf(df, src, "n_win"))
    requires d[2] == ("losses", CountOf(df, src, "n_loss"))
    requires d[3] == ("Height_cms", Num(ConvertHeight(Get(src, "height", Str("")))))
    requires d[4] == ("Reach_cms", Num(reach))
    requires d[5] == ("Weight_lbs", Num(ConvertWeight(Get(src, "weight", Str("")))))
    requires forall j :: 0 <= j < 8 ==> d[6 + j] == (StatColumns[j], FillNa(Get(src, StatColumns[j], Missing), Num(0.0)))
    requires forall j :: 0 <= j < 4 ==> d[14 + j] == (StanceColumns[j], Num(StanceOneHot(StanceOf(df, src))[j]))
    requires forall j :: 0 <= j < 12 ==> d[18 + j] == (TailColumns[j], Num(TailDefault(TailColumns[j])))
    ensures r == ToRow(d)
  {
    r := WriteHead(df, src, reach, d);
    r := WriteStats(r, src, d);
    r := WriteStance(r, StanceOf(df, src), d);
    r := WriteTail(r, d);
    assert d[..30] == d;
  }

  /** The first six assignments of `load_live_data`, as positions 0 to 5 of d. */
  method WriteHead(df: Table, src: Row, reach: real, ghost d: Dict<Cell>) returns (r: Row)
    requires |d| == 30
    requires d[0] == ("fighter", Get(src, "name", Missing))
    requires d[1] == ("wins", CountOf(df, src, "n_win"))
    requires d[2] == ("losses", CountOf(df, src, "n_loss"))
    requires d[3] == ("Height_cms", Num(ConvertHeight(Get(src, "height", Str("")))))
    requires d[4] == ("Reach_cms", Num(reach))
    requires d[5] == ("Weight_lbs", Num(ConvertWeight(Get(src, "weight", Str("")))))
    ensures r == ToRow(d[..6])
  {
    r := map[];
    assert d[..0] == [];
    ToRowStep(d, 0);
    r := r["fighter" := Get(src, "name", Missing)];
    ToRowStep(d, 1);
    r := r["wins" := CountOf(df, src, "n_win")];
    ToRowStep(d, 2);
    r := r["losses" := CountOf(df, src, "n_loss")];
    ToRowStep(d, 3);
    r := r["Height_cms" := Num(ConvertHeight(Get(src, "height", Str(""))))];
    ToRowStep(d, 4);
    r := r["Reach_cms" := Num(reach)];
    ToRowStep(d, 5);
    r := r["Weight_lbs" := Num(ConvertWeight(Get(src, "weight", Str(""))))];
  }

  /** The eight statistics of `load_live_data`, NaN read as 0, as positions 6 to 13 of d. */
  method WriteStats(r: Row, src: Row, ghost d: Dict<Cell>) returns (r': Row)
    requires |d| == 30 && r == ToRow(d[..6])
    requires forall j :: 0 <= j < 8 ==> d[6 + j] == (StatColumns[j], FillNa(Get(src, StatColumns[j], Missing), Num(0.0)))
    ensures r' == ToRow(d[..14])
  {
    r' := r;
    for j := 0 to |StatColumns|
      invariant r' == ToRow(d[..6 + j])
    {
      ToRowStep(d, 6 + j);
      r' := r'[StatColumns[j] := FillNa(Get(src, StatColumns[j], Missing), Num(0.0))];
    }
  }

  /** The twelve defaults of `load_live_data`, as positions 18 to 29 of d. */
  method WriteTail(r: Row, ghost d: Dict<Cell>) returns (r': Row)
    requires |d| == 30 && r == ToRow(d[..18])
    requires forall j :: 0 <= j < 12 ==> d[18 + j] == (TailColumns[j], Num(TailDefault(TailColumns[j])))
    ensures r' == ToRow(d[..30])
  {
    r' := r;
    for j := 0 to |TailColumns|
      invariant r' == ToRow(d[..18 + j])
    {
      ToRowStep(d, 18 + j);
      r' := r'[TailColumns[j] := Num(TailDefault(TailColumns[j]))];
    }
  }

  /** The four stance assignments of `load_live_data`, as positions 14 to 17 of d. */
  method WriteStance(r: Row, stance: Cell, ghost d: Dict<Cell>) returns (r': Row)
    requires |d| == 30 && r == ToRow(d[..14])
    requires forall j :: 0 <= j < 4 ==> d[14 + j] == (StanceColumns[j], Num(StanceOneHot(stance)[j]))
    ensures r' == ToRow(d[..18])
  {
    ghost var hot := StanceOneHot(stance);
    assert d[14] == ("Stance_Orthodox", Num(hot[0])) && d[15] == ("Stance_Southpaw", Num(hot[1]));
    assert d[16] == ("Stance_Switch", Num(hot[2])) && d[17] == ("Stance_Open_Stance", Num(hot[3]));
    r' := r;
    ToRowStep(d, 14);
    r' := r'["Stance_Orthodox" := Num(if stance == Str("Orthodox") then 1.0 else 0.0)];
    ToRowStep(d, 15);
    r' := r'["Stance_Southpaw" := Num(if stance == Str("Southpaw") then 1.0 else 0.0)];
    ToRowStep(d, 16);
    r' := r'["Stance_Switch" := Num(if stance == Str("Switch") then 1.0 else 0.0)];
    var other := stance != Str("Orthodox") && stance != Str("Southpaw") && stance != Str("Switch");
    ToRowStep(d, 17);
    r' := r'["Stance_Open_Stance" := Num(if other then 1.0 else 0.0)];
  }

  /**
    `load_live_data` on an in-memory crawler table (None when the file is absent) and the
    static table used as its fallback (None when that cannot be read either).
   */
  method LoadLiveData(crawler: Option<Table>, fallback: Option<Table>) returns (t: Table)
    ensures crawler.None? || LiveLoadFails(crawler.value) ==>
              t == if fallback.Some? then fallback.value else Table([], [])
    ensures crawler.Some? && !LiveLoadFails(crawler.value) ==>
              && t.columns == LegacyColumns
              && |t.rows| == |crawler.value.rows|
              && forall i :: 0 <= i < |t.rows| ==> IsLegacyRow(crawler.value, crawler.value.rows[i], t.rows[i])
  {
    if crawler.None? || LiveLoadFails(crawler.value) {
      t := if fallback.Some? then fallback.value else Table([], []);
      return;
    }
    var df := crawler.value;
    var rows: seq<Row> := [];
    for i := 0 to |df.rows|
      invariant |rows| == i
      invariant forall k :: 0 <= k < i ==> IsLegacyRow(df, df.rows[k], rows[k])
    {
      var r := LegacyRowOf(df, df.rows[i]);
      ghost var prev := rows;
      rows := rows + [r];
      forall k | 0 <= k <= i ensures IsLegacyRow(df, df.rows[k], rows[k]) {
        if k < i {
          assert rows[k] == prev[k];
        }
      }
    }
    t := Table(LegacyColumns, rows);
  }

  lemma LegacyColumnsDistinct()
    ensures Distinct(LegacyColumns)
  {
    assert Distinct(LegacyHead);
    FeatureColumnsDistinct();
    LegacyHeadDisjoint();
    assert LegacyColumns == LegacyHead + (StatColumns + StanceColumns + TailColumns);
    DistinctConcat(LegacyHead, StatColumns + StanceColumns + TailColumns);
  }

  lemma LegacyHeadDisjoint()
    ensures Disjoint(LegacyHead, StatColumns + StanceColumns + TailColumns)
  {
  }

  /** The value a legacy row holds under the k-th legacy column: the k-th assignment, NaN filled. */
  lemma LegacyRowAt(df: Table, src: Row, r: Row, k: nat)
    requires IsLegacyRow(df, src, r) && k < 30
    ensures LegacyColumns[k] in r
    ensures r[LegacyColumns[k]] == FillNa(LegacyPairs(df, src, ConvertReach(Get(src, "reach", Str(""))).value)[k].1, Num(0.0))
  {
    var d := LegacyPairs(df, src, ConvertReach(Get(src, "reach", Str(""))).value);
    LegacyColumnsDistinct();
    ToRowAt(d, k);
  }

  /** A legacy row has exactly the legacy columns and no missing value. */
  lemma LegacyRowComplete(df: Table, src: Row, r: Row)
    requires IsLegacyRow(df, src, r)
    ensures forall c :: c in r <==> c in LegacyColumns
    ensures forall c :: c in r ==> !r[c].Missing?
  {
    var d := LegacyPairs(df, src, ConvertReach(Get(src, "reach", Str(""))).value);
    FilledRowOf(d, Num(0.0));
  }

  /**
    Each legacy row switches on exactly one stance column, the label's own (Orthodox when the
    crawler table has no stance column), and Open for any other label.
   */
  lemma LegacyStanceOneHot(df: Table, src: Row, r: Row)
    requires IsLegacyRow(df, src, r)
    ensures forall i :: 0 <= i < 4 ==>
              StanceColumns[i] in r && r[StanceColumns[i]] == Num(if i == StanceIndex(StanceOf(df, src)) then 1.0 else 0.0)
    ensures "Stance_Orthodox" in r && ("stance" !in df.columns ==> r["Stance_Orthodox"] == Num(1.0))
  {
    forall i | 0 <= i < 4
      ensures StanceColumns[i] in r && r[StanceColumns[i]] == Num(if i == StanceIndex(StanceOf(df, src)) then 1.0 else 0.0)
    {
      LegacyStanceAt(df, src, r, i);
    }
    assert StanceColumns[0] == "Stance_Orthodox";
  }

  /** Stance column i of a legacy row holds the one-hot value of the label. */
  lemma LegacyStanceAt(df: Table, src: Row, r: Row, i: nat)
    requires IsLegacyRow(df, src, r) && i < 4
    ensures StanceColumns[i] in r && r[StanceColumns[i]] == Num(if i == StanceIndex(StanceOf(df, src)) then 1.0 else 0.0)
  {
    var reach := ConvertReach(Get(src, "reach", Str(""))).value;
    var d := LegacyPairs(df, src, reach);
    var stance := StanceOf(df, src);
    LegacyPairsAt(df, src, reach);
    StanceOneHotExactlyOne(stance);
    LegacyRowAt(df, src, r, 14 + i);
    assert LegacyColumns[14 + i] == StanceColumns[i];
    assert d[14 + i].1 == Num(StanceOneHot(stance)[i]);
  }

  /** The tail columns hold their defaults whatever the crawler row holds: age 30, the rest 0. */
  lemma LegacyTailDefaults(df: Table, src: Row, r: Row)
    requires IsLegacyRow(df, src, r)
    ensures forall j :: 0 <= j < 12 ==> TailColumns[j] in r && r[TailColumns[j]] == Num(TailDefault(TailColumns[j]))
    ensures r["age"] == Num(30.0)
  {
    forall j | 0 <= j < 12 ensures TailColumns[j] in r && r[TailColumns[j]] == Num(TailDefault(TailColumns[j])) {
      LegacyRowAt(df, src, r, 18 + j);
    }
    assert TailColumns[11] == "age";
  }

  /** The name and the counts: 0 when the crawler has no such column or the cell is missing. */
  lemma LegacyRowRecord(df: Table, src: Row, r: Row)
    requires IsLegacyRow(df, src, r)
    ensures "fighter" in r && "wins" in r && "losses" in r
    ensures r["fighter"] == FillNa(Get(src, "name", Missing), Num(0.0))
    ensures r["wins"] == FillNa(CountOf(df, src, "n_win"), Num(0.0))
    ensures r["losses"] == FillNa(CountOf(df, src, "n_loss"), Num(0.0))
  {
    LegacyPairsAt(df, src, ConvertReach(Get(src, "reach", Str(""))).value);
    assert LegacyColumns[0] == "fighter" && LegacyColumns[1] == "wins" && LegacyColumns[2] == "losses";
    LegacyRowAt(df, src, r, 0);
    LegacyRowAt(df, src, r, 1);
    LegacyRowAt(df, src, r, 2);
  }

  /** The physical columns are the three converters applied to the crawler's strings. */
  lemma LegacyRowPhysical(df: Table, src: Row, r: Row)
    requires IsLegacyRow(df, src, r)
    ensures "Height_cms" in r && "Reach_cms" in r && "Weight_lbs" in r
    ensures r["Height_cms"] == Num(ConvertHeight(Get(src, "height", Str(""))))
    ensures r["Reach_cms"] == Num(ConvertReach(Get(src, "reach", Str(""))).value)
    ensures r["Weight_lbs"] == Num(ConvertWeight(Get(src, "weight", Str(""))))
  {
    LegacyPairsAt(df, src, ConvertReach(Get(src, "reach", Str(""))).value);
    assert LegacyColumns[3] == "Height_cms" && LegacyColumns[4] == "Reach_cms" && LegacyColumns[5] == "Weight_lbs";
    LegacyRowAt(df, src, r, 3);
    LegacyRowAt(df, src, r, 4);
    LegacyRowAt(df, src, r, 5);
  }

  /** Each statistic is copied from the crawler row, NaN or absent as 0. */
  lemma LegacyRowStats(df: Table, src: Row, r: Row)
    requires IsLegacyRow(df, src, r)
    ensures forall j :: 0 <= j < 8 ==> StatColumns[j] in r && r[StatColumns[j]] == FillNa(Get(src, StatColumns[j], Missing), Num(0.0))
  {
    LegacyPairsAt(df, src, ConvertReach(Get(src, "reach", Str(""))).value);
    forall j | 0 <= j < 8 ensures StatColumns[j] in r && r[StatColumns[j]] == FillNa(Get(src, StatColumns[j], Missing), Num(0.0)) {
      assert LegacyColumns[6 + j] == StatColumns[j];
      LegacyRowAt(df, src, r, 6 + j);
    }
  }

  /**
    `predictMatchByID`: the rows whose ID equals B (Blue) and R (Red), each cut to the columns
    from index 3 on and renamed with `B_` / `R_`, re-indexed from 0 and put side by side.
   */
  function PredictMatchById(df: Table, b: Cell, r: Cell): Result<Sample, PyError> {
    if "ID" !in df.columns then Err(KeyError("ID"))
    else
      var feats := ColumnsFrom(df.columns, 3);
      Ok(PairSample(feats, RowsWhere(df.rows, "ID", b), RowsWhere(df.rows, "ID", r)))
  }

  /**
    The sample's columns: 2 x (ncols - 3) names, the `B_` names of the features from index 3
    on, then their `R_` names. Without an ID column the lookup raises KeyError.
   */
  lemma PredictMatchByIdColumns(df: Table, b: Cell, r: Cell)
    ensures "ID" !in df.columns <==> PredictMatchById(df, b, r) == Err(KeyError("ID"))
    ensures "ID" in df.columns ==>
      var res := PredictMatchById(df, b, r);
      var feats := ColumnsFrom(df.columns, 3);
      && res.Ok?
      && |res.value.columns| == 2 * |feats|
      && (|df.columns| >= 3 ==> |feats| == |df.columns| - 3)
      && (forall k :: 0 <= k < |feats| ==>
            feats[k] == df.columns[3 + k]
            && res.value.columns[k] == "B_" + feats[k] && res.value.columns[|feats| + k] == "R_" + feats[k])
  {
  }

  /** With an ID column, the sample is built from the rows whose ID is B and those whose ID is R. */
  lemma PredictMatchByIdSample(df: Table, b: Cell, r: Cell)
    requires "ID" in df.columns
    ensures PredictMatchById(df, b, r).Ok?
    ensures PredictMatchById(df, b, r).value
         == PairSample(ColumnsFrom(df.columns, 3), RowsWhere(df.rows, "ID", b), RowsWhere(df.rows, "ID", r))
  {
  }

  /** What the Predict button shows. */
  datatype Outcome =
    | DistinctRequired      // "Please choose 2 distict fighters"
    | Wins(name: string)    // `players[prediction] + ' Wins'`
    | WentWrong             // any exception: "Something went wrong! ..."

  /** `df["ID"][df["fighter"] == name].values[0]`: the ID of the first row with that name. */
  function IdOf(df: Table, name: string): Result<Cell, PyError> {
    if "ID" !in df.columns then Err(KeyError("ID"))
    else if "fighter" !in df.columns then Err(KeyError("fighter"))
    else
      var rows := RowsWhere(df.rows, "fighter", Str(name));
      if |rows| == 0 then Err(IndexError) else Ok(Get(rows[0], "ID", Missing))
  }

  /**
    The Predict button of `main`: equal names are rejected; otherwise the two IDs are looked
    up, the sample built and the classifier asked, and `players = {1: blue, 0: red}` names
    the winner. Any exception on the way, including a prediction other than 0 or 1 (a
    KeyError on `players`), ends in the generic error.
   */
  function PredictMain(df: Table, blue: string, red: string, clf: Classifier): Outcome {
    if blue == red then DistinctRequired
    else
      match (IdOf(df, blue), IdOf(df, red))
      case (Ok(bId), Ok(rId)) =>
        (match PredictMatchById(df, bId, rId)
         case Ok(sample) =>
           (match clf.predict(sample.values)
            case Some(1) => Wins(blue)
            case Some(0) => Wins(red)
            case _ => WentWrong)
         case Err(_) => WentWrong)
      case _ => WentWrong
  }

  /**
    Equal names are rejected before the table or the model is consulted; otherwise the Blue
    fighter wins exactly when the model answers 1 and the Red fighter exactly when it answers 0.
   */
  lemma PredictMainDecision(df: Table, blue: string, red: string, clf: Classifier)
    ensures blue == red <==> PredictMain(df, blue, red, clf) == DistinctRequired
    ensures blue != red ==>
      var b, r := IdOf(df, blue), IdOf(df, red);
      var answer :=
        if b.Ok? && r.Ok? && PredictMatchById(df, b.value, r.value).Ok?
        then clf.predict(PredictMatchById(df, b.value, r.value).value.values) else None;
      && (PredictMain(df, blue, red, clf) == Wins(blue) <==> answer == Some(1))
      && (PredictMain(df, blue, red, clf) == Wins(red) <==> answer == Some(0))
      && (PredictMain(df, blue, red, clf).Wins? || PredictMain(df, blue, red, clf) == WentWrong)
  {
  }

  /**
    The table `load_live_data` builds from the crawler has no ID column, so with live data the
    Predict button can only reject equal names or report the generic error.
   */
  lemma LiveTableNeverPredicts(blue: string, red: string, clf: Classifier)
    ensures forall t: Table :: t.columns == LegacyColumns ==> !PredictMain(t, blue, red, clf).Wins?
  {
    LegacyColumnsDistinct();
    forall t: Table | t.columns == LegacyColumns ensures !PredictMain(t, blue, red, clf).Wins? {
      assert "ID" !in LegacyColumns;
    }
  }
}
