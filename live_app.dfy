/**
  The live Streamlit application in UFC-Prediction/app/app/app_live.py: a fighter record read
  from the stats API (or its CSV fallback) converted to the model's 29 features, the two
  records turned into one Blue-then-Red vector, and the classifier's answer turned into a
  winner, a loser and a confidence.
 */
module LiveApp {

  import opened Wrappers
  import opened Text
  import opened Numerals
  import opened Frames
  import opened Schema
  import opened LegacyApp

  /** Python `float(x)`: a numeral string is parsed, a number kept, NaN stays NaN. */
  function ToFloat(c: Cell): (r: Result<Cell, PyError>)
    ensures r.Ok? ==> !r.value.Str?
    ensures r.Err? <==> FloatRaises(c)
    ensures r.Err? ==> r.error == ValueError
  {
    if !c.Str? then Ok(c)
    else if ParseFloat(c.s).None? then Err(ValueError)
    else Ok(Num(ParseFloat(c.s).value))
  }

  /** `float(x)` raises ValueError exactly on a string that is not a numeral. */
  predicate FloatRaises(c: Cell) {
    c.Str? && ParseFloat(c.s).None?
  }

  /** The converted record's first five keys, in the order they are assigned. */
  const LiveHead: seq<string> := ["Height_cms", "Reach_cms", "Weight_lbs", "wins", "losses"]

  /** All 29 keys of a converted record, in insertion order. */
  const LiveColumns: seq<string> := LiveHead + StatColumns + StanceColumns + TailColumns

  /** The eight statistics, each read as `float(fighter_data.get(name, 0))`. */
  const StatFields: Dict<real> := [
    ("sig_str_land_pM", 0.0), ("sig_str_abs_pM", 0.0), ("sig_str_def_pct", 0.0), ("sig_str_land_pct", 0.0),
    ("td_avg", 0.0), ("td_def_pct", 0.0), ("td_land_pct", 0.0), ("sub_avg", 0.0)]

  /** The `defaults` dict of the fill loop, in its insertion order. */
  const LiveDefaults: Dict<real> := [
    ("current_lose_streak", 0.0), ("current_win_streak", 0.0), ("longest_win_streak", 0.0),
    ("total_rounds_fought", 0.0), ("total_title_bouts", 0.0), ("win_by_Decision_Majority", 0.0),
    ("win_by_Decision_Split", 0.0), ("win_by_Decision_Unanimous", 0.0), ("win_by_KO_TKO", 0.0),
    ("win_by_Submission", 0.0), ("win_by_TKO_Doctor_Stoppage", 0.0), ("age", 30.0)]

  /** `float(fighter_data.get(key, default))` for one (key, default) pair. */
  function FloatField(d: Row, f: (string, real)): Result<Cell, PyError> {
    ToFloat(Get(d, f.0, Num(f.1)))
  }

  predicate FieldsOk(d: Row, fields: Dict<real>) {
    forall j :: 0 <= j < |fields| ==> FloatField(d, fields[j]).Ok?
  }

  /** The pairs `converted[key] = float(fighter_data.get(key, default))` write, in order. */
  function FieldValues(d: Row, fields: Dict<real>): (r: Dict<Cell>)
    requires FieldsOk(d, fields)
    ensures Keys(r) == Keys(fields)
    ensures NoStrings(r)
  {
    seq(|fields|, j requires 0 <= j < |fields| => (fields[j].0, FloatField(d, fields[j]).value))
  }

  /**
    The inline reach conversion: the same digits check and parse as `convert_reach`, but the
    fallback estimates the reach as 1.1 times the height already converted.
   */
  function LiveReach(c: Cell, height: real): Result<real, PyError> {
    if c.Str? && IsDigitString(ReachCheck(c.s)) then
      match ParseFloat(RemoveChar(c.s, '"'))
      case Some(v) => Ok(InchesToCm(v))
      case None => Err(ValueError)
    else Ok(height * 1.1)
  }

  /**
    The first five assignments: height and weight as in `convert_height` / `convert_weight`
    (an absent key reads as the empty string), the live reach, and the record read through
    `float()` from `n_win` / `n_loss`, 0 when absent.
   */
  function HeadPairs(d: Row): (r: Result<Dict<Cell>, PyError>)
    ensures r.Ok? ==> Keys(r.value) == LiveHead
  {
    var height := ConvertHeight(Get(d, "height", Str("")));
    match LiveReach(Get(d, "reach", Str("")), height)
    case Err(e) => Err(e)
    case Ok(reach) =>
      var weight := ConvertWeight(Get(d, "weight", Str("")));
      match (ToFloat(Get(d, "n_win", Num(0.0))), ToFloat(Get(d, "n_loss", Num(0.0))))
      case (Ok(wins), Ok(losses)) => Ok(HeadDict(height, reach, weight, wins, losses))
      case _ => Err(ValueError)
  }

  /** The five head pairs, given their values. */
  function HeadDict(height: real, reach: real, weight: real, wins: Cell, losses: Cell): (r: Dict<Cell>)
    ensures Keys(r) == LiveHead
    ensures !wins.Str? && !losses.Str? ==> NoStrings(r)
  {
    [("Height_cms", Num(height)), ("Reach_cms", Num(reach)), ("Weight_lbs", Num(weight)),
     ("wins", wins), ("losses", losses)]
  }

  /** The four stance assignments: one-hot on the label, Open for anything unrecognised. */
  function StancePairs(stance: Cell): (r: Dict<Cell>)
    ensures Keys(r) == StanceColumns
    ensures forall i :: 0 <= i < 4 ==> r[i].1 == Num(StanceOneHot(stance)[i])
  {
    var other := stance != Str("Orthodox") && stance != Str("Southpaw") && stance != Str("Switch");
    [("Stance_Orthodox", Num(if stance == Str("Orthodox") then 1.0 else 0.0)),
     ("Stance_Southpaw", Num(if stance == Str("Southpaw") then 1.0 else 0.0)),
     ("Stance_Switch", Num(if stance == Str("Switch") then 1.0 else 0.0)),
     ("Stance_Open_Stance", Num(if other then 1.0 else 0.0))]
  }

  /** The stance read from the record, Orthodox when the key is absent. */
  function LiveStance(d: Row): Cell {
    Get(d, "stance", Str("Orthodox"))
  }

  /**
    `convert_to_prediction_format`: the converted dict, or the ValueError a `float()` call or
    the reach parse raises.
   */
  function PredictionFormat(d: Row): (r: Result<Dict<Cell>, PyError>)
    ensures r.Ok? ==> |r.value| == 29
  {
    var head := HeadPairs(d);
    if head.Err? then Err(head.error)
    else if FieldsOk(d, StatFields) && FieldsOk(d, LiveDefaults) then
      Ok(head.value + FieldValues(d, StatFields) + StancePairs(LiveStance(d)) + FieldValues(d, LiveDefaults))
    else Err(ValueError)
  }

  /** `convert_to_prediction_format`, filling the dict key by key. */
  method ConvertToPredictionFormat(d: Row) returns (r: Result<Dict<Cell>, PyError>)
    ensures r == PredictionFormat(d)
  {
    LiveColumnsBlocks();
    var converted :- ConvertHead(d);
    converted :- PutFloats(converted, d, StatFields);
    KeysConcat(converted[..5], converted[5..]);
    assert converted == converted[..5] + converted[5..];
    var stance := LiveStance(d);
    converted := PutStance(converted, stance);
    KeysConcat(converted[..13], converted[13..]);
    assert converted == converted[..13] + converted[13..];
    converted :- PutFloats(converted, d, LiveDefaults);
    return Ok(converted);
  }

  /** Height, reach, weight, wins and losses. */
  method ConvertHead(d: Row) returns (r: Result<Dict<Cell>, PyError>)
    ensures r == HeadPairs(d)
  {
    var height := ConvertHeight(Get(d, "height", Str("")));
    var reach :- LiveReach(Get(d, "reach", Str("")), height);
    var weight := ConvertWeight(Get(d, "weight", Str("")));
    var wins := ToFloat(Get(d, "n_win", Num(0.0)));
    if wins.Err? {
      return Err(ValueError);
    }
    var losses := ToFloat(Get(d, "n_loss", Num(0.0)));
    if losses.Err? {
      return Err(ValueError);
    }
    var converted := WriteHead(height, reach, weight, wins.value, losses.value);
    return Ok(converted);
  }

  /** The five assignments of the head, into the empty dict. */
  method WriteHead(height: real, reach: real, weight: real, wins: Cell, losses: Cell) returns (converted: Dict<Cell>)
    ensures converted == HeadDict(height, reach, weight, wins, losses)
  {
    converted := [];
    converted := Put(converted, "Height_cms", Num(height));
    PutFresh(converted, "Reach_cms", Num(reach));
    converted := Put(converted, "Reach_cms", Num(reach));
    PutFresh(converted, "Weight_lbs", Num(weight));
    converted := Put(converted, "Weight_lbs", Num(weight));
    PutFresh(converted, "wins", wins);
    converted := Put(converted, "wins", wins);
    PutFresh(converted, "losses", losses);
    converted := Put(converted, "losses", losses);
  }

  /** `for key, default_val in fields: converted[key] = float(fighter_data.get(key, default_val))`. */
  method PutFloats(converted: Dict<Cell>, d: Row, fields: Dict<real>) returns (r: Result<Dict<Cell>, PyError>)
    requires Distinct(Keys(converted) + Keys(fields))
    ensures r == if FieldsOk(d, fields) then Ok(converted + FieldValues(d, fields)) else Err(ValueError)
  {
    var acc := converted;
    for j := 0 to |fields|
      invariant FieldsOk(d, fields[..j])
      invariant acc == converted + FieldValues(d, fields[..j])
    {
      var v := FloatField(d, fields[j]);
      if v.Err? {
        return Err(ValueError);
      }
      PutFieldStep(converted, d, fields, j);
      acc := Put(acc, fields[j].0, v.value);
    }
    assert fields[..|fields|] == fields;
    return Ok(acc);
  }

  /** One pass of the fill loop appends the next field's converted value. */
  lemma PutFieldStep(converted: Dict<Cell>, d: Row, fields: Dict<real>, j: nat)
    requires Distinct(Keys(converted) + Keys(fields))
    requires j < |fields| && FieldsOk(d, fields[..j]) && FloatField(d, fields[j]).Ok?
    ensures FieldsOk(d, fields[..j + 1])
    ensures Put(converted + FieldValues(d, fields[..j]), fields[j].0, FloatField(d, fields[j]).value)
         == converted + FieldValues(d, fields[..j + 1])
  {
    var ks := Keys(converted) + Keys(fields);
    var acc := converted + FieldValues(d, fields[..j]);
    assert fields[..j + 1] == fields[..j] + [fields[j]];
    KeysConcat(converted, FieldValues(d, fields[..j]));
    assert Keys(acc) == ks[..|converted| + j];
    DistinctNotBefore(ks, |converted| + j);
    assert ks[|converted| + j] == fields[j].0;
    assert FieldValues(d, fields[..j + 1]) == FieldValues(d, fields[..j]) + [(fields[j].0, FloatField(d, fields[j]).value)];
  }

  /** The four stance assignments. */
  method PutStance(converted: Dict<Cell>, stance: Cell) returns (r: Dict<Cell>)
    requires Distinct(Keys(converted) + StanceColumns)
    ensures r == converted + StancePairs(stance)
  {
    var orthodox := Num(if stance == Str("Orthodox") then 1.0 else 0.0);
    var southpaw := Num(if stance == Str("Southpaw") then 1.0 else 0.0);
    var switch := Num(if stance == Str("Switch") then 1.0 else 0.0);
    var other := stance != Str("Orthodox") && stance != Str("Southpaw") && stance != Str("Switch");
    var open := Num(if other then 1.0 else 0.0);
    r := WriteStance(converted, orthodox, southpaw, switch, open);
  }

  /** The four one-hot assignments, given their values. */
  method WriteStance<V>(converted: Dict<V>, orthodox: V, southpaw: V, switch: V, open: V) returns (r: Dict<V>)
    requires Distinct(Keys(converted) + StanceColumns)
    ensures r == converted + [("Stance_Orthodox", orthodox), ("Stance_Southpaw", southpaw),
                              ("Stance_Switch", switch), ("Stance_Open_Stance", open)]
  {
    ghost var plan := Keys(converted) + StanceColumns;
    ghost var n := |converted|;
    assert plan[..n] == Keys(converted);
    assert plan[n] == "Stance_Orthodox";
    PutNext(converted, plan, "Stance_Orthodox", orthodox);
    r := Put(converted, "Stance_Orthodox", orthodox);
    assert plan[n + 1] == "Stance_Southpaw";
    PutNext(r, plan, "Stance_Southpaw", southpaw);
    r := Put(r, "Stance_Southpaw", southpaw);
    assert plan[n + 2] == "Stance_Switch";
    PutNext(r, plan, "Stance_Switch", switch);
    r := Put(r, "Stance_Switch", switch);
    assert plan[n + 3] == "Stance_Open_Stance";
    PutNext(r, plan, "Stance_Open_Stance", open);
    r := Put(r, "Stance_Open_Stance", open);
  }

  lemma LiveColumnsDistinct()
    ensures Distinct(LiveColumns)
  {
    FeatureColumnsDistinct();
    LiveHeadDisjoint();
    assert LiveColumns == LiveHead + (StatColumns + StanceColumns + TailColumns);
    DistinctConcat(LiveHead, StatColumns + StanceColumns + TailColumns);
  }

  lemma LiveHeadDisjoint()
    ensures Distinct(LiveHead)
    ensures Disjoint(LiveHead, StatColumns + StanceColumns + TailColumns)
  {
    LegacyHeadDisjoint();
    forall i, j | 0 <= i < |LiveHead| && 0 <= j < |StatColumns + StanceColumns + TailColumns|
      ensures LiveHead[i] != (StatColumns + StanceColumns + TailColumns)[j]
    {
      assert LiveHead[i] == LegacyHead[[3, 4, 5, 1, 2][i]];
    }
  }

  /** The key blocks of the converted record, each distinct from all before it. */
  lemma LiveColumnsBlocks()
    ensures Keys(StatFields) == StatColumns
    ensures Keys(LiveDefaults) == TailColumns
    ensures Distinct(LiveHead + StatColumns)
    ensures Distinct(LiveHead + StatColumns + StanceColumns)
    ensures Distinct(LiveHead + StatColumns + StanceColumns + TailColumns)
  {
    LiveDefaultsKeys();
    LiveColumnsDistinct();
    DistinctLeft(LiveHead + StatColumns + StanceColumns, TailColumns);
    DistinctLeft(LiveHead + StatColumns, StanceColumns);
  }

  /** Every statistic defaults to 0. */
  lemma StatFieldsZero()
    ensures forall i :: 0 <= i < 8 ==> StatFields[i].1 == 0.0
  {
  }

  /** The defaults dict covers the twelve tail columns, with 30 for age and 0 for the rest. */
  lemma LiveDefaultsKeys()
    ensures Keys(LiveDefaults) == TailColumns
    ensures forall i :: 0 <= i < 12 ==> LiveDefaults[i].1 == TailDefault(TailColumns[i])
  {
  }

  // ---- Properties of the converted record ----

  /** `fighter_data[k]` is present and `float()` raises on it. */
  predicate Raises(d: Row, k: string) {
    k in d && FloatRaises(d[k])
  }

  /** The reach passes the digits check but the parse, which keeps hyphens, raises. */
  predicate ReachRaises(d: Row) {
    var c := Get(d, "reach", Str(""));
    c.Str? && IsDigitString(ReachCheck(c.s)) && ParseFloat(RemoveChar(c.s, '"')).None?
  }

  /** A fill loop raises exactly when a present key of its own holds a non-numeral string. */
  lemma FieldsOkIff(d: Row, fields: Dict<real>)
    ensures FieldsOk(d, fields) <==> forall j :: 0 <= j < |fields| ==> !Raises(d, fields[j].0)
  {
  }

  /** The head raises ValueError exactly when the reach parse or `float()` of a record field raises. */
  lemma HeadPairsRaises(d: Row)
    ensures HeadPairs(d).Err? ==> HeadPairs(d).error == ValueError
    ensures HeadPairs(d).Err? <==> ReachRaises(d) || Raises(d, "n_win") || Raises(d, "n_loss")
  {
    var reach := LiveReach(Get(d, "reach", Str("")), ConvertHeight(Get(d, "height", Str(""))));
    assert reach.Err? <==> ReachRaises(d);
    var wins, losses := ToFloat(Get(d, "n_win", Num(0.0))), ToFloat(Get(d, "n_loss", Num(0.0)));
    assert wins.Err? <==> Raises(d, "n_win");
    assert losses.Err? <==> Raises(d, "n_loss");
  }

  /** The conversion fails exactly when the head or one of the two fill loops does. */
  lemma PredictionFormatErr(d: Row)
    ensures PredictionFormat(d).Err? ==> PredictionFormat(d).error == ValueError
    ensures PredictionFormat(d).Err? <==>
      HeadPairs(d).Err? || !FieldsOk(d, StatFields) || !FieldsOk(d, LiveDefaults)
  {
    HeadPairsRaises(d);
  }

  /** The conversion raises ValueError exactly when the reach parse or one `float()` call raises. */
  lemma PredictionFormatRaises(d: Row)
    ensures PredictionFormat(d).Err? ==> PredictionFormat(d).error == ValueError
    ensures PredictionFormat(d).Err? <==>
      || ReachRaises(d) || Raises(d, "n_win") || Raises(d, "n_loss")
      || (exists j :: 0 <= j < |StatColumns| && Raises(d, StatColumns[j]))
      || (exists j :: 0 <= j < |TailColumns| && Raises(d, TailColumns[j]))
  {
    PredictionFormatErr(d);
    HeadPairsRaises(d);
    StatFieldsRaise(d);
    TailFieldsRaise(d);
  }

  /** The statistics loop raises exactly when a present statistic holds a non-numeral string. */
  lemma StatFieldsRaise(d: Row)
    ensures FieldsOk(d, StatFields) <==> forall j :: 0 <= j < |StatColumns| ==> !Raises(d, StatColumns[j])
  {
    LiveColumnsBlocks();
    FieldsOkIff(d, StatFields);
    assert forall j :: 0 <= j < 8 ==> Keys(StatFields)[j] == StatFields[j].0;
  }

  /** The defaults loop raises exactly when a present tail field holds a non-numeral string. */
  lemma TailFieldsRaise(d: Row)
    ensures FieldsOk(d, LiveDefaults) <==> forall j :: 0 <= j < |TailColumns| ==> !Raises(d, TailColumns[j])
  {
    LiveDefaultsKeys();
    FieldsOkIff(d, LiveDefaults);
    assert forall j :: 0 <= j < 12 ==> Keys(LiveDefaults)[j] == LiveDefaults[j].0;
  }

  /** A converted record has the 29 keys in the fixed insertion order. */
  lemma PredictionFormatKeys(d: Row)
    ensures |LiveColumns| == 29
    ensures PredictionFormat(d).Ok? ==> Keys(PredictionFormat(d).value) == LiveColumns
  {
    var r := PredictionFormat(d);
    if r.Ok? {
      LiveColumnsBlocks();
      var head := HeadPairs(d).value;
      var stats := FieldValues(d, StatFields);
      var stance := StancePairs(LiveStance(d));
      var tail := FieldValues(d, LiveDefaults);
      KeysConcat(head, stats);
      KeysConcat(head + stats, stance);
      KeysConcat(head + stats + stance, tail);
    }
  }

  /** A successful conversion is the head, the statistics, the stance and the tail, in that order. */
  lemma PredictionFormatParts(d: Row)
    requires PredictionFormat(d).Ok?
    ensures HeadPairs(d).Ok?
    ensures PredictionFormat(d).value
            == HeadPairs(d).value + FieldValues(d, StatFields) + StancePairs(LiveStance(d)) + FieldValues(d, LiveDefaults)
  {
    var head := HeadPairs(d);
    assert head.Ok?;
    assert FieldsOk(d, StatFields) && FieldsOk(d, LiveDefaults);
  }

  /** The head succeeds exactly with the live reach and both record fields converted. */
  lemma HeadPairsValue(d: Row)
    requires HeadPairs(d).Ok?
    ensures var height := ConvertHeight(Get(d, "height", Str("")));
      && LiveReach(Get(d, "reach", Str("")), height).Ok?
      && ToFloat(Get(d, "n_win", Num(0.0))).Ok?
      && ToFloat(Get(d, "n_loss", Num(0.0))).Ok?
      && HeadPairs(d).value == HeadDict(height, LiveReach(Get(d, "reach", Str("")), height).value,
           ConvertWeight(Get(d, "weight", Str(""))), ToFloat(Get(d, "n_win", Num(0.0))).value,
           ToFloat(Get(d, "n_loss", Num(0.0))).value)
  {
  }

  /**
    Height and weight as the stand-alone converters compute them; the live reach (see
    `LiveReachAgainstLegacy`); wins and losses read from `n_win` / `n_loss` through `float()`,
    0 only when the key is absent.
   */
  lemma PredictionFormatHead(d: Row)
    requires PredictionFormat(d).Ok?
    ensures
      var height := ConvertHeight(Get(d, "height", Str("")));
      && LiveReach(Get(d, "reach", Str("")), height).Ok?
      && ToFloat(Get(d, "n_win", Num(0.0))).Ok?
      && ToFloat(Get(d, "n_loss", Num(0.0))).Ok?
      && PredictionFormat(d).value[..5]
         == HeadDict(height, LiveReach(Get(d, "reach", Str("")), height).value,
                     ConvertWeight(Get(d, "weight", Str(""))),
                     ToFloat(Get(d, "n_win", Num(0.0))).value, ToFloat(Get(d, "n_loss", Num(0.0))).value)
  {
    PredictionFormatParts(d);
    HeadPairsValue(d);
  }

  /** The eight statistics: the source value through `float()`, 0 when absent. */
  lemma PredictionFormatStats(d: Row)
    requires PredictionFormat(d).Ok?
    ensures forall i :: 0 <= i < |StatColumns| ==>
              && PredictionFormat(d).value[5 + i].0 == StatColumns[i]
              && ToFloat(Get(d, StatColumns[i], Num(0.0))) == Ok(PredictionFormat(d).value[5 + i].1)
  {
    PredictionFormatParts(d);
    var head, stats := HeadPairs(d).value, FieldValues(d, StatFields);
    forall i | 0 <= i < |StatColumns|
      ensures && PredictionFormat(d).value[5 + i].0 == StatColumns[i]
              && ToFloat(Get(d, StatColumns[i], Num(0.0))) == Ok(PredictionFormat(d).value[5 + i].1)
    {
      BlockAt(head, stats, StancePairs(LiveStance(d)), FieldValues(d, LiveDefaults), i);
      StatPairAt(d, i);
    }
  }

  /** Pair i of the statistics fill loop: statistic i, read through `float()`, 0 when absent. */
  lemma StatPairAt(d: Row, i: nat)
    requires FieldsOk(d, StatFields) && i < |StatColumns|
    ensures && FieldValues(d, StatFields)[i].0 == StatColumns[i]
            && ToFloat(Get(d, StatColumns[i], Num(0.0))) == Ok(FieldValues(d, StatFields)[i].1)
  {
    StatField(i);
    assert FloatField(d, StatFields[i]).Ok?;
  }

  /** Element i of the second, third and fourth block of a four-block dict. */
  lemma BlockAt<V>(a: Dict<V>, b: Dict<V>, c: Dict<V>, e: Dict<V>, i: nat)
    ensures i < |b| ==> (a + b + c + e)[|a| + i] == b[i]
    ensures i < |c| ==> (a + b + c + e)[|a| + |b| + i] == c[i]
    ensures i < |e| ==> (a + b + c + e)[|a| + |b| + |c| + i] == e[i]
  {
    if i < |b| {
      assert (a + b + c + e)[|a| + i] == (a + b + c)[|a| + i] == (a + b)[|a| + i];
    }
    if i < |c| {
      assert (a + b + c + e)[|a| + |b| + i] == (a + b + c)[|a| + |b| + i];
    }
  }

  /** Statistic i of the fill loop is read under column i, with default 0. */
  lemma StatField(i: nat)
    requires i < |StatColumns|
    ensures StatFields[i] == (StatColumns[i], 0.0)
  {
    LiveColumnsBlocks();
    StatFieldsZero();
    assert Keys(StatFields)[i] == StatFields[i].0;
  }

  /**
    Exactly one stance field is 1.0, the one of the record's label; an absent label counts
    as Orthodox, any other value (the empty string, NaN) as Open.
   */
  lemma PredictionFormatStance(d: Row)
    requires PredictionFormat(d).Ok?
    ensures forall i :: 0 <= i < 4 ==>
              PredictionFormat(d).value[13 + i]
              == (StanceColumns[i], Num(if i == StanceIndex(LiveStance(d)) then 1.0 else 0.0))
    ensures "stance" !in d ==> StanceIndex(LiveStance(d)) == 0
    ensures LiveStance(d) == Str("") ==> StanceIndex(LiveStance(d)) == 3
  {
    PredictionFormatParts(d);
    var head, stats := HeadPairs(d).value, FieldValues(d, StatFields);
    var stance := StancePairs(LiveStance(d));
    forall i | 0 <= i < 4
      ensures PredictionFormat(d).value[13 + i]
              == (StanceColumns[i], Num(if i == StanceIndex(LiveStance(d)) then 1.0 else 0.0))
    {
      BlockAt(head, stats, stance, FieldValues(d, LiveDefaults), i);
      StancePairAt(LiveStance(d), i);
    }
  }

  /** Stance pair i: the column, and 1.0 exactly at the label's own column. */
  lemma StancePairAt(stance: Cell, i: nat)
    requires i < 4
    ensures StancePairs(stance)[i] == (StanceColumns[i], Num(if i == StanceIndex(stance) then 1.0 else 0.0))
  {
    StanceOneHotExactlyOne(stance);
    assert Keys(StancePairs(stance))[i] == StancePairs(stance)[i].0;
  }

  /** Each of the twelve tail fields: the source value through `float()`, else its default (30 for age). */
  lemma PredictionFormatTail(d: Row)
    requires PredictionFormat(d).Ok?
    ensures forall i :: 0 <= i < |TailColumns| ==>
              && PredictionFormat(d).value[17 + i].0 == TailColumns[i]
              && ToFloat(Get(d, TailColumns[i], Num(TailDefault(TailColumns[i])))) == Ok(PredictionFormat(d).value[17 + i].1)
  {
    PredictionFormatParts(d);
    var head, stats := HeadPairs(d).value, FieldValues(d, StatFields);
    var stance := StancePairs(LiveStance(d));
    forall i | 0 <= i < |TailColumns|
      ensures && PredictionFormat(d).value[17 + i].0 == TailColumns[i]
              && ToFloat(Get(d, TailColumns[i], Num(TailDefault(TailColumns[i])))) == Ok(PredictionFormat(d).value[17 + i].1)
    {
      BlockAt(head, stats, stance, FieldValues(d, LiveDefaults), i);
      TailPairAt(d, i);
    }
  }

  /** Pair i of the defaults fill loop: tail column i, read through `float()`, its default when absent. */
  lemma TailPairAt(d: Row, i: nat)
    requires FieldsOk(d, LiveDefaults) && i < |TailColumns|
    ensures && FieldValues(d, LiveDefaults)[i].0 == TailColumns[i]
            && ToFloat(Get(d, TailColumns[i], Num(TailDefault(TailColumns[i])))) == Ok(FieldValues(d, LiveDefaults)[i].1)
  {
    TailField(i);
    assert FloatField(d, LiveDefaults[i]).Ok?;
  }

  /** Tail field i of the fill loop is read under tail column i, with its default. */
  lemma TailField(i: nat)
    requires i < |TailColumns|
    ensures LiveDefaults[i] == (TailColumns[i], TailDefault(TailColumns[i]))
  {
    LiveDefaultsKeys();
    assert Keys(LiveDefaults)[i] == LiveDefaults[i].0;
  }

  /** Every converted value is a number or NaN, never a string. */
  lemma PredictionFormatNumeric(d: Row)
    requires PredictionFormat(d).Ok?
    ensures NoStrings(PredictionFormat(d).value)
  {
    PredictionFormatParts(d);
    HeadNoStrings(d);
    NoStringsParts(HeadPairs(d).value, FieldValues(d, StatFields), StancePairs(LiveStance(d)), FieldValues(d, LiveDefaults));
  }

  /** The converted head holds no string. */
  lemma HeadNoStrings(d: Row)
    requires HeadPairs(d).Ok?
    ensures NoStrings(HeadPairs(d).value)
  {
    HeadPairsValue(d);
  }

  /** Four string-free blocks, as the conversion concatenates them, hold no string. */
  lemma NoStringsParts(head: Dict<Cell>, stats: Dict<Cell>, stance: Dict<Cell>, tail: Dict<Cell>)
    requires NoStrings(head) && NoStrings(stats) && NoStrings(tail)
    requires forall i :: 0 <= i < |stance| ==> stance[i].1.Num?
    ensures NoStrings(head + stats + stance + tail)
  {
    NoStringsConcat(head, stats);
    NoStringsConcat(head + stats, stance);
    NoStringsConcat(head + stats + stance, tail);
  }

  /** No value of the dictionary is a string. */
  predicate NoStrings(r: Dict<Cell>) {
    forall i :: 0 <= i < |r| ==> !r[i].1.Str?
  }

  lemma NoStringsConcat(a: Dict<Cell>, b: Dict<Cell>)
    requires NoStrings(a) && NoStrings(b)
    ensures NoStrings(a + b)
  {
    forall i | 0 <= i < |a + b| ensures !(a + b)[i].1.Str? {
      if i >= |a| {
        assert (a + b)[i] == b[i - |a|];
      }
    }
  }

  /**
    The live reach agrees with `convert_reach` when the digits check passes and otherwise
    replaces its constant 180.0 by 1.1 times the height.
   */
  lemma LiveReachAgainstLegacy(c: Cell, height: real)
    ensures c.Str? && IsDigitString(ReachCheck(c.s)) ==> LiveReach(c, height) == ConvertReach(c)
    ensures !(c.Str? && IsDigitString(ReachCheck(c.s))) ==>
              LiveReach(c, height) == Ok(height * 1.1) && ConvertReach(c) == Ok(180.0)
  {
  }

  // ---------------------------------------------------------------------------------------
  // predict_fight and the Predict button of main
  // ---------------------------------------------------------------------------------------

  /**
    `np.array([list({**blue_features, **red_features}.values())])`: one row, the record of
    fighter 1 under `B_` keys merged with the record of fighter 2 under `R_` keys.
   */
  function FeatureVector(f1: Dict<Cell>, f2: Dict<Cell>): Matrix {
    [Values(Merge(PrefixKeys("B_", f1), PrefixKeys("R_", f2)))]
  }

  /**
    With two converted records the merge is the Blue keys then the Red keys, in record order,
    and the single row of the vector is fighter 1's 29 values followed by fighter 2's.
   */
  lemma FeatureVectorLayout(f1: Dict<Cell>, f2: Dict<Cell>)
    requires Keys(f1) == LiveColumns && Keys(f2) == LiveColumns
    ensures Keys(Merge(PrefixKeys("B_", f1), PrefixKeys("R_", f2)))
            == Prefixed("B_", LiveColumns) + Prefixed("R_", LiveColumns)
    ensures |FeatureVector(f1, f2)| == 1
    ensures FeatureVector(f1, f2)[0] == Values(f1) + Values(f2)
    ensures |FeatureVector(f1, f2)[0]| == 58
  {
    var b, r := PrefixKeys("B_", f1), PrefixKeys("R_", f2);
    LiveColumnsDistinct();
    PrefixedDistinct("B_", LiveColumns);
    PrefixedDistinct("R_", LiveColumns);
    BlueRedDisjoint(LiveColumns, LiveColumns);
    MergeDisjoint(b, r);
    KeysConcat(b, r);
    ValuesConcat(b, r);
    PredictionFormatKeys(map[]);
  }

  /** What `predict_fight` returns. */
  datatype LivePrediction =
    | NotFound                 // {"error": "Fighter data not found"}
    | Failed(error: PyError)   // {"error": "Prediction failed: ..."}
    | Predicted(winner: string, loser: string, confidence: Option<real>, fighter1: Row, fighter2: Row)

  /** `not data`: no record, or an empty one. */
  predicate Absent(data: Option<Row>) {
    data.None? || data.value == map[]
  }

  /**
    `predict_fight(fighter1_name, fighter2_name, model)`: `lookup` stands for
    `get_fighter_data` (the API or its CSV fallback, None when neither has the fighter).
    Fighter 1 is the Blue side; a prediction of 1 makes fighter 1 the winner, anything else
    fighter 2. A conversion or classifier exception becomes the "Prediction failed" error.
   */
  function PredictFight(name1: string, name2: string, lookup: string -> Option<Row>, clf: Classifier): LivePrediction {
    var data1, data2 := lookup(name1), lookup(name2);
    if Absent(data1) || Absent(data2) then NotFound
    else PredictRecords(name1, name2, data1.value, data2.value, clf)
  }

  /** The part of `predict_fight` after both records were found: convert, predict, report. */
  function PredictRecords(name1: string, name2: string, data1: Row, data2: Row, clf: Classifier): (r: LivePrediction)
    ensures !r.NotFound?
  {
    Report(name1, name2, PredictionFormat(data1), PredictionFormat(data2), data1, data2, clf)
  }

  /** The first conversion error, else the prediction on the two converted records. */
  function Report(name1: string, name2: string, c1: Result<Dict<Cell>, PyError>, c2: Result<Dict<Cell>, PyError>,
                  data1: Row, data2: Row, clf: Classifier): (r: LivePrediction)
    ensures !r.NotFound?
    ensures c1.Err? ==> r == Failed(c1.error)
    ensures c1.Ok? && c2.Err? ==> r == Failed(c2.error)
  {
    match c1
    case Err(e) => Failed(e)
    case Ok(f1) =>
      match c2
      case Err(e) => Failed(e)
      case Ok(f2) => PredictConverted(name1, name2, f1, f2, data1, data2, clf)
  }

  /** The part of `predict_fight` after both records were converted: vector, model, report. */
  function PredictConverted(name1: string, name2: string, f1: Dict<Cell>, f2: Dict<Cell>,
                            data1: Row, data2: Row, clf: Classifier): (r: LivePrediction)
    ensures r.Predicted? || r == Failed(ModelError)
  {
    var fv := FeatureVector(f1, f2);
    var p := clf.predict(fv);
    if p.None? then Failed(ModelError)
    else
      var winner := if p.value == 1 then name1 else name2;
      var loser := if p.value == 1 then name2 else name1;
      Predicted(winner, loser, Confidence(clf.proba(fv)), data1, data2)
  }

  /** A missing record answers "Fighter data not found" whatever the model would say. */
  lemma PredictFightNotFound(name1: string, name2: string, lookup: string -> Option<Row>, clf: Classifier, other: Classifier)
    ensures PredictFight(name1, name2, lookup, clf).NotFound? <==> Absent(lookup(name1)) || Absent(lookup(name2))
    ensures PredictFight(name1, name2, lookup, clf).NotFound? ==>
              PredictFight(name1, name2, lookup, other).NotFound?
  {
  }

  /**
    With both records found and converted, the model sees the Blue-then-Red vector; fighter 1
    wins exactly when it answers 1, the loser is the other fighter, the confidence is
    `max(probabilities) * 100` or None, and the raw records are returned. A conversion error
    or a classifier exception is the only way to fail.
   */
  lemma PredictFightOutcome(name1: string, name2: string, lookup: string -> Option<Row>, clf: Classifier)
    requires !Absent(lookup(name1)) && !Absent(lookup(name2))
    ensures
      var c1, c2 := PredictionFormat(lookup(name1).value), PredictionFormat(lookup(name2).value);
      var r := PredictFight(name1, name2, lookup, clf);
      && (r.Failed? <==> c1.Err? || c2.Err? || clf.predict(FeatureVector(c1.value, c2.value)).None?)
      && (r.Failed? ==> r.error == ValueError || r.error == ModelError)
  {
    PredictionFormatRaises(lookup(name1).value);
    PredictionFormatRaises(lookup(name2).value);
  }

  /**
    A prediction is made from two found, converted rows on the Blue-then-Red vector: fighter 1
    wins exactly on the answer 1, the confidence is the largest probability as a percentage,
    and the raw records are returned.
   */
  lemma PredictFightPredicted(name1: string, name2: string, lookup: string -> Option<Row>, clf: Classifier)
    requires PredictFight(name1, name2, lookup, clf).Predicted?
    ensures !Absent(lookup(name1)) && !Absent(lookup(name2))
    ensures PredictionFormat(lookup(name1).value).Ok? && PredictionFormat(lookup(name2).value).Ok?
    ensures
      var c1, c2 := PredictionFormat(lookup(name1).value).value, PredictionFormat(lookup(name2).value).value;
      var r := PredictFight(name1, name2, lookup, clf);
      var fv := FeatureVector(c1, c2);
      && fv[0] == Values(c1) + Values(c2)
      && r.winner == (if clf.predict(fv) == Some(1) then name1 else name2)
      && r.loser == (if clf.predict(fv) == Some(1) then name2 else name1)
      && r.confidence == Confidence(clf.proba(fv))
      && r.fighter1 == lookup(name1).value && r.fighter2 == lookup(name2).value
  {
    var d1, d2 := lookup(name1).value, lookup(name2).value;
    assert PredictFight(name1, name2, lookup, clf) == PredictRecords(name1, name2, d1, d2, clf);
    PredictRecordsPredicted(name1, name2, d1, d2, clf);
  }

  /** PredictFightPredicted on the two found records. */
  lemma PredictRecordsPredicted(name1: string, name2: string, d1: Row, d2: Row, clf: Classifier)
    requires PredictRecords(name1, name2, d1, d2, clf).Predicted?
    ensures PredictionFormat(d1).Ok? && PredictionFormat(d2).Ok?
    ensures
      var c1, c2 := PredictionFormat(d1).value, PredictionFormat(d2).value;
      var r := PredictRecords(name1, name2, d1, d2, clf);
      var fv := FeatureVector(c1, c2);
      && fv[0] == Values(c1) + Values(c2)
      && r.winner == (if clf.predict(fv) == Some(1) then name1 else name2)
      && r.loser == (if clf.predict(fv) == Some(1) then name2 else name1)
      && r.confidence == Confidence(clf.proba(fv))
      && r.fighter1 == d1 && r.fighter2 == d2
  {
    var c1, c2 := PredictionFormat(d1), PredictionFormat(d2);
    assert c1.Ok? && c2.Ok?;
    assert PredictRecords(name1, name2, d1, d2, clf) == Report(name1, name2, c1, c2, d1, d2, clf);
    assert Report(name1, name2, c1, c2, d1, d2, clf) == PredictConverted(name1, name2, c1.value, c2.value, d1, d2, clf);
    PredictionFormatKeys(d1);
    PredictionFormatKeys(d2);
    PredictConvertedPredicted(name1, name2, c1.value, c2.value, d1, d2, clf);
  }

  /** A prediction on two converted records: the layout, winner, loser, confidence and records. */
  lemma PredictConvertedPredicted(name1: string, name2: string, f1: Dict<Cell>, f2: Dict<Cell>,
                                  d1: Row, d2: Row, clf: Classifier)
    requires Keys(f1) == LiveColumns && Keys(f2) == LiveColumns
    requires PredictConverted(name1, name2, f1, f2, d1, d2, clf).Predicted?
    ensures
      var r := PredictConverted(name1, name2, f1, f2, d1, d2, clf);
      var fv := FeatureVector(f1, f2);
      && fv[0] == Values(f1) + Values(f2)
      && r.winner == (if clf.predict(fv) == Some(1) then name1 else name2)
      && r.loser == (if clf.predict(fv) == Some(1) then name2 else name1)
      && r.confidence == Confidence(clf.proba(fv))
      && r.fighter1 == d1 && r.fighter2 == d2
  {
    FeatureVectorLayout(f1, f2);
  }

  /** Which corner the Predict button announces as the winner. */
  datatype Corner = Blue | Red

  /** What the Predict button shows. */
  datatype LiveScreen =
    | ChooseDifferent                                          // "Please choose 2 different fighters"
    | ShowError(prediction: LivePrediction)                    // the error of the result
    | ShowWinner(name: string, corner: Corner, confidence: Option<real>)

  /**
    The Predict button: equal selections are rejected before any lookup; otherwise the Blue
    selection is fighter 1. The winner is announced in the Blue corner when it is the Blue
    name, and the confidence line appears only when the confidence is truthy (present, not 0).
   */
  function LiveMain(blue: string, red: string, lookup: string -> Option<Row>, clf: Classifier): LiveScreen {
    if blue == red then ChooseDifferent
    else
      var r := PredictFight(blue, red, lookup, clf);
      if !r.Predicted? then ShowError(r)
      else
        var shown := if r.confidence.Some? && r.confidence.value != 0.0 then r.confidence else None;
        ShowWinner(r.winner, if r.winner == blue then Blue else Red, shown)
  }

  /**
    Equal names never reach the model; for different names the Blue corner wins exactly when
    the model answers 1 on the Blue-then-Red vector, and the winner shown is that corner's name.
   */
  lemma LiveMainCorner(blue: string, red: string, lookup: string -> Option<Row>, clf: Classifier)
    ensures LiveMain(blue, red, lookup, clf) == ChooseDifferent <==> blue == red
    ensures
      var s := LiveMain(blue, red, lookup, clf);
      s.ShowWinner? ==>
        var fv := FeatureVector(PredictionFormat(lookup(blue).value).value, PredictionFormat(lookup(red).value).value);
        && (s.corner == Blue <==> clf.predict(fv) == Some(1))
        && s.name == (if s.corner == Blue then blue else red)
  {
    if blue != red && PredictFight(blue, red, lookup, clf).Predicted? {
      PredictFightPredicted(blue, red, lookup, clf);
    }
  }
}
