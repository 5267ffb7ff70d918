/**
  The batch predictor in UFC-Prediction/app/test_upcoming_fights.py: a fighter table read
  by exact name, a metric-by-metric comparison of two fighters, a prediction on the feature
  columns of the table (fighter 1 the Blue side), and a whole card predicted one fight at a
  time with each fight's metadata merged over its result.
 */
module Upcoming {

  import opened Wrappers
  import opened Text
  import opened Frames

  // ---------------------------------------------------------------------------------------
  // analyze_fighter_comparison
  // ---------------------------------------------------------------------------------------

  /** The metrics compared, each with the label its comparison is reported under. */
  const KeyMetrics: seq<(string, string)> := [
    ("sig_str_land_pM", "Significant Strikes Landed per Minute"),
    ("td_avg", "Takedowns Average"),
    ("sub_avg", "Submission Average"),
    ("pass", "Guard Passes"),
    ("rev", "Reversals"),
    ("defence_percent", "Defense Percentage"),
    ("str_def_percent", "Strike Defense Percentage"),
    ("td_def_percent", "Takedown Defense Percentage")]

  /** Which fighter a compared metric favours. */
  datatype Side = Fighter1 | Fighter2

  /** One entry of `key_stats`: both values and the side with the advantage. */
  datatype Advantage = Advantage(fighter1Value: Cell, fighter2Value: Cell, advantage: Side)

  /** The analysis dict: both names and the comparisons under their labels. */
  datatype Comparison = Comparison(fighter1: string, fighter2: string, keyStats: Dict<Advantage>)

  /**
    Python `a > b` on two table values: numbers by value, strings in code-point order, NaN
    greater than nothing and nothing greater than NaN; a string against a number raises
    TypeError.
   */
  function Greater(a: Cell, b: Cell): (r: Result<bool, PyError>)
    ensures r.Err? <==> (a.Str? && !b.Str?) || (!a.Str? && b.Str?)
    ensures r.Err? ==> r.error == TypeError
    ensures a.Num? && b.Num? ==> r == Ok(a.x > b.x)
    ensures (a.Missing? || b.Missing?) && !a.Str? && !b.Str? ==> r == Ok(false)
  {
    match (a, b)
    case (Str(s), Str(t)) => Ok(!LexLe(s, t))
    case (Num(x), Num(y)) => Ok(x > y)
    case (Str(_), _) => Err(TypeError)
    case (_, Str(_)) => Err(TypeError)
    case _ => Ok(false)
  }

  /** On strings, `a > b` holds exactly when b comes strictly before a in code-point order. */
  lemma GreaterStrings(s: string, t: string)
    ensures Greater(Str(s), Str(t)) == Ok(LexLe(t, s) && s != t)
  {
    LexLeTotal(s, t);
    if LexLe(s, t) && LexLe(t, s) {
      LexLeAntisymmetric(s, t);
    }
    if s == t {
      LexLeReflexive(s);
    }
  }

  /** Equal values are never greater than each other, so a tie goes to fighter 2. */
  lemma GreaterIrreflexive(a: Cell)
    ensures Greater(a, a) == Ok(false)
  {
    if a.Str? {
      LexLeReflexive(a.s);
    }
  }

  /** A metric is compared when its column exists and both fighters' values are present. */
  predicate Compared(r1: Row, r2: Row, cols: seq<string>, metric: string) {
    metric in cols && !Get(r1, metric, Missing).Missing? && !Get(r2, metric, Missing).Missing?
  }

  /** The entry a compared metric gets: "fighter1" exactly when fighter 1's value is greater. */
  function Entry(r1: Row, r2: Row, metric: string): (e: Advantage)
    ensures e.fighter1Value == Get(r1, metric, Missing) && e.fighter2Value == Get(r2, metric, Missing)
    ensures e.advantage == Fighter1 <==> Greater(e.fighter1Value, e.fighter2Value) == Ok(true)
  {
    var v1, v2 := Get(r1, metric, Missing), Get(r2, metric, Missing);
    Advantage(v1, v2, if Greater(v1, v2) == Ok(true) then Fighter1 else Fighter2)
  }

  /**
    The `key_stats` the loop over the metrics builds from the first row of each fighter:
    skipped metrics leave it unchanged, a comparison that raises ends it.
   */
  function KeyStats(r1: Row, r2: Row, cols: seq<string>, metrics: seq<(string, string)>): (r: Result<Dict<Advantage>, PyError>)
    decreases |metrics|
  {
    if |metrics| == 0 then Ok([])
    else
      var prev :- KeyStats(r1, r2, cols, metrics[..|metrics| - 1]);
      var metric, caption := metrics[|metrics| - 1].0, metrics[|metrics| - 1].1;
      if !Compared(r1, r2, cols, metric) then Ok(prev)
      else
        var g :- Greater(Get(r1, metric, Missing), Get(r2, metric, Missing));
        Ok(Put(prev, caption, Entry(r1, r2, metric)))
  }

  /** The labels of a metric list. */
  function Labels(metrics: seq<(string, string)>): (r: seq<string>)
    ensures |r| == |metrics| && forall k :: 0 <= k < |metrics| ==> r[k] == metrics[k].1
  {
    seq(|metrics|, k requires 0 <= k < |metrics| => metrics[k].1)
  }

  /** Once a comparison raises on a prefix of the metrics, the whole loop raises that error. */
  lemma {:induction false} KeyStatsErrSticks(r1: Row, r2: Row, cols: seq<string>, metrics: seq<(string, string)>, n: nat)
    requires n <= |metrics| && KeyStats(r1, r2, cols, metrics[..n]).Err?
    ensures KeyStats(r1, r2, cols, metrics) == KeyStats(r1, r2, cols, metrics[..n])
    decreases |metrics|
  {
    if n < |metrics| {
      var init := metrics[..|metrics| - 1];
      assert init[..n] == metrics[..n];
      KeyStatsErrSticks(r1, r2, cols, init, n);
    } else {
      assert metrics[..n] == metrics;
    }
  }

  /** The loop raises exactly when some compared metric holds a string against a number. */
  lemma {:induction false} KeyStatsRaises(r1: Row, r2: Row, cols: seq<string>, metrics: seq<(string, string)>)
    ensures KeyStats(r1, r2, cols, metrics).Err? <==>
              exists k :: 0 <= k < |metrics| && Compared(r1, r2, cols, metrics[k].0)
                && Greater(Get(r1, metrics[k].0, Missing), Get(r2, metrics[k].0, Missing)).Err?
    ensures KeyStats(r1, r2, cols, metrics).Err? ==> KeyStats(r1, r2, cols, metrics).error == TypeError
    decreases |metrics|
  {
    if |metrics| > 0 {
      var n := |metrics| - 1;
      var init := metrics[..n];
      KeyStatsRaises(r1, r2, cols, init);
      assert forall k :: 0 <= k < n ==> init[k] == metrics[k];
    }
  }

  /**
    With distinct labels and no comparison raising, each label holds its metric's entry when
    the metric is compared and is absent when it is not.
   */
  lemma {:induction false} KeyStatsEntries(r1: Row, r2: Row, cols: seq<string>, metrics: seq<(string, string)>)
    requires Distinct(Labels(metrics))
    ensures KeyStats(r1, r2, cols, metrics).Ok? ==>
              forall k :: 0 <= k < |metrics| ==>
                Lookup(KeyStats(r1, r2, cols, metrics).value, metrics[k].1) ==
                  if Compared(r1, r2, cols, metrics[k].0) then Some(Entry(r1, r2, metrics[k].0)) else None
    decreases |metrics|
  {
    if |metrics| > 0 {
      var n := |metrics| - 1;
      var init := metrics[..n];
      assert Labels(init) == Labels(metrics)[..n];
      KeyStatsEntries(r1, r2, cols, init);
      KeyStatsLabels(r1, r2, cols, init);
      var prev := KeyStats(r1, r2, cols, init);
      var metric, caption := metrics[n].0, metrics[n].1;
      assert forall k :: 0 <= k < n ==> init[k] == metrics[k];
      if prev.Ok? && Compared(r1, r2, cols, metric) && Greater(Get(r1, metric, Missing), Get(r2, metric, Missing)).Ok? {
        var r := Put(prev.value, caption, Entry(r1, r2, metric));
        assert KeyStats(r1, r2, cols, metrics) == Ok(r);
        forall k | 0 <= k < |metrics|
          ensures Lookup(r, metrics[k].1) ==
                    if Compared(r1, r2, cols, metrics[k].0) then Some(Entry(r1, r2, metrics[k].0)) else None
        {
          PutLookup(prev.value, caption, Entry(r1, r2, metric), metrics[k].1);
          if k < n {
            assert Labels(metrics)[k] != Labels(metrics)[n];
          }
        }
      } else if prev.Ok? && !Compared(r1, r2, cols, metric) {
        assert caption !in Labels(init) by {
          forall j | 0 <= j < n ensures Labels(init)[j] != caption {
            assert Labels(metrics)[j] != Labels(metrics)[n];
          }
        }
        assert caption !in Keys(prev.value);
      }
    }
  }

  /** Every key the loop writes is the label of one of the metrics. */
  lemma {:induction false} KeyStatsLabels(r1: Row, r2: Row, cols: seq<string>, metrics: seq<(string, string)>)
    ensures KeyStats(r1, r2, cols, metrics).Ok? ==>
              forall l :: l in Keys(KeyStats(r1, r2, cols, metrics).value) ==> l in Labels(metrics)
    decreases |metrics|
  {
    if |metrics| > 0 {
      var n := |metrics| - 1;
      var init := metrics[..n];
      assert Labels(init) == Labels(metrics)[..n];
      KeyStatsLabels(r1, r2, cols, init);
      var prev := KeyStats(r1, r2, cols, init);
      var metric, caption := metrics[n].0, metrics[n].1;
      if prev.Ok? && Compared(r1, r2, cols, metric) && Greater(Get(r1, metric, Missing), Get(r2, metric, Missing)).Ok? {
        var r := Put(prev.value, caption, Entry(r1, r2, metric));
        forall l | l in Keys(r) ensures l in Labels(metrics) {
          if l != caption {
            LookupSomeKey(r, l);
            PutLookup(prev.value, caption, Entry(r1, r2, metric), l);
            LookupSomeKey(prev.value, l);
            assert l in Labels(init);
          }
          assert Labels(metrics)[n] == caption;
        }
      } else if prev.Ok? {
        forall l | l in Keys(prev.value) ensures l in Labels(metrics) {
          assert l in Labels(init);
        }
      }
    }
  }

  /** A label is a key exactly when the lookup finds it. */
  lemma LookupSomeKey<V>(d: Dict<V>, k: string)
    ensures Lookup(d, k).Some? <==> k in Keys(d)
  {
  }

  /** The labels of the eight metrics differ. */
  lemma KeyMetricsLabels()
    ensures Distinct(Labels(KeyMetrics))
  {
    var l := Labels(KeyMetrics);
    assert |l[0]| == 37 && |l[1]| == 17 && |l[2]| == 18 && |l[3]| == 12;
    assert |l[4]| == 9 && |l[5]| == 18 && |l[6]| == 25 && |l[7]| == 27;
    assert l[2][0] != l[5][0];
  }

  // ---------------------------------------------------------------------------------------
  // predict_fight and predict_fight_card: results and their dict form
  // ---------------------------------------------------------------------------------------

  /** What `predict_fight` returns. */
  datatype FightResult =
    | Forecast(winner: string, loser: string, confidence: Option<real>, fighter1: string, fighter2: string, analysis: Comparison)
    | Failure(error: PyError, fighter1: string, fighter2: string)   // "Prediction failed: ..."

  /** A value held by a fight dict or a result dict. */
  datatype Value =
    | Text(s: string)
    | Flag(b: bool)
    | Number(x: real)
    | Null
    | FailedWith(e: PyError)        // the string "Prediction failed: " followed by the exception's text
    | Report(comparison: Comparison)
    | Record(fields: seq<(string, Value)>)

  /** Python truthiness of a fight value. */
  predicate Truthy(v: Value) {
    match v
    case Text(s) => s != ""
    case Flag(b) => b
    case Number(x) => x != 0.0
    case Null => false
    case Record(fields) => |fields| > 0
    case _ => true
  }

  /** `fight.get(key, '')`. */
  function NameValue(fight: Dict<Value>, key: string): (v: Value)
    ensures key !in Keys(fight) ==> v == Text("")
  {
    match Lookup(fight, key)
    case Some(v) => v
    case None => Text("")
  }

  /** `predict_fight` takes the names as strings: a name that is given is a string. */
  predicate NamesAreText(fight: Dict<Value>) {
    (Truthy(NameValue(fight, "fighter1")) ==> NameValue(fight, "fighter1").Text?)
    && (Truthy(NameValue(fight, "fighter2")) ==> NameValue(fight, "fighter2").Text?)
  }

  /** A fight both of whose names are given. */
  predicate HasNames(fight: Dict<Value>) {
    Truthy(NameValue(fight, "fighter1")) && Truthy(NameValue(fight, "fighter2"))
  }

  /** The result of a fight without both names. */
  function MissingNames(fight: Dict<Value>): (d: Dict<Value>)
    ensures Keys(d) == ["error", "fight"]
    ensures Lookup(d, "error") == Some(Text("Missing fighter names")) && Lookup(d, "fight") == Some(Record(fight))
  {
    [("error", Text("Missing fighter names")), ("fight", Record(fight))]
  }

  /** The dict `predict_fight` returns, keys in the order the source writes them. */
  function AsDict(r: FightResult): (d: Dict<Value>)
    ensures r.Forecast? ==> Keys(d) == ["winner", "loser", "confidence", "fighter1", "fighter2", "analysis"]
    ensures r.Failure? ==> Keys(d) == ["error", "fighter1", "fighter2"]
  {
    match r
    case Forecast(winner, loser, confidence, f1, f2, analysis) =>
      [("winner", Text(winner)), ("loser", Text(loser)),
       ("confidence", if confidence.Some? then Number(confidence.value) else Text("N/A")),
       ("fighter1", Text(f1)), ("fighter2", Text(f2)), ("analysis", Report(analysis))]
    case Failure(e, f1, f2) =>
      [("error", FailedWith(e)), ("fighter1", Text(f1)), ("fighter2", Text(f2))]
  }

  /**
    Both kinds of result carry both names; an error result and only an error result has
    "error"; a prediction has its winner, loser and confidence, "N/A" when absent.
   */
  lemma AsDictFields(r: FightResult)
    ensures Lookup(AsDict(r), "fighter1") == Some(Text(r.fighter1)) && Lookup(AsDict(r), "fighter2") == Some(Text(r.fighter2))
    ensures Lookup(AsDict(r), "error").Some? <==> r.Failure?
    ensures r.Failure? ==> Lookup(AsDict(r), "error") == Some(FailedWith(r.error))
    ensures r.Forecast? ==> Lookup(AsDict(r), "winner") == Some(Text(r.winner)) && Lookup(AsDict(r), "loser") == Some(Text(r.loser))
    ensures r.Forecast? ==>
              Lookup(AsDict(r), "confidence") == Some(if r.confidence.Some? then Number(r.confidence.value) else Text("N/A"))
  {
    var d := AsDict(r);
    var k := Keys(d);
    if r.Forecast? {
      assert k[0][0] == 'w' && k[1][0] == 'l' && k[2][0] == 'c' && k[3][0] == 'f' && k[4][0] == 'f' && k[5][0] == 'a';
      assert k[3][7] == '1' && k[4][7] == '2';
      assert "error" !in k by {
        assert forall i :: 0 <= i < |k| ==> k[i][0] != 'e';
      }
      LookupAt(d, 0);
      LookupAt(d, 1);
      LookupAt(d, 2);
      LookupAt(d, 3);
      LookupAt(d, 4);
    } else {
      assert k[0][0] == 'e' && k[1][0] == 'f' && k[2][0] == 'f';
      assert k[1][7] == '1' && k[2][7] == '2';
      LookupAt(d, 0);
      LookupAt(d, 1);
      LookupAt(d, 2);
    }
  }

  /**
    The features: the table's columns from index 3 on (after the id, the date and the name),
    fighter 1's rows renamed `B_`, fighter 2's `R_`, side by side.
   */
  function FightSample(columns: seq<string>, s1: Table, s2: Table): Sample {
    PairSample(ColumnsFrom(columns, 3), s1.rows, s2.rows)
  }

  // ---------------------------------------------------------------------------------------
  // UFC_Predictor
  // ---------------------------------------------------------------------------------------

  /**
    `UFC_Predictor`: the fighter table and the trained model. Reading the CSV and unpickling
    the model are inputs; when either raises, `__init__` raises and there is no predictor.
   */
  class UfcPredictor {
    const df: Table
    const model: Classifier

    /** `__init__` followed by `load_data_and_model`. */
    constructor (data: Table, trained: Classifier)
      ensures df == data && model == trained
    {
      df := data;
      model := trained;
    }

    /**
      `get_fighter_stats`: the rows whose `fighter` cell is exactly the name, all of them,
      with every column; none is ValueError, and a table without the column raises KeyError.
     */
    function GetFighterStats(name: string): (r: Result<Table, PyError>)
      ensures "fighter" !in df.columns ==> r == Err(KeyError("fighter"))
      ensures r.Err? && "fighter" in df.columns ==> r.error == FighterNotFound(name)
      ensures r.Ok? ==> r.value.columns == df.columns && |r.value.rows| > 0
      ensures r.Ok? ==> forall i :: 0 <= i < |r.value.rows| ==> Get(r.value.rows[i], "fighter", Missing) == Str(name)
    {
      if "fighter" !in df.columns then Err(KeyError("fighter"))
      else
        var rows := RowsWhere(df.rows, "fighter", Str(name));
        if |rows| == 0 then Err(FighterNotFound(name)) else Ok(Table(df.columns, rows))
    }

    /** What `analyze_fighter_comparison` computes: both lookups, then the metric loop on their first rows. */
    function Analysis(fighter1: string, fighter2: string): (r: Result<Comparison, PyError>)
      ensures r.Ok? ==> r.value.fighter1 == fighter1 && r.value.fighter2 == fighter2
      ensures r.Ok? ==> GetFighterStats(fighter1).Ok? && GetFighterStats(fighter2).Ok?
    {
      var s1 :- GetFighterStats(fighter1);
      var s2 :- GetFighterStats(fighter2);
      var stats :- KeyStats(s1.rows[0], s2.rows[0], s1.columns, KeyMetrics);
      Ok(Comparison(fighter1, fighter2, stats))
    }

    /** `analyze_fighter_comparison`: the loop over the metrics. */
    method AnalyzeFighterComparison(fighter1: string, fighter2: string) returns (r: Result<Comparison, PyError>)
      ensures r == Analysis(fighter1, fighter2)
    {
      var s1 := GetFighterStats(fighter1);
      if s1.Err? {
        return Err(s1.error);
      }
      var s2 := GetFighterStats(fighter2);
      if s2.Err? {
        return Err(s2.error);
      }
      var row1, row2, cols := s1.value.rows[0], s2.value.rows[0], s1.value.columns;
      var keyStats: Dict<Advantage> := [];
      for n := 0 to |KeyMetrics|
        invariant KeyStats(row1, row2, cols, KeyMetrics[..n]) == Ok(keyStats)
      {
        assert KeyMetrics[..n + 1][..n] == KeyMetrics[..n];
        var metric, caption := KeyMetrics[n].0, KeyMetrics[n].1;
        if metric in cols {
          var v1, v2 := Get(row1, metric, Missing), Get(row2, metric, Missing);
          if !v1.Missing? && !v2.Missing? {
            var g := Greater(v1, v2);
            if g.Err? {
              KeyStatsErrSticks(row1, row2, cols, KeyMetrics, n + 1);
              return Err(g.error);
            }
            keyStats := Put(keyStats, caption, Advantage(v1, v2, if g.value then Fighter1 else Fighter2));
          }
        }
      }
      assert KeyMetrics[..|KeyMetrics|] == KeyMetrics;
      return Ok(Comparison(fighter1, fighter2, keyStats));
    }

    /**
      What `predict_fight` returns: any exception (a lookup, the classifier's prediction, the
      analysis) is the error result; a failing `predict_proba` only makes the confidence "N/A".
     */
    function Prediction(fighter1: string, fighter2: string): (r: FightResult)
      ensures r.fighter1 == fighter1 && r.fighter2 == fighter2
      ensures r.Forecast? ==> {r.winner, r.loser} == {fighter1, fighter2}
    {
      var s1 := GetFighterStats(fighter1);
      if s1.Err? then Failure(s1.error, fighter1, fighter2)
      else
        var s2 := GetFighterStats(fighter2);
        if s2.Err? then Failure(s2.error, fighter1, fighter2)
        else
          var features := FightSample(df.columns, s1.value, s2.value).values;
          var p := model.predict(features);
          if p.None? then Failure(ModelError, fighter1, fighter2)
          else
            var a := Analysis(fighter1, fighter2);
            if a.Err? then Failure(a.error, fighter1, fighter2)
            else
              var blueWins := p.value == 1;
              Forecast(if blueWins then fighter1 else fighter2, if blueWins then fighter2 else fighter1,
                       Confidence(model.proba(features)), fighter1, fighter2, a.value)
    }

    /** `predict_fight`. */
    method PredictFight(fighter1: string, fighter2: string) returns (r: FightResult)
      ensures r == Prediction(fighter1, fighter2)
    {
      var s1 := GetFighterStats(fighter1);
      if s1.Err? {
        return Failure(s1.error, fighter1, fighter2);
      }
      var s2 := GetFighterStats(fighter2);
      if s2.Err? {
        return Failure(s2.error, fighter1, fighter2);
      }
      var features := FightSample(df.columns, s1.value, s2.value).values;
      var p := model.predict(features);
      if p.None? {
        return Failure(ModelError, fighter1, fighter2);
      }
      var winner, loser := fighter2, fighter1;
      if p.value == 1 {
        winner, loser := fighter1, fighter2;
      }
      var confidence := Confidence(model.proba(features));
      var a := AnalyzeFighterComparison(fighter1, fighter2);
      if a.Err? {
        return Failure(a.error, fighter1, fighter2);
      }
      return Forecast(winner, loser, confidence, fighter1, fighter2, a.value);
    }

    /** The entry `predict_fight_card` appends for one fight. */
    function CardEntry(fight: Dict<Value>): (d: Dict<Value>)
      requires NamesAreText(fight)
    {
      if !HasNames(fight) then MissingNames(fight) else Merged(fight)
    }

    /** `prediction.update(fight)`: the prediction for the fight's names, the fight's keys written over it. */
    function Merged(fight: Dict<Value>): (d: Dict<Value>)
      requires NamesAreText(fight) && HasNames(fight)
    {
      Update(AsDict(Prediction(NameValue(fight, "fighter1").s, NameValue(fight, "fighter2").s)), fight)
    }

    /** `predict_fight_card`: one entry per fight, in the card's order. */
    method PredictFightCard(fights: seq<Dict<Value>>) returns (results: seq<Dict<Value>>)
      requires forall i :: 0 <= i < |fights| ==> NamesAreText(fights[i])
      ensures |results| == |fights|
      ensures forall i :: 0 <= i < |fights| ==> results[i] == CardEntry(fights[i])
    {
      ghost var entries := seq(|fights|, i requires 0 <= i < |fights| => CardEntry(fights[i]));
      results := [];
      for i := 0 to |fights|
        invariant results == entries[..i]
      {
        var entry := FightEntry(fights[i]);
        assert entries[..i + 1] == entries[..i] + [entries[i]];
        results := results + [entry];
      }
      assert entries[..|fights|] == entries;
    }

    /** The body of the card loop for one fight: the missing-names error, or the merged prediction. */
    method FightEntry(fight: Dict<Value>) returns (entry: Dict<Value>)
      requires NamesAreText(fight)
      ensures entry == CardEntry(fight)
    {
      var fighter1, fighter2 := NameValue(fight, "fighter1"), NameValue(fight, "fighter2");
      if !Truthy(fighter1) || !Truthy(fighter2) {
        entry := MissingNames(fight);
      } else {
        var prediction := PredictFight(fighter1.s, fighter2.s);
        entry := Update(AsDict(prediction), fight);
      }
    }
  }

  // ---------------------------------------------------------------------------------------
  // Properties
  // ---------------------------------------------------------------------------------------

  /**
    The lookup finds a fighter exactly when some row's `fighter` cell is that name, and
    it returns exactly the rows that have it, the first of them first.
   */
  lemma GetFighterStatsRows(p: UfcPredictor, name: string)
    requires "fighter" in p.df.columns
    ensures p.GetFighterStats(name).Ok? <==> exists i :: 0 <= i < |p.df.rows| && Get(p.df.rows[i], "fighter", Missing) == Str(name)
    ensures p.GetFighterStats(name).Ok? ==>
              forall x :: x in p.GetFighterStats(name).value.rows <==> x in p.df.rows && Get(x, "fighter", Missing) == Str(name)
    ensures forall i :: (0 <= i < |p.df.rows| && Get(p.df.rows[i], "fighter", Missing) == Str(name)
                      && forall j :: 0 <= j < i ==> Get(p.df.rows[j], "fighter", Missing) != Str(name)) ==>
              p.GetFighterStats(name).Ok? && p.GetFighterStats(name).value.rows[0] == p.df.rows[i]
  {
    RowsWhereEmpty(p.df.rows, "fighter", Str(name));
    RowsWhereMembers(p.df.rows, "fighter", Str(name));
    forall i | 0 <= i < |p.df.rows| && Get(p.df.rows[i], "fighter", Missing) == Str(name)
                && (forall j :: 0 <= j < i ==> Get(p.df.rows[j], "fighter", Missing) != Str(name))
      ensures p.GetFighterStats(name).Ok? && p.GetFighterStats(name).value.rows[0] == p.df.rows[i]
    {
      RowsWhereFirst(p.df.rows, "fighter", Str(name), i);
    }
  }

  /**
    When both fighters are found, the analysis raises exactly when a compared metric holds a
    string against a number; otherwise each metric's label holds its entry exactly when its
    column exists and both first-row values are present, and no other label appears.
   */
  lemma AnalysisEntries(p: UfcPredictor, fighter1: string, fighter2: string)
    requires p.GetFighterStats(fighter1).Ok? && p.GetFighterStats(fighter2).Ok?
    ensures
      var r1, r2 := p.GetFighterStats(fighter1).value.rows[0], p.GetFighterStats(fighter2).value.rows[0];
      var a := p.Analysis(fighter1, fighter2);
      && (a.Err? <==> exists k :: 0 <= k < |KeyMetrics| && Compared(r1, r2, p.df.columns, KeyMetrics[k].0)
                        && Greater(Get(r1, KeyMetrics[k].0, Missing), Get(r2, KeyMetrics[k].0, Missing)).Err?)
      && (a.Err? ==> a.error == TypeError)
      && (a.Ok? ==> forall k :: 0 <= k < |KeyMetrics| ==>
            Lookup(a.value.keyStats, KeyMetrics[k].1) ==
              if Compared(r1, r2, p.df.columns, KeyMetrics[k].0) then Some(Entry(r1, r2, KeyMetrics[k].0)) else None)
      && (a.Ok? ==> forall l :: l in Keys(a.value.keyStats) ==> l in Labels(KeyMetrics))
  {
    var r1, r2 := p.GetFighterStats(fighter1).value.rows[0], p.GetFighterStats(fighter2).value.rows[0];
    KeyMetricsLabels();
    KeyStatsRaises(r1, r2, p.df.columns, KeyMetrics);
    KeyStatsEntries(r1, r2, p.df.columns, KeyMetrics);
    KeyStatsLabels(r1, r2, p.df.columns, KeyMetrics);
  }

  /**
    A compared metric favours fighter 1 exactly when its value is strictly greater: for
    numbers, `x1 > x2`, so equal values favour fighter 2.
   */
  lemma EntryAdvantage(r1: Row, r2: Row, metric: string)
    ensures Get(r1, metric, Missing).Num? && Get(r2, metric, Missing).Num? ==>
              (Entry(r1, r2, metric).advantage == Fighter1 <==> Get(r1, metric, Missing).x > Get(r2, metric, Missing).x)
    ensures Get(r1, metric, Missing) == Get(r2, metric, Missing) ==> Entry(r1, r2, metric).advantage == Fighter2
  {
    GreaterIrreflexive(Get(r1, metric, Missing));
  }

  /**
    The prediction fails exactly when a lookup raises, the classifier raises on the features,
    or the analysis raises, in that order; otherwise the classifier saw fighter 1's feature
    columns (named `B_`) before fighter 2's (`R_`), fighter 1 wins exactly when it answers
    1, and the confidence is `max(probabilities) * 100` or None.
   */
  lemma PredictionOutcome(p: UfcPredictor, fighter1: string, fighter2: string)
    ensures
      var s1, s2 := p.GetFighterStats(fighter1), p.GetFighterStats(fighter2);
      var r := p.Prediction(fighter1, fighter2);
      && (s1.Err? ==> r == Failure(s1.error, fighter1, fighter2))
      && (s1.Ok? && s2.Err? ==> r == Failure(s2.error, fighter1, fighter2))
      && (s1.Ok? && s2.Ok? ==>
            var sample := FightSample(p.df.columns, s1.value, s2.value);
            var feats := ColumnsFrom(p.df.columns, 3);
            && sample.columns == Prefixed("B_", feats) + Prefixed("R_", feats)
            && (r.Failure? <==> p.model.predict(sample.values).None? || p.Analysis(fighter1, fighter2).Err?)
            && (p.model.predict(sample.values).None? ==> r.error == ModelError)
            && (r.Forecast? ==>
                  && (r.winner == fighter1 && r.loser == fighter2 <== p.model.predict(sample.values) == Some(1))
                  && (r.winner == fighter2 && r.loser == fighter1 <== p.model.predict(sample.values) != Some(1))
                  && r.confidence == Confidence(p.model.proba(sample.values))
                  && p.Analysis(fighter1, fighter2) == Ok(r.analysis)))
  {
  }

  /**
    The features are the table's columns from index 3 on; each row of the features holds
    fighter 1's cells under them, then fighter 2's, NaN where one fighter has fewer rows.
   */
  lemma FightSampleValues(columns: seq<string>, s1: Table, s2: Table)
    ensures
      var m, feats := FightSample(columns, s1, s2).values, ColumnsFrom(columns, 3);
      && |m| == (if |s1.rows| >= |s2.rows| then |s1.rows| else |s2.rows|)
      && forall i, k :: 0 <= i < |m| && 0 <= k < |feats| ==>
           && m[i][k] == (if i < |s1.rows| then Get(s1.rows[i], feats[k], Missing) else Missing)
           && m[i][|feats| + k] == (if i < |s2.rows| then Get(s2.rows[i], feats[k], Missing) else Missing)
  {
    var feats := ColumnsFrom(columns, 3);
    var m := FightSample(columns, s1, s2).values;
    assert m == PairSample(feats, s1.rows, s2.rows).values;
    forall i, k | 0 <= i < |m| && 0 <= k < |feats|
      ensures m[i][k] == (if i < |s1.rows| then Get(s1.rows[i], feats[k], Missing) else Missing)
      ensures m[i][|feats| + k] == (if i < |s2.rows| then Get(s2.rows[i], feats[k], Missing) else Missing)
    {
      PairSampleAt(feats, s1.rows, s2.rows, i, k);
    }
  }

  /**
    A fight without both names gets the "Missing fighter names" entry holding the fight,
    whatever the table and the model: no prediction is made for it.
   */
  lemma CardEntryMissing(p: UfcPredictor, q: UfcPredictor, fight: Dict<Value>)
    requires NamesAreText(fight) && !HasNames(fight)
    ensures p.CardEntry(fight) == MissingNames(fight) == q.CardEntry(fight)
  {
  }

  /**
    For a fight with both names, the entry is the prediction for those names with the
    fight's own keys written over it: a key of the fight reads the fight's value, any other
    key reads the prediction's.
   */
  lemma CardEntryMerge(p: UfcPredictor, fight: Dict<Value>, k: string)
    requires NamesAreText(fight) && HasNames(fight) && Distinct(Keys(fight))
    ensures
      var prediction := p.Prediction(NameValue(fight, "fighter1").s, NameValue(fight, "fighter2").s);
      Lookup(p.CardEntry(fight), k) == if k in Keys(fight) then Lookup(fight, k) else Lookup(AsDict(prediction), k)
  {
    var prediction := p.Prediction(NameValue(fight, "fighter1").s, NameValue(fight, "fighter2").s);
    UpdateLookup(AsDict(prediction), fight, k);
  }
}
