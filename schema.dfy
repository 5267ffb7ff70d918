/** The fixed column names the prediction model was trained on, as the source spells them. */
module Schema {

  import opened Frames

  /** The eight performance statistics, in the order every converter writes them. */
  const StatColumns: seq<string> := [
    "sig_str_land_pM", "sig_str_abs_pM", "sig_str_def_pct", "sig_str_land_pct",
    "td_avg", "td_def_pct", "td_land_pct", "sub_avg"]

  /** The four stance one-hot columns. */
  const StanceColumns: seq<string> := [
    "Stance_Orthodox", "Stance_Southpaw", "Stance_Switch", "Stance_Open_Stance"]

  /** The twelve tail columns the crawler does not provide, in the source's order. */
  const TailColumns: seq<string> := [
    "current_lose_streak", "current_win_streak", "longest_win_streak",
    "total_rounds_fought", "total_title_bouts", "win_by_Decision_Majority",
    "win_by_Decision_Split", "win_by_Decision_Unanimous", "win_by_KO_TKO",
    "win_by_Submission", "win_by_TKO_Doctor_Stoppage", "age"]

  /** The default of each tail column where one is applied: 30 for age, 0 for the counters. */
  function TailDefault(col: string): real {
    if col == "age" then 30.0 else 0.0
  }

  /** The position in StanceColumns of the column a label switches on: Open for any other value. */
  function StanceIndex(stance: Cell): (i: nat)
    ensures i < 4
    ensures i < 3 <==> stance in {Str("Orthodox"), Str("Southpaw"), Str("Switch")}
  {
    if stance == Str("Orthodox") then 0
    else if stance == Str("Southpaw") then 1
    else if stance == Str("Switch") then 2
    else 3
  }

  function StanceColumnFor(stance: Cell): string {
    StanceColumns[StanceIndex(stance)]
  }

  /**
    The four one-hot values in StanceColumns order: `stance == 'Orthodox'`, `'Southpaw'`,
    `'Switch'`, and `not in` those three (a NaN label compares unequal to all of them).
   */
  function StanceOneHot(stance: Cell): (v: seq<real>)
    ensures |v| == 4
  {
    var other := stance != Str("Orthodox") && stance != Str("Southpaw") && stance != Str("Switch");
    [ if stance == Str("Orthodox") then 1.0 else 0.0,
      if stance == Str("Southpaw") then 1.0 else 0.0,
      if stance == Str("Switch") then 1.0 else 0.0,
      if other then 1.0 else 0.0 ]
  }

  /** Exactly one stance value is 1, the one at the label's own column, and the rest are 0. */
  lemma StanceOneHotExactlyOne(stance: Cell)
    ensures forall i :: 0 <= i < 4 ==>
              StanceOneHot(stance)[i] == if i == StanceIndex(stance) then 1.0 else 0.0
  {
  }

  lemma StanceColumnsDistinct()
    ensures Distinct(StanceColumns)
  {
  }

  lemma TailColumnsDistinct()
    ensures Distinct(TailColumns)
  {
  }

  lemma StatColumnsDistinct()
    ensures Distinct(StatColumns)
  {
  }

  /** The statistics, stance and tail names are all different. */
  lemma FeatureColumnsDistinct()
    ensures Distinct(StatColumns + StanceColumns + TailColumns)
    ensures Distinct(StanceColumns + TailColumns)
  {
    StatColumnsDistinct();
    StanceColumnsDistinct();
    TailColumnsDistinct();
    StanceTailDisjoint();
    DistinctConcat(StanceColumns, TailColumns);
    StatStanceDisjoint();
    StatTailDisjoint();
    DisjointConcat(StatColumns, StanceColumns, TailColumns);
    assert StatColumns + StanceColumns + TailColumns == StatColumns + (StanceColumns + TailColumns);
    DistinctConcat(StatColumns, StanceColumns + TailColumns);
  }

  lemma StanceTailDisjoint()
    ensures Disjoint(StanceColumns, TailColumns)
  {
  }

  lemma StatStanceDisjoint()
    ensures Disjoint(StatColumns, StanceColumns)
  {
  }

  lemma StatTailDisjoint()
    ensures Disjoint(StatColumns, TailColumns)
  {
  }
}
