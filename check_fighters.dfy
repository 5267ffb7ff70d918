/**
  The roster check in UFC-Prediction/app/check_fighters.py: the card's fighters split into
  those whose exact name is a `fighter` value of the table and those missing, and for each
  missing fighter the roster names that contain its first word, ignoring case.
 */
module CheckFighters {

  import opened Wrappers
  import opened Text
  import opened Frames

  /** The fighters of the UFC 320 card the check is written for. */
  const Ufc320Fighters: seq<string> := [
    "Magomed Ankalaev", "Alex Pereira",
    "Merab Dvalishvili", "Cory Sandhagen",
    "Jiří Procházka", "Khalil Rountree",
    "Josh Emmett", "Youssef Zalal"]

  /** `df['fighter'].values`: the fighter cell of every row, in order. */
  function FighterValues(rows: seq<Row>): (r: seq<Cell>)
    ensures |r| == |rows| && forall i :: 0 <= i < |rows| ==> r[i] == Get(rows[i], "fighter", Missing)
  {
    seq(|rows|, i requires 0 <= i < |rows| => Get(rows[i], "fighter", Missing))
  }

  /** The fighters the membership test finds and those it does not, each in card order. */
  function Partition(values: seq<Cell>, fighters: seq<string>): (r: (seq<string>, seq<string>))
    decreases |fighters|
  {
    if |fighters| == 0 then ([], [])
    else
      var prev := Partition(values, fighters[..|fighters| - 1]);
      var fighter := fighters[|fighters| - 1];
      if Str(fighter) in values then (prev.0 + [fighter], prev.1) else (prev.0, prev.1 + [fighter])
  }

  /** A roster name one of whose rows has it as its exact `fighter` value. */
  predicate InRoster(rows: seq<Row>, name: string) {
    exists i :: 0 <= i < |rows| && Get(rows[i], "fighter", Missing) == Str(name)
  }

  /**
    The roster names, in row order, that contain the token ignoring case: the
    `str.contains(token, case=False, na=False)` mask.
   */
  function Similar(rows: seq<Row>, token: string): (r: seq<string>)
    decreases |rows|
  {
    if |rows| == 0 then []
    else
      var prev := Similar(rows[..|rows| - 1], token);
      var c := Get(rows[|rows| - 1], "fighter", Missing);
      if c.Str? && ContainsIgnoreCase(c.s, token) then prev + [c.s] else prev
  }

  /**
    The names shown for one missing fighter: `.str` on a column without strings raises
    AttributeError, a blank name has no first word (IndexError), and at most three of the
    similar names are printed.
   */
  function SimilarNames(rows: seq<Row>, name: string): (r: Result<seq<string>, PyError>)
    ensures r.Ok? ==> |r.value| <= 3
  {
    if !StrColumn(rows, "fighter") then Err(AttributeError)
    else
      var token := FirstToken(name);
      if token.None? then Err(IndexError) else Ok(Take(Similar(rows, token.value), 3))
  }

  /** The similar-name lines for the missing fighters, in order; the first error ends them. */
  function Shown(rows: seq<Row>, missing: seq<string>): (r: Result<seq<seq<string>>, PyError>)
    ensures r.Ok? ==> |r.value| == |missing|
    decreases |missing|
  {
    if |missing| == 0 then Ok([])
    else
      var prev :- Shown(rows, missing[..|missing| - 1]);
      var names :- SimilarNames(rows, missing[|missing| - 1]);
      Ok(prev + [names])
  }

  /** The returned pair, and the similar names printed for each missing fighter. */
  datatype Report = Report(found: seq<string>, missing: seq<string>, shown: seq<seq<string>>)

  /**
    `check_ufc320_fighters` for any list of fighters: a table without a fighter column
    raises KeyError on the first membership test, and the similar-name search runs only
    when some fighter is missing.
   */
  function Check(df: Table, fighters: seq<string>): (r: Result<Report, PyError>)
  {
    if |fighters| > 0 && "fighter" !in df.columns then Err(KeyError("fighter"))
    else
      var split := Partition(FighterValues(df.rows), fighters);
      var shown :- Shown(df.rows, split.1);
      Ok(Report(split.0, split.1, shown))
  }

  /**
    `check_ufc320_fighters` on the loaded table: the membership loop over the card's
    fighters, then the similar-name loop over the missing ones.
   */
  method CheckUfc320Fighters(df: Table) returns (r: Result<Report, PyError>)
    ensures r == Check(df, Ufc320Fighters)
  {
    var fighters := Ufc320Fighters;
    if "fighter" !in df.columns {
      return Err(KeyError("fighter"));
    }
    var values := FighterValues(df.rows);
    var found: seq<string> := [];
    var missing: seq<string> := [];
    for i := 0 to |fighters|
      invariant Partition(values, fighters[..i]) == (found, missing)
    {
      assert fighters[..i + 1][..i] == fighters[..i];
      var fighter := fighters[i];
      if Str(fighter) in values {
        found := found + [fighter];
      } else {
        missing := missing + [fighter];
      }
    }
    assert fighters[..|fighters|] == fighters;
    var shown: seq<seq<string>> := [];
    for k := 0 to |missing|
      invariant Shown(df.rows, missing[..k]) == Ok(shown)
    {
      assert missing[..k + 1][..k] == missing[..k];
      var similar := SimilarNames(df.rows, missing[k]);
      if similar.Err? {
        ShownErrSticks(df.rows, missing, k + 1);
        return Err(similar.error);
      }
      shown := shown + [similar.value];
    }
    assert missing[..|missing|] == missing;
    return Ok(Report(found, missing, shown));
  }

  /** Once one missing fighter's search raises, the whole search raises that error. */
  lemma {:induction false} ShownErrSticks(rows: seq<Row>, missing: seq<string>, n: nat)
    requires n <= |missing| && Shown(rows, missing[..n]).Err?
    ensures Shown(rows, missing) == Shown(rows, missing[..n])
    decreases |missing|
  {
    if n < |missing| {
      var init := missing[..|missing| - 1];
      assert init[..n] == missing[..n];
      ShownErrSticks(rows, init, n);
    } else {
      assert missing[..n] == missing;
    }
  }

  // ---------------------------------------------------------------------------------------
  // Properties
  // ---------------------------------------------------------------------------------------

  /** The membership test on the column's values is an exact, case-sensitive name match. */
  lemma InValues(rows: seq<Row>, name: string)
    ensures Str(name) in FighterValues(rows) <==> InRoster(rows, name)
  {
    var v := FighterValues(rows);
    if Str(name) in v {
      var i :| 0 <= i < |v| && v[i] == Str(name);
      assert Get(rows[i], "fighter", Missing) == Str(name);
    }
  }

  /**
    Every fighter lands in exactly one list: together the lists hold the card's fighters,
    the found ones are exactly those in the roster and the missing ones exactly those not.
   */
  lemma {:induction false} PartitionSplits(rows: seq<Row>, fighters: seq<string>)
    ensures var r := Partition(FighterValues(rows), fighters);
      && multiset(r.0) + multiset(r.1) == multiset(fighters)
      && (forall x :: x in r.0 <==> x in fighters && InRoster(rows, x))
      && (forall x :: x in r.1 <==> x in fighters && !InRoster(rows, x))
    decreases |fighters|
  {
    if |fighters| > 0 {
      var init := fighters[..|fighters| - 1];
      var last := fighters[|fighters| - 1];
      PartitionSplits(rows, init);
      InValues(rows, last);
      assert fighters == init + [last];
    }
  }

  /**
    The split of a joined card is the join of the splits: both lists keep the order the
    fighters have on the card.
   */
  lemma {:induction false} PartitionConcat(values: seq<Cell>, a: seq<string>, b: seq<string>)
    ensures Partition(values, a + b) == (Partition(values, a).0 + Partition(values, b).0,
                                         Partition(values, a).1 + Partition(values, b).1)
    decreases |b|
  {
    if |b| == 0 {
      assert a + b == a;
      assert Partition(values, b) == ([], []);
      assert Partition(values, a).0 + [] == Partition(values, a).0;
      assert Partition(values, a).1 + [] == Partition(values, a).1;
    } else {
      var b' := b[..|b| - 1];
      var x := b[|b| - 1];
      PartitionConcat(values, a, b');
      assert (a + b)[..|a + b| - 1] == a + b';
      assert (a + b)[|a + b| - 1] == x;
      var pa, pb, pb' := Partition(values, a), Partition(values, b), Partition(values, b');
      if Str(x) in values {
        assert pb == (pb'.0 + [x], pb'.1);
        assert Partition(values, a + b) == (pa.0 + pb'.0 + [x], pa.1 + pb'.1);
        assert pa.0 + pb'.0 + [x] == pa.0 + pb.0;
      } else {
        assert pb == (pb'.0, pb'.1 + [x]);
        assert Partition(values, a + b) == (pa.0 + pb'.0, pa.1 + pb'.1 + [x]);
        assert pa.1 + pb'.1 + [x] == pa.1 + pb.1;
      }
    }
  }

  /** A roster name is similar exactly when it is a string fighter cell containing the token, ignoring case. */
  lemma {:induction false} SimilarMembers(rows: seq<Row>, token: string)
    ensures forall x :: x in Similar(rows, token) <==>
              InRoster(rows, x) && ContainsIgnoreCase(x, token)
    decreases |rows|
  {
    if |rows| > 0 {
      var init := rows[..|rows| - 1];
      SimilarMembers(init, token);
      assert forall i :: 0 <= i < |init| ==> init[i] == rows[i];
      forall x | InRoster(rows, x) && ContainsIgnoreCase(x, token) ensures x in Similar(rows, token) {
        var i :| 0 <= i < |rows| && Get(rows[i], "fighter", Missing) == Str(x);
        if i < |init| {
          assert InRoster(init, x);
        }
      }
    }
  }

  /**
    The names shown for a missing fighter: at most three, the first three similar ones in
    roster order, each containing the fighter's first word, and all of them when fewer.
   */
  lemma SimilarShown(rows: seq<Row>, name: string)
    requires SimilarNames(rows, name).Ok?
    ensures var all := Similar(rows, FirstToken(name).value);
      var shown := SimilarNames(rows, name).value;
      && shown <= all
      && |shown| == (if |all| < 3 then |all| else 3)
      && forall x :: x in shown ==> InRoster(rows, x) && ContainsIgnoreCase(x, FirstToken(name).value)
  {
    SimilarMembers(rows, FirstToken(name).value);
  }

  /**
    The check raises exactly when some fighter is listed and the table has no fighter
    column, or some missing fighter's search raises; otherwise it returns the split and
    one line of similar names per missing fighter.
   */
  lemma CheckResult(df: Table, fighters: seq<string>)
    ensures var r := Check(df, fighters);
      var split := Partition(FighterValues(df.rows), fighters);
      && (|fighters| > 0 && "fighter" !in df.columns ==> r == Err(KeyError("fighter")))
      && (r.Ok? ==> r.value.found == split.0 && r.value.missing == split.1 && |r.value.shown| == |split.1|)
      && (r.Ok? ==> forall k :: 0 <= k < |split.1| ==> SimilarNames(df.rows, split.1[k]) == Ok(r.value.shown[k]))
    ensures var missing := Partition(FighterValues(df.rows), fighters).1;
      "fighter" in df.columns || |fighters| == 0 ==>
        (Check(df, fighters).Err? <==> exists k :: 0 <= k < |missing| && SimilarNames(df.rows, missing[k]).Err?)
  {
    var split := Partition(FighterValues(df.rows), fighters);
    ShownEntries(df.rows, split.1);
    if "fighter" in df.columns || |fighters| == 0 {
      var shown := Shown(df.rows, split.1);
      assert Check(df, fighters) == if shown.Err? then Err(shown.error) else Ok(Report(split.0, split.1, shown.value));
      if shown.Err? {
        var k :| 0 <= k < |split.1| && SimilarNames(df.rows, split.1[k]).Err?;
        assert Check(df, fighters).Err?;
        assert exists k :: 0 <= k < |split.1| && SimilarNames(df.rows, split.1[k]).Err?;
        assert split.1 == Partition(FighterValues(df.rows), fighters).1;
      } else {
        forall k | 0 <= k < |split.1| ensures SimilarNames(df.rows, split.1[k]).Ok? {
        }
      }
    }
  }

  /** The search raises exactly when one missing fighter's does; otherwise line k is fighter k's names. */
  lemma {:induction false} ShownEntries(rows: seq<Row>, missing: seq<string>)
    ensures Shown(rows, missing).Err? <==> exists k :: 0 <= k < |missing| && SimilarNames(rows, missing[k]).Err?
    ensures Shown(rows, missing).Ok? ==>
              forall k :: 0 <= k < |missing| ==> SimilarNames(rows, missing[k]) == Ok(Shown(rows, missing).value[k])
    decreases |missing|
  {
    if |missing| > 0 {
      var init := missing[..|missing| - 1];
      var last := missing[|missing| - 1];
      ShownEntries(rows, init);
      var prev := Shown(rows, init);
      var cur := SimilarNames(rows, last);
      if prev.Err? {
        assert Shown(rows, missing) == Err(prev.error);
        var k :| 0 <= k < |init| && SimilarNames(rows, init[k]).Err?;
        assert missing[k] == init[k];
      } else if cur.Err? {
        assert Shown(rows, missing) == Err(cur.error);
      } else {
        var all := prev.value + [cur.value];
        assert Shown(rows, missing) == Ok(all);
        forall k | 0 <= k < |missing| ensures SimilarNames(rows, missing[k]) == Ok(all[k]) {
          if k < |init| {
            assert missing[k] == init[k];
          }
        }
      }
    }
  }

  /** On a table without strings in the fighter column, the check of a card with a missing fighter raises. */
  lemma NoStringsRaises(df: Table, fighters: seq<string>)
    requires "fighter" in df.columns && !StrColumn(df.rows, "fighter") && |fighters| > 0
    ensures Check(df, fighters) == Err(AttributeError)
  {
    var values := FighterValues(df.rows);
    var split := Partition(values, fighters);
    PartitionSplits(df.rows, fighters);
    assert !InRoster(df.rows, fighters[0]);
    assert fighters[0] in split.1;
    ShownFirstError(df.rows, split.1);
  }

  /**
    A name that does not start with whitespace. That is enough for `split()` to give it a
    first word, though not necessary: a name with leading whitespace and a word after it
    has one too. The lemma below asks only this.
   */
  predicate Named(name: string) {
    |name| > 0 && !IsSpace(name[0])
  }

  /**
    For a card of named fighters the check raises only for a table without a fighter
    column, or without strings in it while some fighter is missing.
   */
  lemma CardErrors(df: Table, fighters: seq<string>)
    requires |fighters| > 0 && forall x :: x in fighters ==> Named(x)
    ensures Check(df, fighters).Err? ==>
              Check(df, fighters).error in {KeyError("fighter"), AttributeError}
    ensures Check(df, fighters).Err? <==>
              "fighter" !in df.columns || (!StrColumn(df.rows, "fighter") && exists x :: x in fighters && !InRoster(df.rows, x))
  {
    if "fighter" in df.columns {
      var split := Partition(FighterValues(df.rows), fighters);
      PartitionSplits(df.rows, fighters);
      ShownEntries(df.rows, split.1);
      var shown := Shown(df.rows, split.1);
      assert Check(df, fighters) == if shown.Err? then Err(shown.error) else Ok(Report(split.0, split.1, shown.value));
      forall k | 0 <= k < |split.1| ensures FirstToken(split.1[k]).Some? {
        assert split.1[k] in fighters;
      }
      if !StrColumn(df.rows, "fighter") && |split.1| > 0 {
        ShownFirstError(df.rows, split.1);
      }
      if exists x :: x in fighters && !InRoster(df.rows, x) {
        var x :| x in fighters && !InRoster(df.rows, x);
        assert x in split.1;
      }
      if shown.Err? {
        var k :| 0 <= k < |split.1| && SimilarNames(df.rows, split.1[k]).Err?;
        assert FirstToken(split.1[k]).Some?;
        assert !StrColumn(df.rows, "fighter");
        assert split.1[k] in fighters && !InRoster(df.rows, split.1[k]);
      }
    }
  }

  /** The UFC 320 card: every name on it has a first word, so only those two errors occur. */
  lemma Ufc320Errors(df: Table)
    ensures Check(df, Ufc320Fighters).Err? ==>
              Check(df, Ufc320Fighters).error in {KeyError("fighter"), AttributeError}
  {
    CardErrors(df, Ufc320Fighters);
  }

  /** When every search raises AttributeError, so does the whole search over a non-empty list. */
  lemma {:induction false} ShownFirstError(rows: seq<Row>, missing: seq<string>)
    requires |missing| > 0 && !StrColumn(rows, "fighter")
    ensures Shown(rows, missing) == Err(AttributeError)
    decreases |missing|
  {
    if |missing| > 1 {
      ShownFirstError(rows, missing[..|missing| - 1]);
    }
  }
}
