/**
  The data the pipeline passes around: table cells, rows and tables (a pandas DataFrame as
  an ordered column list and one map per row), Python dicts with their insertion order, the
  classifier as an opaque pair of functions, and the Blue-then-Red side-by-side layout.
 */
module Frames {

  import opened Wrappers

  /** One cell of a table: a string, a number, or a missing value (pandas NaN). */
  datatype Cell = Str(s: string) | Num(x: real) | Missing

  /** A table row, or a record dict: column name to cell. A key is absent iff the column is. */
  type Row = map<string, Cell>

  /** A DataFrame: its columns in order and its rows in index order. */
  datatype Table = Table(columns: seq<string>, rows: seq<Row>)

  /** The Python exceptions the modelled code raises. */
  datatype PyError =
    | KeyError(key: string)
    | ValueError
    | IndexError
    | TypeError
    | AttributeError
    | FighterNotFound(name: string)
    | DataNotLoaded
    | ModelError      // whatever the trained classifier raises

  /** Every row of a well-formed table has exactly the table's columns. */
  ghost predicate WellFormed(t: Table) {
    forall i :: 0 <= i < |t.rows| ==> forall c :: c in t.rows[i] <==> c in t.columns
  }

  /** `row.get(key, default)`. */
  function Get(row: Row, key: string, default: Cell): (c: Cell)
    ensures key in row ==> c == row[key]
    ensures key !in row ==> c == default
  {
    if key in row then row[key] else default
  }

  /** `fillna(v)` on one cell. */
  function FillNa(c: Cell, v: Cell): (r: Cell)
    ensures c.Missing? ==> r == v
    ensures !c.Missing? ==> r == c
  {
    if c.Missing? then v else c
  }

  /** Python `xs[:n]`, including a negative n, which drops that many elements from the end. */
  function Take<T>(xs: seq<T>, n: int): (r: seq<T>)
    ensures n >= 0 ==> |r| == if n < |xs| then n else |xs|
    ensures r <= xs
  {
    if n >= 0 then (if n < |xs| then xs[..n] else xs)
    else if |xs| + n > 0 then xs[..|xs| + n] else []
  }

  /** `iloc[:, k:]` on the column list. */
  function ColumnsFrom(cols: seq<string>, k: nat): (r: seq<string>)
    ensures |r| == if k <= |cols| then |cols| - k else 0
    ensures forall i :: 0 <= i < |r| ==> r[i] == cols[k + i]
  {
    if k <= |cols| then cols[k..] else []
  }

  /** The cells of a row under the given columns, in column order (a missing key reads NaN). */
  function RowValues(row: Row, cols: seq<string>): (r: seq<Cell>)
    ensures |r| == |cols|
    ensures forall i :: 0 <= i < |cols| ==> r[i] == Get(row, cols[i], Missing)
  {
    if |cols| == 0 then [] else [Get(row, cols[0], Missing)] + RowValues(row, cols[1..])
  }
  /** `.values` of a frame of several rows restricted to `cols`. */
  function RowsValues(rows: seq<Row>, cols: seq<string>): (m: Matrix)
    ensures |m| == |rows|
    ensures forall i :: 0 <= i < |m| ==> |m[i]| == |cols|
    ensures forall i, k :: 0 <= i < |m| && 0 <= k < |cols| ==> m[i][k] == Get(rows[i], cols[k], Missing)
  {
    seq(|rows|, i requires 0 <= i < |rows| => RowValues(rows[i], cols))
  }


  /** `['B_' + col for col in cols]`: the same names under a namespace prefix. */
  function Prefixed(p: string, names: seq<string>): (r: seq<string>)
    ensures |r| == |names|
    ensures forall i :: 0 <= i < |names| ==> r[i] == p + names[i]
  {
    if |names| == 0 then [] else [p + names[0]] + Prefixed(p, names[1..])
  }

  /** Different names stay different under one prefix. */
  lemma PrefixedDistinct(p: string, names: seq<string>)
    requires Distinct(names)
    ensures Distinct(Prefixed(p, names))
  {
    var r := Prefixed(p, names);
    forall i, j | 0 <= i < j < |r| ensures r[i] != r[j] {
      assert r[i][|p|..] == names[i];
      assert r[j][|p|..] == names[j];
    }
  }

  /** Names under the prefix "B_" never collide with names under "R_". */
  lemma BlueRedDisjoint(xs: seq<string>, ys: seq<string>)
    ensures forall k :: k in Prefixed("B_", xs) ==> k !in Prefixed("R_", ys)
  {
    var b, r := Prefixed("B_", xs), Prefixed("R_", ys);
    forall i, j | 0 <= i < |b| && 0 <= j < |r| ensures b[i] != r[j] {
      assert b[i][0] == 'B' && r[j][0] == 'R';
    }
  }

  predicate Distinct(s: seq<string>) {
    forall i, j :: 0 <= i < j < |s| ==> s[i] != s[j]
  }

  /** No name occurs in both lists. */
  predicate Disjoint(a: seq<string>, b: seq<string>) {
    forall i, j :: 0 <= i < |a| && 0 <= j < |b| ==> a[i] != b[j]
  }

  lemma DistinctConcat(a: seq<string>, b: seq<string>)
    requires Distinct(a) && Distinct(b) && Disjoint(a, b)
    ensures Distinct(a + b)
  {
    var s := a + b;
    forall i, j | 0 <= i < j < |s| ensures s[i] != s[j] {
      if j < |a| {
        assert s[i] == a[i] && s[j] == a[j];
      } else if i < |a| {
        assert s[i] == a[i] && s[j] == b[j - |a|];
      } else {
        assert s[i] == b[i - |a|] && s[j] == b[j - |a|];
      }
    }
  }

  /** A list disjoint from two lists is disjoint from their concatenation. */
  lemma DisjointConcat(a: seq<string>, b: seq<string>, c: seq<string>)
    requires Disjoint(a, b) && Disjoint(a, c)
    ensures Disjoint(a, b + c)
  {
    forall i, j | 0 <= i < |a| && 0 <= j < |b + c| ensures a[i] != (b + c)[j] {
      if j < |b| {
        assert (b + c)[j] == b[j];
      } else {
        assert (b + c)[j] == c[j - |b|];
      }
    }
  }

  /** A Python dict: key-value pairs in insertion order. */
  type Dict<V> = seq<(string, V)>

  function Keys<V>(d: Dict<V>): (r: seq<string>)
    ensures |r| == |d|
    ensures forall i :: 0 <= i < |d| ==> r[i] == d[i].0
  {
    seq(|d|, i requires 0 <= i < |d| => d[i].0)
  }

  function Values<V>(d: Dict<V>): (r: seq<V>)
    ensures |r| == |d|
    ensures forall i :: 0 <= i < |d| ==> r[i] == d[i].1
  {
    seq(|d|, i requires 0 <= i < |d| => d[i].1)
  }

  /** `d.get(k)`: the value of the first pair with key k. */
  function Lookup<V>(d: Dict<V>, k: string): (r: Option<V>)
    ensures r.Some? <==> k in Keys(d)
  {
    if |d| == 0 then None else if d[0].0 == k then Some(d[0].1) else Lookup(d[1..], k)
  }

  /** A dict given by its key list (distinct keys) and a value per key. */
  lemma {:induction false} LookupAt<V>(d: Dict<V>, i: nat)
    requires Distinct(Keys(d)) && i < |d|
    ensures Lookup(d, d[i].0) == Some(d[i].1)
  {
    if i > 0 {
      assert d[0].0 == Keys(d)[0] != Keys(d)[i] == d[i].0;
      DistinctTail(d);
      LookupAt(d[1..], i - 1);
      assert d[1..][i - 1] == d[i];
    }
  }

  /** Dropping the first pair keeps the keys distinct. */
  lemma DistinctTail<V>(d: Dict<V>)
    requires Distinct(Keys(d)) && |d| > 0
    ensures Distinct(Keys(d[1..]))
  {
    var k, k' := Keys(d), Keys(d[1..]);
    assert k' == k[1..];
    forall a, b | 0 <= a < b < |k'| ensures k'[a] != k'[b] {
      assert k'[a] == k[a + 1] && k'[b] == k[b + 1];
    }
  }

  /** A key of a list of distinct keys does not occur before its own position. */
  lemma DistinctNotBefore(s: seq<string>, n: nat)
    requires Distinct(s) && n < |s|
    ensures s[n] !in s[..n]
  {
  }

  /** The first part of a list of distinct names is distinct. */
  lemma DistinctLeft(a: seq<string>, b: seq<string>)
    requires Distinct(a + b)
    ensures Distinct(a)
  {
    forall i, j | 0 <= i < j < |a| ensures a[i] != a[j] {
      assert (a + b)[i] == a[i] && (a + b)[j] == a[j];
    }
  }

  /** The keys of two dicts written one after the other. */
  lemma KeysConcat<V>(d: Dict<V>, e: Dict<V>)
    ensures Keys(d + e) == Keys(d) + Keys(e)
  {
  }

  /** The values of two dicts written one after the other. */
  lemma ValuesConcat<V>(d: Dict<V>, e: Dict<V>)
    ensures Values(d + e) == Values(d) + Values(e)
  {
  }

  /** `{p + k: v for k, v in d.items()}`: the keys renamed with a prefix, values and order kept. */
  function PrefixKeys<V>(p: string, d: Dict<V>): (r: Dict<V>)
    ensures Keys(r) == Prefixed(p, Keys(d))
    ensures Values(r) == Values(d)
  {
    seq(|d|, i requires 0 <= i < |d| => (p + d[i].0, d[i].1))
  }

  /**
    `d[k] = v`: overwrite the value in place when k is present, else append the pair (a dict
    holds each key once, so the overwrite touches one pair).
   */
  function Put<V>(d: Dict<V>, k: string, v: V): (r: Dict<V>)
    ensures k in Keys(d) ==> Keys(r) == Keys(d)
    ensures k !in Keys(d) ==> r == d + [(k, v)]
  {
    if k in Keys(d) then seq(|d|, i requires 0 <= i < |d| => if d[i].0 == k then (k, v) else d[i])
    else d + [(k, v)]
  }

  /**
    Writing the next key of a planned list of distinct keys appends it: the dict then holds
    one more key of the plan.
   */
  lemma PutNext<V>(d: Dict<V>, plan: seq<string>, k: string, v: V)
    requires Distinct(plan) && |d| < |plan| && Keys(d) == plan[..|d|] && k == plan[|d|]
    ensures Put(d, k, v) == d + [(k, v)]
    ensures Keys(Put(d, k, v)) == plan[..|d| + 1]
  {
    DistinctNotBefore(plan, |d|);
    KeysConcat(d, [(k, v)]);
    assert plan[..|d| + 1] == plan[..|d|] + [k];
  }

  /** Writing a key the dict does not hold appends the pair. */
  lemma PutFresh<V>(d: Dict<V>, k: string, v: V)
    requires forall i :: 0 <= i < |d| ==> d[i].0 != k
    ensures Put(d, k, v) == d + [(k, v)]
  {
  }

  /** After `d[k] = v`, k reads v and every other key reads what it did before. */
  lemma {:induction false} PutLookup<V>(d: Dict<V>, k: string, v: V, j: string)
    ensures Lookup(Put(d, k, v), j) == if j == k then Some(v) else Lookup(d, j)
    decreases |d|
  {
    if |d| > 0 {
      var r := Put(d, k, v);
      PutLookup(d[1..], k, v, j);
      if k in Keys(d) {
        assert r[0] == if d[0].0 == k then (k, v) else d[0];
        if k in Keys(d[1..]) {
          assert r[1..] == Put(d[1..], k, v);
        } else {
          assert r[1..] == d[1..];
        }
      } else {
        assert r[1..] == Put(d[1..], k, v);
      }
    }
  }

  /** `d.update(e)`: the pairs of e written into d one after another. */
  function Update<V>(d: Dict<V>, e: Dict<V>): Dict<V>
    decreases |e|
  {
    if |e| == 0 then d else Update(Put(d, e[0].0, e[0].1), e[1..])
  }

  /** After `d.update(e)`, e's keys carry e's values and every other key keeps d's. */
  lemma {:induction false} UpdateLookup<V>(d: Dict<V>, e: Dict<V>, k: string)
    requires Distinct(Keys(e))
    ensures Lookup(Update(d, e), k) == if k in Keys(e) then Lookup(e, k) else Lookup(d, k)
    decreases |e|
  {
    if |e| > 0 {
      assert Keys(e) == [e[0].0] + Keys(e[1..]);
      DistinctTail(e);
      UpdateLookup(Put(d, e[0].0, e[0].1), e[1..], k);
      PutLookup(d, e[0].0, e[0].1, k);
      if k == e[0].0 {
        assert k !in Keys(e[1..]) by {
          forall a | 0 <= a < |e| - 1 ensures Keys(e[1..])[a] != k {
            assert Keys(e[1..])[a] == Keys(e)[a + 1];
          }
        }
      }
    }
  }

  /** Merging dicts with disjoint keys (`{**d, **e}`) concatenates them. */
  lemma {:induction false} UpdateDisjoint<V>(d: Dict<V>, e: Dict<V>)
    requires forall k :: k in Keys(e) ==> k !in Keys(d)
    requires Distinct(Keys(e))
    ensures Update(d, e) == d + e
    decreases |e|
  {
    if |e| > 0 {
      var k0 := e[0].0;
      var d' := Put(d, k0, e[0].1);
      assert d' == d + [e[0]] by {
        assert Keys(e)[0] == k0;
      }
      assert forall k :: k in Keys(e[1..]) ==> k !in Keys(d') by {
        assert Keys(d') == Keys(d) + [k0];
        forall k | k in Keys(e[1..]) ensures k !in Keys(d') {
          var a :| 0 <= a < |e| - 1 && Keys(e[1..])[a] == k;
          assert Keys(e)[a + 1] == k;
          assert k != k0;
        }
      }
      assert Distinct(Keys(e[1..])) by {
        DistinctTail(e);
      }
      UpdateDisjoint(d', e[1..]);
      assert Update(d, e) == Update(d', e[1..]);
      ConcatFirst(d, e);
    }
  }

  /** Moving the first element of e to the end of d keeps the concatenation. */
  lemma ConcatFirst<T>(d: seq<T>, e: seq<T>)
    requires |e| > 0
    ensures d + [e[0]] + e[1..] == d + e
  {
    assert e == [e[0]] + e[1..];
  }

  /** `{**d, **e}`: a new dict holding d's pairs, then e's written over them. */
  function Merge<V>(d: Dict<V>, e: Dict<V>): Dict<V> {
    Update(Update([], d), e)
  }

  /** Two dicts of distinct keys, no key in both, merge into their concatenation. */
  lemma MergeDisjoint<V>(d: Dict<V>, e: Dict<V>)
    requires Distinct(Keys(d)) && Distinct(Keys(e))
    requires forall k :: k in Keys(e) ==> k !in Keys(d)
    ensures Merge(d, e) == d + e
  {
    UpdateDisjoint([], d);
    assert [] + d == d;
    UpdateDisjoint(d, e);
  }

  /** The row a sequence of column assignments `row[k] = v` produces, later ones overwriting. */
  function ToRow(d: Dict<Cell>): Row
    decreases |d|
  {
    if |d| == 0 then map[] else ToRow(d[..|d| - 1])[d[|d| - 1].0 := d[|d| - 1].1]
  }

  /** One more assignment. */
  lemma ToRowStep(d: Dict<Cell>, k: nat)
    requires k < |d|
    ensures ToRow(d[..k + 1]) == ToRow(d[..k])[d[k].0 := d[k].1]
  {
    assert d[..k + 1][..k] == d[..k];
  }

  /** The assigned columns are the keys of the row. */
  lemma {:induction false} ToRowKeys(d: Dict<Cell>)
    ensures forall k :: k in ToRow(d) <==> k in Keys(d)
    decreases |d|
  {
    if |d| > 0 {
      var d' := d[..|d| - 1];
      ToRowKeys(d');
      assert Keys(d) == Keys(d') + [d[|d| - 1].0];
    }
  }

  /** With distinct columns, each column holds the value assigned to it. */
  lemma {:induction false} ToRowAt(d: Dict<Cell>, i: nat)
    requires Distinct(Keys(d)) && i < |d|
    ensures d[i].0 in ToRow(d) && ToRow(d)[d[i].0] == d[i].1
    decreases |d|
  {
    var d' := d[..|d| - 1];
    if i < |d| - 1 {
      assert Keys(d)[i] != Keys(d)[|d| - 1];
      assert Distinct(Keys(d')) by {
        forall a, b | 0 <= a < b < |d'| ensures Keys(d')[a] != Keys(d')[b] {
          assert Keys(d')[a] == Keys(d)[a] && Keys(d')[b] == Keys(d)[b];
        }
      }
      ToRowAt(d', i);
    }
  }

  /** `fillna(v)` on a whole row. */
  function FillRow(r: Row, v: Cell): (r': Row)
    ensures forall c :: c in r' <==> c in r
    ensures forall c :: c in r ==> r'[c] == FillNa(r[c], v)
  {
    map c | c in r :: FillNa(r[c], v)
  }

  /** Assigning the pairs of d and then filling NaN with a number gives a row over d's keys without NaN. */
  lemma FilledRowOf(d: Dict<Cell>, v: Cell)
    requires !v.Missing?
    ensures forall c :: c in FillRow(ToRow(d), v) <==> c in Keys(d)
    ensures forall c :: c in FillRow(ToRow(d), v) ==> !FillRow(ToRow(d), v)[c].Missing?
  {
    ToRowKeys(d);
  }

  /** The rows handed to the classifier. */
  type Matrix = seq<seq<Cell>>

  /**
    The trained classifier, opaque: its 0/1 decision for the first row of a feature matrix
    and its class probabilities for that row; None where the call raises.
   */
  datatype Classifier = Classifier(predict: Matrix -> Option<int>, proba: Matrix -> Option<seq<real>>)

  function Max(ps: seq<real>): (m: real)
    requires |ps| > 0
    ensures m in ps
    ensures forall i :: 0 <= i < |ps| ==> ps[i] <= m
  {
    if |ps| == 1 then ps[0]
    else
      var m' := Max(ps[1..]);
      assert forall i :: 1 <= i < |ps| ==> ps[i] == ps[1..][i - 1];
      if ps[0] >= m' then ps[0] else m'
  }

  /**
    `max(probabilities) * 100`, or None when the probabilities are unavailable: the call
    raised, or `max` of an empty list raised.
   */
  function Confidence(probs: Option<seq<real>>): (c: Option<real>)
    ensures c.Some? <==> probs.Some? && |probs.value| > 0
    ensures c.Some? ==> (exists i :: 0 <= i < |probs.value| && c.value == probs.value[i] * 100.0)
                        && forall i :: 0 <= i < |probs.value| ==> probs.value[i] * 100.0 <= c.value
  {
    match probs
    case Some(ps) => if |ps| > 0 then Some(Max(ps) * 100.0) else None
    case None => None
  }

  /** n missing cells: the NaN padding pandas puts in a row one side does not have. */
  function NaNs(n: nat): (r: seq<Cell>)
    ensures |r| == n && forall i :: 0 <= i < n ==> r[i] == Missing
  {
    if n == 0 then [] else [Missing] + NaNs(n - 1)
  }

  /**
    `pd.concat([blue.reset_index(drop=True), red.reset_index(drop=True)], axis=1).values`:
    row i is Blue's row i followed by Red's row i, a side that is shorter padded with NaN.
   */
  function SideBySide(blue: Matrix, wb: nat, red: Matrix, wr: nat): (m: Matrix)
    requires forall i :: 0 <= i < |blue| ==> |blue[i]| == wb
    requires forall i :: 0 <= i < |red| ==> |red[i]| == wr
    ensures |m| == if |blue| >= |red| then |blue| else |red|
    ensures forall i :: 0 <= i < |m| ==> |m[i]| == wb + wr
    ensures forall i :: 0 <= i < |m| ==>
              m[i][..wb] == (if i < |blue| then blue[i] else NaNs(wb))
              && m[i][wb..] == (if i < |red| then red[i] else NaNs(wr))
  {
    var n := if |blue| >= |red| then |blue| else |red|;
    seq(n, i requires 0 <= i < n => RowOrNaNs(blue, i, wb) + RowOrNaNs(red, i, wr))
  }

  /** Cell k of row i of the side-by-side matrix, on the Blue half and on the Red half. */
  lemma SideBySideAt(blue: Matrix, wb: nat, red: Matrix, wr: nat, i: nat, k: nat)
    requires forall j :: 0 <= j < |blue| ==> |blue[j]| == wb
    requires forall j :: 0 <= j < |red| ==> |red[j]| == wr
    requires i < |SideBySide(blue, wb, red, wr)|
    ensures k < wb ==> SideBySide(blue, wb, red, wr)[i][k] == if i < |blue| then blue[i][k] else Missing
    ensures k < wr ==> SideBySide(blue, wb, red, wr)[i][wb + k] == if i < |red| then red[i][k] else Missing
  {
    var m := SideBySide(blue, wb, red, wr);
    if k < wb {
      assert m[i][k] == m[i][..wb][k];
    }
    if k < wr {
      assert m[i][wb + k] == m[i][wb..][k];
    }
  }

  /** A feature sample: the column names of a concatenated frame and its `.values`. */
  datatype Sample = Sample(columns: seq<string>, values: Matrix)

  /**
    A feature sample: the Blue rows and the Red rows cut to the feature columns, renamed with
    `B_` / `R_`, re-indexed from 0 and concatenated side by side; its column names and `.values`.
   */
  function PairSample(feats: seq<string>, blue: seq<Row>, red: seq<Row>): Sample {
    Sample(Prefixed("B_", feats) + Prefixed("R_", feats),
           SideBySide(RowsValues(blue, feats), |feats|, RowsValues(red, feats), |feats|))
  }

  /** Each row of the sample holds the Blue row's values, then the Red row's, NaN where one side has fewer rows. */
  lemma PairSampleValues(feats: seq<string>, blue: seq<Row>, red: seq<Row>)
    ensures
      var m := PairSample(feats, blue, red).values;
      && |m| == (if |blue| >= |red| then |blue| else |red|)
      && (forall i :: 0 <= i < |m| ==> |m[i]| == 2 * |feats|)
      && (forall i, k :: 0 <= i < |m| && 0 <= k < |feats| ==>
            && m[i][k] == (if i < |blue| then Get(blue[i], feats[k], Missing) else Missing)
            && m[i][|feats| + k] == (if i < |red| then Get(red[i], feats[k], Missing) else Missing))
  {
    var m := PairSample(feats, blue, red).values;
    forall i, k | 0 <= i < |m| && 0 <= k < |feats|
      ensures m[i][k] == (if i < |blue| then Get(blue[i], feats[k], Missing) else Missing)
      ensures m[i][|feats| + k] == (if i < |red| then Get(red[i], feats[k], Missing) else Missing)
    {
      PairSampleAt(feats, blue, red, i, k);
    }
  }

  /** Cell k of row i of the sample, on the Blue half and on the Red half. */
  lemma PairSampleAt(feats: seq<string>, blue: seq<Row>, red: seq<Row>, i: nat, k: nat)
    requires i < |PairSample(feats, blue, red).values| && k < |feats|
    ensures var m := PairSample(feats, blue, red).values;
      && m[i][k] == (if i < |blue| then Get(blue[i], feats[k], Missing) else Missing)
      && m[i][|feats| + k] == (if i < |red| then Get(red[i], feats[k], Missing) else Missing)
  {
    var bv := RowsValues(blue, feats);
    var rv := RowsValues(red, feats);
    SideBySideAt(bv, |feats|, rv, |feats|, i, k);
  }


  /** Row i of a side, or a row of NaN where that side has no row i. */
  function RowOrNaNs(m: Matrix, i: nat, w: nat): (r: seq<Cell>)
    requires forall j :: 0 <= j < |m| ==> |m[j]| == w
    ensures |r| == w
    ensures r == if i < |m| then m[i] else NaNs(w)
  {
    if i < |m| then m[i] else NaNs(w)
  }

  /** pandas `==` between two cells: NaN equals nothing, cells of different kinds differ. */
  predicate CellEq(a: Cell, b: Cell) {
    a == b && !a.Missing?
  }

  /** `df[df[col] == v]`: the rows whose cell under col equals v, in index order. */
  function RowsWhere(rows: seq<Row>, col: string, v: Cell): (r: seq<Row>)
    ensures |r| <= |rows|
    ensures forall i :: 0 <= i < |r| ==> CellEq(Get(r[i], col, Missing), v)
  {
    if |rows| == 0 then []
    else if CellEq(Get(rows[0], col, Missing), v) then [rows[0]] + RowsWhere(rows[1..], col, v)
    else RowsWhere(rows[1..], col, v)
  }

  /** A row is selected exactly when it is a row of the table that satisfies the condition. */
  lemma {:induction false} RowsWhereMembers(rows: seq<Row>, col: string, v: Cell)
    ensures forall x :: x in RowsWhere(rows, col, v) <==> x in rows && CellEq(Get(x, col, Missing), v)
  {
    if |rows| > 0 {
      RowsWhereMembers(rows[1..], col, v);
      assert rows == [rows[0]] + rows[1..];
    }
  }

  /** Nothing is selected exactly when no row satisfies the condition. */
  lemma {:induction false} RowsWhereEmpty(rows: seq<Row>, col: string, v: Cell)
    ensures |RowsWhere(rows, col, v)| == 0 <==> forall j :: 0 <= j < |rows| ==> !CellEq(Get(rows[j], col, Missing), v)
  {
    if |rows| > 0 {
      RowsWhereEmpty(rows[1..], col, v);
      assert forall j :: 1 <= j < |rows| ==> rows[j] == rows[1..][j - 1];
    }
  }

  /** The first selected row is the first row of the table that satisfies the condition. */
  lemma {:induction false} RowsWhereFirst(rows: seq<Row>, col: string, v: Cell, i: nat)
    requires i < |rows| && CellEq(Get(rows[i], col, Missing), v)
    requires forall j :: 0 <= j < i ==> !CellEq(Get(rows[j], col, Missing), v)
    ensures |RowsWhere(rows, col, v)| > 0 && RowsWhere(rows, col, v)[0] == rows[i]
  {
    if i > 0 {
      RowsWhereFirst(rows[1..], col, v, i - 1);
    }
  }

  /** `df[mask]`: the rows the mask keeps, in index order. */
  function RowsSuch(rows: seq<Row>, keep: Row -> bool): (r: seq<Row>)
    ensures |r| <= |rows|
    ensures forall i :: 0 <= i < |r| ==> keep(r[i])
  {
    if |rows| == 0 then []
    else if keep(rows[0]) then [rows[0]] + RowsSuch(rows[1..], keep)
    else RowsSuch(rows[1..], keep)
  }

  /** Some row is kept exactly when some row satisfies the mask. */
  lemma {:induction false} RowsSuchEmpty(rows: seq<Row>, keep: Row -> bool)
    ensures |RowsSuch(rows, keep)| == 0 <==> forall i :: 0 <= i < |rows| ==> !keep(rows[i])
  {
    if |rows| > 0 {
      RowsSuchEmpty(rows[1..], keep);
      if !keep(rows[0]) {
        assert forall i :: 1 <= i < |rows| ==> rows[i] == rows[1..][i - 1];
      }
    }
  }

  /** The first kept row is the first row of the table that satisfies the mask. */
  lemma {:induction false} RowsSuchFirst(rows: seq<Row>, keep: Row -> bool, i: nat)
    requires i < |rows| && keep(rows[i])
    requires forall j :: 0 <= j < i ==> !keep(rows[j])
    ensures |RowsSuch(rows, keep)| > 0 && RowsSuch(rows, keep)[0] == rows[i]
  {
    if i > 0 {
      RowsSuchFirst(rows[1..], keep, i - 1);
    }
  }

  /** Every kept row is a row of the table. */
  lemma {:induction false} RowsSuchMember(rows: seq<Row>, keep: Row -> bool)
    ensures forall x :: x in RowsSuch(rows, keep) ==> x in rows
  {
    if |rows| > 0 {
      RowsSuchMember(rows[1..], keep);
      assert rows == [rows[0]] + rows[1..];
    }
  }

  /** `df[c] = f(row)` for every row: the column is appended when new, overwritten in place otherwise. */
  function SetColumn(t: Table, c: string, f: Row -> Cell): (r: Table)
    ensures r.columns == if c in t.columns then t.columns else t.columns + [c]
    ensures |r.rows| == |t.rows|
    ensures forall i :: 0 <= i < |t.rows| ==> r.rows[i] == t.rows[i][c := f(t.rows[i])]
  {
    Table(if c in t.columns then t.columns else t.columns + [c],
          seq(|t.rows|, i requires 0 <= i < |t.rows| => t.rows[i][c := f(t.rows[i])]))
  }

  /** Every row of the table that satisfies the mask is kept. */
  lemma {:induction false} RowsSuchKeeps(rows: seq<Row>, keep: Row -> bool)
    ensures forall x :: x in rows && keep(x) ==> x in RowsSuch(rows, keep)
  {
    if |rows| > 0 {
      RowsSuchKeeps(rows[1..], keep);
      assert forall x :: x in rows ==> x == rows[0] || x in rows[1..];
    }
  }

  /** The first needed column the frame lacks: the KeyError the first failing access raises. */
  function FirstMissing(cols: seq<string>, needed: seq<string>): (r: Option<string>)
    ensures r.None? <==> forall k :: 0 <= k < |needed| ==> needed[k] in cols
    ensures r.Some? ==> r.value in needed && r.value !in cols
  {
    if |needed| == 0 then None
    else if needed[0] !in cols then Some(needed[0])
    else FirstMissing(cols, needed[1..])
  }

  /**
    The `.str` accessor works on a column of strings: one that holds some string (or is
    empty); a column of numbers and NaN only raises AttributeError.
   */
  predicate StrColumn(rows: seq<Row>, col: string) {
    |rows| == 0 || exists i :: 0 <= i < |rows| && Get(rows[i], col, Missing).Str?
  }
}
