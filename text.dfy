/**
  ASCII string helpers with the semantics of the Python `str` methods the system uses:
  `strip`, `lower`, `split`, `split()`, `replace`, `isdigit`, `in`, regex removal of
  non-word characters, and code-point ordering of strings.
 */
module Text {

  import opened Wrappers

  /** Python `str.isspace` restricted to ASCII (space, \t, \n, \v, \f, \r and \x1c-\x1f). */
  predicate IsSpace(c: char) {
    c == ' ' || ('\t' <= c <= '\r') || ('\U{1C}' <= c <= '\U{1F}')
  }

  predicate IsDigit(c: char) {
    '0' <= c <= '9'
  }

  /** Non-empty and all ASCII digits: Python `str.isdigit` on ASCII strings. */
  predicate IsDigitString(s: string) {
    |s| > 0 && forall i :: 0 <= i < |s| ==> IsDigit(s[i])
  }

  predicate AllDigits(s: string) {
    forall i :: 0 <= i < |s| ==> IsDigit(s[i])
  }

  /**
    The regex class `\w`: ASCII letters, digits and underscore; every non-ASCII character
    is counted as a word character (accented letters of names are kept).
   */
  predicate IsWordChar(c: char) {
    ('a' <= c <= 'z') || ('A' <= c <= 'Z') || IsDigit(c) || c == '_' || c > '\U{7F}'
  }

  function LowerChar(c: char): (r: char)
    ensures 'A' <= c <= 'Z' ==> 'a' <= r <= 'z' && r as int == c as int + 32
    ensures !('A' <= c <= 'Z') ==> r == c
  {
    if 'A' <= c <= 'Z' then (c as int + 32) as char else c
  }

  /** Python `str.lower` on ASCII letters. */
  function Lower(s: string): (r: string)
    ensures |r| == |s|
    ensures forall i :: 0 <= i < |s| ==> r[i] == LowerChar(s[i])
  {
    if |s| == 0 then [] else [LowerChar(s[0])] + Lower(s[1..])
  }

  function LStrip(s: string): (r: string)
    ensures |r| <= |s| && r == s[|s| - |r|..]
    ensures forall k :: 0 <= k < |s| - |r| ==> IsSpace(s[k])
    ensures |r| > 0 ==> !IsSpace(r[0])
  {
    if |s| > 0 && IsSpace(s[0]) then LStrip(s[1..]) else s
  }

  function RStrip(s: string): (r: string)
    ensures |r| <= |s| && r == s[..|r|]
    ensures forall k :: |r| <= k < |s| ==> IsSpace(s[k])
    ensures |r| > 0 ==> !IsSpace(r[|r| - 1])
  {
    if |s| > 0 && IsSpace(s[|s| - 1]) then RStrip(s[..|s| - 1]) else s
  }

  /** Python `str.strip()`: drops leading and trailing whitespace and nothing else. */
  function Strip(s: string): (r: string)
    ensures |r| <= |s| && OccursAt(s, r, |s| - |LStrip(s)|)
    ensures |r| > 0 ==> !IsSpace(r[0]) && !IsSpace(r[|r| - 1])
  {
    var l := LStrip(s);
    var r := RStrip(l);
    assert r == s[|s| - |l|..|s| - |l| + |r|];
    r
  }

  /** Strip removes whitespace only: every other character of s survives. */
  lemma StripKeeps(s: string)
    ensures forall k :: 0 <= k < |s| && !IsSpace(s[k]) ==> s[k] in Strip(s)
  {
    var l := LStrip(s);
    var r := RStrip(l);
    var i := |s| - |l|;
    forall k | 0 <= k < |s| && !IsSpace(s[k]) ensures s[k] in r {
      assert l[k - i] == s[k];
      assert r[k - i] == s[k];
    }
  }

  /** When the stripped string is a run of digits, s holds only digits and whitespace. */
  lemma StripDigitsOnly(s: string)
    requires IsDigitString(Strip(s))
    ensures forall k :: 0 <= k < |s| ==> IsDigit(s[k]) || IsSpace(s[k])
  {
    StripKeeps(s);
    var r := Strip(s);
    forall k | 0 <= k < |s| && !IsSpace(s[k]) ensures IsDigit(s[k]) {
      assert s[k] in r;
      var j :| 0 <= j < |r| && r[j] == s[k];
    }
  }

  /** A string without leading or trailing whitespace is its own strip. */
  lemma StripNoSpaceEnds(s: string)
    requires |s| > 0 ==> !IsSpace(s[0]) && !IsSpace(s[|s| - 1])
    ensures Strip(s) == s
  {
  }

  /** t occurs in s starting at position i. */
  predicate OccursAt(s: string, t: string, i: int) {
    0 <= i <= |s| - |t| && s[i..i + |t|] == t
  }

  /** `t in s` for strings: t occurs in s as a contiguous substring. */
  predicate Contains(s: string, t: string)
    decreases |s|
  {
    t <= s || (|s| > 0 && Contains(s[1..], t))
  }

  /** The recursive substring test agrees with the positional definition of an occurrence. */
  lemma {:induction false} ContainsAt(s: string, t: string)
    ensures Contains(s, t) <==> exists i :: OccursAt(s, t, i)
  {
    if t <= s {
      assert OccursAt(s, t, 0);
    } else if |s| > 0 {
      ContainsAt(s[1..], t);
      if Contains(s[1..], t) {
        var i :| OccursAt(s[1..], t, i);
        assert s[1..][i..i + |t|] == s[i + 1..i + 1 + |t|];
        assert OccursAt(s, t, i + 1);
      }
      if exists i :: OccursAt(s, t, i) {
        var i :| OccursAt(s, t, i);
        if i > 0 {
          assert s[1..][i - 1..i - 1 + |t|] == s[i..i + |t|];
          assert OccursAt(s[1..], t, i - 1);
        }
      }
    }
  }

  /** The empty string occurs in every string. */
  lemma ContainsEmpty(s: string)
    ensures Contains(s, "")
  {
  }

  /** Case-insensitive substring test, as `str.contains(..., case=False)` on a literal. */
  predicate ContainsIgnoreCase(s: string, t: string) {
    Contains(Lower(s), Lower(t))
  }

  /** A string lacking a character of t does not contain t. */
  lemma {:induction false} CharNotContained(s: string, t: string, c: char)
    requires c in t && c !in s
    ensures !Contains(s, t)
    decreases |s|
  {
    if |s| > 0 {
      assert c !in s[1..] by {
        forall k | 0 <= k < |s[1..]| ensures s[1..][k] != c {
          assert s[1..][k] == s[k + 1];
        }
      }
      CharNotContained(s[1..], t, c);
    }
  }

  /** Lower-casing a string without a letter in either case does not bring that letter in. */
  lemma LowerLacks(s: string, lo: char, up: char)
    requires 'a' <= lo <= 'z' && up as int == lo as int - 32
    requires lo !in s && up !in s
    ensures lo !in Lower(s)
  {
    forall k | 0 <= k < |s| ensures Lower(s)[k] != lo {
      assert s[k] != lo && s[k] != up;
    }
  }

  /** Python `s.split(d)` for a one-character separator. */
  function Split(s: string, d: char): (r: seq<string>)
    ensures |r| >= 1
    decreases |s|
  {
    if |s| == 0 then [""]
    else
      var rest := Split(s[1..], d);
      if s[0] == d then [""] + rest else [[s[0]] + rest[0]] + rest[1..]
  }

  /** A string without the separator splits into itself. */
  lemma {:induction false} SplitNoSeparator(a: string, d: char)
    requires d !in a
    ensures Split(a, d) == [a]
  {
    if |a| > 0 {
      SplitNoSeparator(a[1..], d);
      assert [a[0]] + a[1..] == a;
    }
  }

  /** Splitting `a + d + b` where `a` holds no separator yields `a` followed by the pieces of `b`. */
  lemma {:induction false} SplitJoin(a: string, b: string, d: char)
    requires d !in a
    ensures Split(a + [d] + b, d) == [a] + Split(b, d)
  {
    if |a| == 0 {
      assert (a + [d] + b)[1..] == b;
    } else {
      assert (a + [d] + b)[1..] == a[1..] + [d] + b;
      SplitJoin(a[1..], b, d);
      assert [a[0]] + a[1..] == a;
    }
  }

  /** Python's split yields one more piece than there are separators. */
  lemma {:induction false} SplitCount(s: string, d: char)
    ensures |Split(s, d)| == multiset(s)[d] + 1
  {
    if |s| > 0 {
      SplitCount(s[1..], d);
      assert s == [s[0]] + s[1..];
      assert multiset(s) == multiset([s[0]]) + multiset(s[1..]);
    }
  }

  /** Python `s.replace(c, '')` for one character. */
  function RemoveChar(s: string, c: char): (r: string)
    ensures |r| <= |s|
    ensures forall k :: 0 <= k < |r| ==> r[k] != c
    ensures c !in s ==> r == s
  {
    if |s| == 0 then []
    else if s[0] == c then RemoveChar(s[1..], c)
    else [s[0]] + RemoveChar(s[1..], c)
  }

  /** Removing c keeps every other character and only those. */
  lemma {:induction false} RemoveCharMembers(s: string, c: char)
    ensures forall x :: x in RemoveChar(s, c) <==> x in s && x != c
  {
    if |s| > 0 {
      RemoveCharMembers(s[1..], c);
      assert s == [s[0]] + s[1..];
    }
  }

  lemma {:induction false} RemoveCharCommutes(s: string, a: char, b: char)
    ensures RemoveChar(RemoveChar(s, a), b) == RemoveChar(RemoveChar(s, b), a)
  {
    if |s| > 0 {
      RemoveCharCommutes(s[1..], a, b);
    }
  }

  lemma {:induction false} RemoveCharAppend(a: string, b: string, c: char)
    ensures RemoveChar(a + b, c) == RemoveChar(a, c) + RemoveChar(b, c)
  {
    if |a| > 0 {
      assert (a + b)[1..] == a[1..] + b;
      RemoveCharAppend(a[1..], b, c);
    } else {
      assert a + b == b;
    }
  }

  /** `''.join(filter(str.isdigit, s))`: every digit of s, in order. */
  function FilterDigits(s: string): (r: string)
    ensures AllDigits(r)
    ensures |r| <= |s|
    ensures AllDigits(s) ==> r == s
  {
    if |s| == 0 then []
    else if IsDigit(s[0]) then [s[0]] + FilterDigits(s[1..])
    else FilterDigits(s[1..])
  }

  /** FilterDigits keeps exactly the digits of s. */
  lemma {:induction false} FilterDigitsMembers(s: string)
    ensures forall x :: x in FilterDigits(s) <==> x in s && IsDigit(x)
  {
    if |s| > 0 {
      FilterDigitsMembers(s[1..]);
      assert s == [s[0]] + s[1..];
    }
  }

  /** `re.sub(r'[^\w\s]', '', s)`: keeps exactly the word and whitespace characters. */
  function KeepWordAndSpace(s: string): (r: string)
    ensures |r| <= |s|
    ensures forall k :: 0 <= k < |r| ==> IsWordChar(r[k]) || IsSpace(r[k])
  {
    if |s| == 0 then []
    else if IsWordChar(s[0]) || IsSpace(s[0]) then [s[0]] + KeepWordAndSpace(s[1..])
    else KeepWordAndSpace(s[1..])
  }

  /** KeepWordAndSpace keeps exactly the word and whitespace characters of s. */
  lemma {:induction false} KeepWordAndSpaceMembers(s: string)
    ensures forall x :: x in KeepWordAndSpace(s) <==> x in s && (IsWordChar(x) || IsSpace(x))
  {
    if |s| > 0 {
      KeepWordAndSpaceMembers(s[1..]);
      assert s == [s[0]] + s[1..];
    }
  }

  /**
    Python `s.replace(pat, '')` for a non-empty literal pattern: occurrences are removed
    left to right without overlap, and the result is not rescanned.
   */
  function RemoveLiteral(s: string, pat: string): (r: string)
    requires |pat| > 0
    ensures |r| <= |s|
    ensures !Contains(s, pat) ==> r == s
    decreases |s|
  {
    if pat <= s then RemoveLiteral(s[|pat|..], pat)
    else if |s| == 0 then []
    else [s[0]] + RemoveLiteral(s[1..], pat)
  }

  /** The maximal run of non-whitespace characters at the start of s. */
  function TakeWord(s: string): (r: string)
    ensures r <= s
    ensures forall k :: 0 <= k < |r| ==> !IsSpace(r[k])
    ensures |r| < |s| ==> IsSpace(s[|r|])
  {
    if |s| == 0 || IsSpace(s[0]) then [] else [s[0]] + TakeWord(s[1..])
  }

  /** Python `s.split()[0]`: the first whitespace-separated token, None where that raises IndexError. */
  function FirstToken(s: string): (r: Option<string>)
    ensures r.None? <==> forall k :: 0 <= k < |s| ==> IsSpace(s[k])
    ensures r.Some? ==> |r.value| > 0 && Contains(s, r.value)
  {
    var t := LStrip(s);
    AllSpaceIffStripEmpty(s);
    if t == [] then None
    else
      FirstWordOccurs(s);
      Some(TakeWord(t))
  }

  /** Nothing is left after stripping leading whitespace exactly when s is all whitespace. */
  lemma AllSpaceIffStripEmpty(s: string)
    ensures LStrip(s) == [] <==> forall k :: 0 <= k < |s| ==> IsSpace(s[k])
  {
    var t := LStrip(s);
    if t != [] {
      assert s[|s| - |t|] == t[0];
    }
  }

  /** The first word after the leading whitespace is non-empty and occurs in s. */
  lemma FirstWordOccurs(s: string)
    requires LStrip(s) != []
    ensures |TakeWord(LStrip(s))| > 0 && Contains(s, TakeWord(LStrip(s)))
  {
    var t := LStrip(s);
    var w := TakeWord(t);
    PrefixOfSuffixOccurs(s, w, |s| - |t|);
    ContainsAt(s, w);
  }

  /** A prefix of the suffix of s from position i occurs in s at i. */
  lemma PrefixOfSuffixOccurs(s: string, w: string, i: nat)
    requires i <= |s| && w <= s[i..]
    ensures OccursAt(s, w, i)
  {
    assert s[i..i + |w|] == s[i..][..|w|];
  }

  /** Python string order (`<=` on str): code-point lexicographic, a proper prefix first. */
  predicate LexLe(a: string, b: string)
    decreases |a|
  {
    |a| == 0 || (|b| > 0 && (a[0] < b[0] || (a[0] == b[0] && LexLe(a[1..], b[1..]))))
  }

  lemma {:induction false} LexLeTotal(a: string, b: string)
    ensures LexLe(a, b) || LexLe(b, a)
    decreases |a|
  {
    if |a| > 0 && |b| > 0 && a[0] == b[0] {
      LexLeTotal(a[1..], b[1..]);
    }
  }

  lemma {:induction false} LexLeTransitive(a: string, b: string, c: string)
    requires LexLe(a, b) && LexLe(b, c)
    ensures LexLe(a, c)
    decreases |a|
  {
    if |a| > 0 && a[0] == b[0] && b[0] == c[0] {
      LexLeTransitive(a[1..], b[1..], c[1..]);
    }
  }

  lemma {:induction false} LexLeAntisymmetric(a: string, b: string)
    requires LexLe(a, b) && LexLe(b, a)
    ensures a == b
    decreases |a|
  {
    if |a| > 0 {
      LexLeAntisymmetric(a[1..], b[1..]);
      assert a == [a[0]] + a[1..] && b == [b[0]] + b[1..];
    }
  }

  /** The maximal run of ASCII digits at the start of s. */
  function DigitRun(s: string): (r: string)
    ensures r <= s && AllDigits(r)
    ensures |r| < |s| ==> !IsDigit(s[|r|])
  {
    if |s| == 0 || !IsDigit(s[0]) then [] else [s[0]] + DigitRun(s[1..])
  }

  /** `re.search(r'(\d+)', s).group(1)`: the first maximal digit run, None when s has no digit. */
  function FirstDigitRun(s: string): (r: Option<string>)
    ensures r.None? <==> forall k :: 0 <= k < |s| ==> !IsDigit(s[k])
    ensures r.Some? ==> IsDigitString(r.value) && Contains(s, r.value)
  {
    if |s| == 0 then None
    else if IsDigit(s[0]) then Some(DigitRun(s))
    else FirstDigitRun(s[1..])
  }

  /** The run found is the maximal digit run starting at the first digit of s. */
  lemma {:induction false} FirstDigitRunAt(s: string, i: nat)
    requires i < |s| && IsDigit(s[i])
    requires forall k :: 0 <= k < i ==> !IsDigit(s[k])
    ensures FirstDigitRun(s) == Some(DigitRun(s[i..]))
  {
    if i > 0 {
      FirstDigitRunAt(s[1..], i - 1);
      assert s[1..][i - 1..] == s[i..];
    }
  }

  /**
    `re.search(r"(\d+)' (\d+)", s)`: the first maximal digit run followed by an apostrophe,
    a space and a digit, with the digit run that follows. A match can only start where a run
    starts (a shorter run is followed by a digit, not by the apostrophe), so the scan skips
    whole runs.
   */
  function HeightMatch(s: string): (r: Option<(string, string)>)
    ensures r.Some? ==> IsDigitString(r.value.0) && IsDigitString(r.value.1)
    decreases |s|
  {
    if |s| == 0 then None
    else if !IsDigit(s[0]) then HeightMatch(s[1..])
    else
      var feet := DigitRun(s);
      var rest := s[|feet|..];
      if |rest| >= 3 && rest[0] == '\'' && rest[1] == ' ' && IsDigit(rest[2]) then
        Some((feet, DigitRun(rest[2..])))
      else HeightMatch(rest)
  }

  /** What the height pattern matches occurs in s as feet, apostrophe, space, inches. */
  lemma {:induction false} HeightMatchOccurs(s: string)
    requires HeightMatch(s).Some?
    ensures Contains(s, HeightMatch(s).value.0 + "' " + HeightMatch(s).value.1)
    decreases |s|
  {
    var m := HeightMatch(s).value;
    if !IsDigit(s[0]) {
      HeightMatchOccurs(s[1..]);
      ContainsSuffix(s, 1, m.0 + "' " + m.1);
    } else {
      var feet := DigitRun(s);
      var rest := s[|feet|..];
      if |rest| >= 3 && rest[0] == '\'' && rest[1] == ' ' && IsDigit(rest[2]) {
        HeightPrefix(s, feet, DigitRun(rest[2..]));
      } else {
        HeightMatchOccurs(rest);
        ContainsSuffix(s, |feet|, m.0 + "' " + m.1);
      }
    }
  }

  /** Feet, the apostrophe and space, and the inches run that follows form a prefix of s. */
  lemma HeightPrefix(s: string, feet: string, inches: string)
    requires feet <= s && |s| >= |feet| + 2 && s[|feet|] == '\'' && s[|feet| + 1] == ' '
    requires inches <= s[|feet| + 2..]
    ensures Contains(s, feet + "' " + inches)
  {
    var t := feet + "' " + inches;
    assert |t| <= |s|;
    forall k | 0 <= k < |t| ensures t[k] == s[k] {
      if k >= |feet| + 2 {
        assert t[k] == inches[k - |feet| - 2] == s[|feet| + 2..][k - |feet| - 2];
      }
    }
    assert t <= s;
  }

  /** A string of the form `F' I` followed by no further digit matches with F and I. */
  lemma HeightMatchForm(feet: string, inches: string, tail: string)
    requires IsDigitString(feet) && IsDigitString(inches)
    requires |tail| == 0 || !IsDigit(tail[0])
    ensures HeightMatch(feet + "' " + inches + tail) == Some((feet, inches))
  {
    var after := inches + tail;
    var rest := "' " + after;
    var s := feet + rest;
    assert s == feet + "' " + inches + tail;
    DigitRunOf(feet, rest);
    assert s[|feet|..] == rest;
    assert rest[2..] == after;
    DigitRunOf(inches, tail);
    assert IsDigit(s[0]);
    assert IsDigit(rest[2]) by {
      assert rest[2] == after[0] == inches[0];
    }
  }

  /** The digit run of a digit string followed by a non-digit is that string. */
  lemma {:induction false} DigitRunOf(a: string, b: string)
    requires AllDigits(a) && (|b| == 0 || !IsDigit(b[0]))
    ensures DigitRun(a + b) == a
  {
    if |a| > 0 {
      assert (a + b)[1..] == a[1..] + b;
      DigitRunOf(a[1..], b);
    }
  }

  /** What occurs in a suffix of s occurs in s. */
  lemma {:induction false} ContainsSuffix(s: string, k: nat, t: string)
    requires k <= |s| && Contains(s[k..], t)
    ensures Contains(s, t)
  {
    if k > 0 {
      assert s[1..][k - 1..] == s[k..];
      ContainsSuffix(s[1..], k - 1, t);
    }
  }

  lemma {:induction false} LexLeReflexive(a: string)
    ensures LexLe(a, a)
    decreases |a|
  {
    if |a| > 0 {
      LexLeReflexive(a[1..]);
    }
  }
}
