/**
 * The pieces of Python's string library that the scripts use, on `string`
 * (a sequence of code points): `str.lower` on ASCII letters, `str.isspace`,
 * `str.strip`, `re.sub` of a character class run, `in` on strings,
 * `str.join`, `str.split` on one character, `str.replace` and the decimal
 * rendering of a natural number in an f-string.
 */
module Text {

  // ---------------------------------------------------------------------
  // Characters

  /** Python's `str.isspace` for one code point. */
  predicate IsSpace(c: char) {
    ('\t' <= c <= '\r') || ('\U{1c}' <= c <= ' ') || c == '\U{85}' || c == '\U{a0}'
    || c == '\U{1680}' || ('\U{2000}' <= c <= '\U{200a}') || c == '\U{2028}'
    || c == '\U{2029}' || c == '\U{202f}' || c == '\U{205f}' || c == '\U{3000}'
  }

  predicate IsUpper(c: char) { 'A' <= c <= 'Z' }

  predicate IsDigit(c: char) { '0' <= c <= '9' }

  /** The class `[a-zA-Z0-9]` of a regular expression. */
  predicate IsAlnum(c: char) { 'a' <= c <= 'z' || IsUpper(c) || IsDigit(c) }

  predicate NotAlnum(c: char) { !IsAlnum(c) }

  predicate IsHyphen(c: char) { c == '-' }

  function LowerChar(c: char): (d: char)
    ensures !IsUpper(d)
    ensures IsAlnum(d) == IsAlnum(c)
    ensures !IsUpper(c) ==> d == c
  {
    if IsUpper(c) then (c as int - 'A' as int + 'a' as int) as char else c
  }

  /** `str.lower`, restricted to the ASCII letters. */
  function Lower(s: string): (r: string)
    ensures |r| == |s|
    ensures forall i :: 0 <= i < |s| ==> r[i] == LowerChar(s[i])
  {
    if s == [] then [] else [LowerChar(s[0])] + Lower(s[1..])
  }

  lemma {:induction false} LowerIdempotent(s: string)
    ensures Lower(Lower(s)) == Lower(s)
  {
    assert forall i :: 0 <= i < |s| ==> Lower(Lower(s))[i] == Lower(s)[i];
  }

  /** A string without ASCII capitals is its own lower case. */
  lemma {:induction false} LowerUnchanged(s: string)
    requires forall i :: 0 <= i < |s| ==> !IsUpper(s[i])
    ensures Lower(s) == s
  {
    forall i | 0 <= i < |s|
      ensures Lower(s)[i] == s[i]
    {
      assert !IsUpper(s[i]);
    }
  }

  /** Two strings that differ only in the case of their ASCII letters. */
  predicate SameUpToCase(a: string, b: string) {
    |a| == |b| && forall i :: 0 <= i < |a| ==> LowerChar(a[i]) == LowerChar(b[i])
  }

  lemma {:induction false} SameUpToCaseLower(a: string, b: string)
    requires SameUpToCase(a, b)
    ensures Lower(a) == Lower(b)
  {
    assert forall i :: 0 <= i < |a| ==> Lower(a)[i] == Lower(b)[i];
  }

  // ---------------------------------------------------------------------
  // Predicates over all positions

  predicate AllChars(s: string, q: char -> bool) {
    forall i :: 0 <= i < |s| ==> q(s[i])
  }

  /** No two neighbouring characters both belong to the class `p`. */
  predicate NoRun(s: string, p: char -> bool) {
    forall i :: 0 <= i < |s| - 1 ==> !(p(s[i]) && p(s[i + 1]))
  }

  // ---------------------------------------------------------------------
  // Stripping

  /** `str.lstrip` of the characters of class `p`. */
  function TrimLeft(s: string, p: char -> bool): (r: string)
    ensures |r| <= |s| && r == s[|s| - |r|..]
    ensures r != [] ==> !p(r[0])
    ensures forall i :: 0 <= i < |s| - |r| ==> p(s[i])
    decreases |s|
  {
    if s != [] && p(s[0]) then TrimLeft(s[1..], p) else s
  }

  /** `str.rstrip` of the characters of class `p`. */
  function TrimRight(s: string, p: char -> bool): (r: string)
    ensures |r| <= |s| && r == s[..|r|]
    ensures r != [] ==> !p(r[|r| - 1])
    ensures forall i :: |r| <= i < |s| ==> p(s[i])
    decreases |s|
  {
    if s != [] && p(s[|s| - 1]) then TrimRight(s[..|s| - 1], p) else s
  }

  /** `str.strip`: `Strip(s, IsSpace)` is `s.strip()`, `Strip(s, IsHyphen)` is `s.strip("-")`. */
  function Strip(s: string, p: char -> bool): (r: string)
    ensures r != [] ==> !p(r[0]) && !p(r[|r| - 1])
    ensures (s == [] || !p(s[0])) && (s == [] || !p(s[|s| - 1])) ==> r == s
  {
    TrimRight(TrimLeft(s, p), p)
  }

  /** The string is a slice of `s`, and only characters of class `p` were cut. */
  lemma {:induction false} StripIsSlice(s: string, p: char -> bool) returns (lo: nat, hi: nat)
    ensures lo <= hi <= |s| && Strip(s, p) == s[lo..hi]
    ensures forall i :: 0 <= i < lo ==> p(s[i])
    ensures forall i :: hi <= i < |s| ==> p(s[i])
  {
    var l := TrimLeft(s, p);
    var r := TrimRight(l, p);
    lo := |s| - |l|;
    hi := lo + |r|;
    SuffixCut(s, l, r, p, lo);
  }

  /** Cutting a prefix `r` of the suffix `l == s[lo..]`, where the rest of `l` is of class `p`. */
  lemma SuffixCut(s: string, l: string, r: string, p: char -> bool, lo: nat)
    requires lo <= |s| && l == s[lo..] && |r| <= |l| && r == l[..|r|]
    requires forall i :: |r| <= i < |l| ==> p(l[i])
    ensures r == s[lo..lo + |r|]
    ensures forall i :: lo + |r| <= i < |s| ==> p(s[i])
  {
    forall i | lo + |r| <= i < |s|
      ensures p(s[i])
    {
      assert s[i] == l[i - lo];
    }
  }

  // ---------------------------------------------------------------------
  // Replacing each run of a character class by one character

  /**
   * `re.sub("[class]+", c, s)`: every maximal run of characters of class
   * `p` becomes the single character `c`.
   */
  function SubRuns(s: string, p: char -> bool, c: char): (r: string)
    ensures |r| <= |s|
    ensures s != [] ==> r != [] && r[0] == (if p(s[0]) then c else s[0])
    decreases |s|
  {
    if s == [] then []
    else if p(s[0]) then [c] + SubRuns(TrimLeft(s[1..], p), p, c)
    else [s[0]] + SubRuns(s[1..], p, c)
  }

  lemma AllCharsCons(x: char, r: string, q: char -> bool)
    requires q(x) && AllChars(r, q)
    ensures AllChars([x] + r, q)
  {
    assert forall i :: 1 <= i < |[x] + r| ==> ([x] + r)[i] == r[i - 1];
  }

  /** Each output character is `c` or a kept character of `s` outside the class. */
  lemma {:induction false} SubRunsChars(s: string, p: char -> bool, c: char, q: char -> bool)
    requires q(c)
    requires forall i :: 0 <= i < |s| && !p(s[i]) ==> q(s[i])
    ensures AllChars(SubRuns(s, p, c), q)
    decreases |s|
  {
    if s == [] {
    } else if p(s[0]) {
      var t := TrimLeft(s[1..], p);
      assert forall i :: 0 <= i < |t| ==> t[i] == s[|s| - |t| + i];
      SubRunsChars(t, p, c, q);
      AllCharsCons(c, SubRuns(t, p, c), q);
    } else {
      assert forall i :: 0 <= i < |s| - 1 ==> s[1..][i] == s[i + 1];
      SubRunsChars(s[1..], p, c, q);
      AllCharsCons(s[0], SubRuns(s[1..], p, c), q);
    }
  }

  /** After the substitution no two neighbours are both in the class. */
  lemma {:induction false} SubRunsNoRun(s: string, p: char -> bool, c: char)
    ensures NoRun(SubRuns(s, p, c), p)
    decreases |s|
  {
    if s == [] {
    } else if p(s[0]) {
      SubRunsNoRun(TrimLeft(s[1..], p), p, c);
    } else {
      SubRunsNoRun(s[1..], p, c);
    }
  }

  /** Every character of class `p` replaced by `c`, one for one. */
  function Recolor(s: string, p: char -> bool, c: char): (r: string)
    ensures |r| == |s|
    ensures forall i :: 0 <= i < |s| ==> r[i] == if p(s[i]) then c else s[i]
  {
    if s == [] then [] else [if p(s[0]) then c else s[0]] + Recolor(s[1..], p, c)
  }

  /** Where the class never occurs twice in a row, each run is one character and is only recoloured. */
  lemma {:induction false} SubRunsSingles(s: string, p: char -> bool, c: char)
    requires NoRun(s, p)
    ensures SubRuns(s, p, c) == Recolor(s, p, c)
    decreases |s|
  {
    if s != [] {
      if p(s[0]) {
        assert TrimLeft(s[1..], p) == s[1..];
      }
      SubRunsSingles(s[1..], p, c);
    }
  }

  // ---------------------------------------------------------------------
  // Filtering

  /** The characters of class `q`, in order. */
  function Filter(s: string, q: char -> bool): string {
    if s == [] then [] else (if q(s[0]) then [s[0]] else []) + Filter(s[1..], q)
  }

  lemma {:induction false} FilterConcat(a: string, b: string, q: char -> bool)
    ensures Filter(a + b, q) == Filter(a, q) + Filter(b, q)
    decreases |a|
  {
    if a == [] {
      assert a + b == b;
    } else {
      var head: string := if q(a[0]) then [a[0]] else [];
      assert (a + b)[0] == a[0] && (a + b)[1..] == a[1..] + b;
      FilterConcat(a[1..], b, q);
      calc {
        Filter(a + b, q);
        head + Filter(a[1..] + b, q);
        head + (Filter(a[1..], q) + Filter(b, q));
        (head + Filter(a[1..], q)) + Filter(b, q);
      }
    }
  }

  lemma {:induction false} FilterEmpty(s: string, q: char -> bool)
    ensures Filter(s, q) == [] <==> forall i :: 0 <= i < |s| ==> !q(s[i])
    decreases |s|
  {
    if s != [] {
      FilterEmpty(s[1..], q);
      assert forall i :: 1 <= i < |s| ==> s[i] == s[1..][i - 1];
    }
  }

  lemma {:induction false} FilterLower(s: string)
    ensures Filter(Lower(s), IsAlnum) == Lower(Filter(s, IsAlnum))
    decreases |s|
  {
    if s != [] {
      assert Lower(s)[1..] == Lower(s[1..]);
      FilterLower(s[1..]);
    }
  }

  /** Cutting class-`p` characters that are not `q` characters off both ends keeps the `q` characters. */
  lemma {:induction false} FilterStrip(s: string, p: char -> bool, q: char -> bool)
    requires forall i :: 0 <= i < |s| && p(s[i]) ==> !q(s[i])
    ensures Filter(Strip(s, p), q) == Filter(s, q)
  {
    var lo, hi := StripIsSlice(s, p);
    FilterCut(s, lo, hi, q);
  }

  lemma {:induction false} FilterCut(s: string, lo: nat, hi: nat, q: char -> bool)
    requires lo <= hi <= |s|
    requires forall i :: 0 <= i < lo ==> !q(s[i])
    requires forall i :: hi <= i < |s| ==> !q(s[i])
    ensures Filter(s[lo..hi], q) == Filter(s, q)
  {
    var left, mid, right := s[..lo], s[lo..hi], s[hi..];
    assert s == left + (mid + right);
    FilterConcat(left, mid + right, q);
    FilterConcat(mid, right, q);
    FilterEmpty(left, q);
    FilterEmpty(right, q);
  }

  /** Substituting runs of non-`q` characters by a non-`q` character keeps the `q` characters. */
  lemma {:induction false} FilterSubRuns(s: string, p: char -> bool, c: char, q: char -> bool)
    requires !q(c)
    requires forall i :: 0 <= i < |s| && p(s[i]) ==> !q(s[i])
    ensures Filter(SubRuns(s, p, c), q) == Filter(s, q)
    decreases |s|, 1
  {
    if s != [] {
      if p(s[0]) {
        FilterSubRunsRun(s, p, c, q);
      } else {
        FilterSubRunsKeep(s, p, c, q);
      }
    }
  }

  /** The step of `FilterSubRuns` at a run: it becomes `c`, which the filter drops with the run. */
  lemma {:induction false} FilterSubRunsRun(s: string, p: char -> bool, c: char, q: char -> bool)
    requires s != [] && p(s[0]) && !q(c)
    requires forall i :: 0 <= i < |s| && p(s[i]) ==> !q(s[i])
    ensures Filter(SubRuns(s, p, c), q) == Filter(s, q)
    decreases |s|, 0
  {
    var t := TrimLeft(s[1..], p);
    OutsideSuffix(s, p, q, |s| - |t|);
    assert SubRuns(s, p, c) == [c] + SubRuns(t, p, c);
    FilterCons(c, SubRuns(t, p, c), q);
    FilterSubRuns(t, p, c, q);
    FilterTrimLeft(s, p, q);
    assert TrimLeft(s, p) == t;
  }

  /** A suffix keeps the property that `p` characters are not `q` characters. */
  lemma OutsideSuffix(s: string, p: char -> bool, q: char -> bool, k: nat)
    requires k <= |s|
    requires forall i :: 0 <= i < |s| && p(s[i]) ==> !q(s[i])
    ensures forall i :: 0 <= i < |s[k..]| && p(s[k..][i]) ==> !q(s[k..][i])
  {
    forall i | 0 <= i < |s[k..]| && p(s[k..][i])
      ensures !q(s[k..][i])
    {
      assert s[k..][i] == s[k + i];
    }
  }

  /** The step of `FilterSubRuns` at a character outside the class: it is kept as it is. */
  lemma {:induction false} FilterSubRunsKeep(s: string, p: char -> bool, c: char, q: char -> bool)
    requires s != [] && !p(s[0]) && !q(c)
    requires forall i :: 0 <= i < |s| && p(s[i]) ==> !q(s[i])
    ensures Filter(SubRuns(s, p, c), q) == Filter(s, q)
    decreases |s|, 0
  {
    var rest := s[1..];
    assert forall i :: 0 <= i < |rest| ==> rest[i] == s[i + 1];
    var h: string := if q(s[0]) then [s[0]] else [];
    calc {
      Filter(SubRuns(s, p, c), q);
      Filter([s[0]] + SubRuns(rest, p, c), q);
      { FilterCons(s[0], SubRuns(rest, p, c), q); }
      h + Filter(SubRuns(rest, p, c), q);
      { FilterSubRuns(rest, p, c, q); }
      h + Filter(rest, q);
      Filter(s, q);
    }
  }

  lemma FilterCons(x: char, r: string, q: char -> bool)
    ensures Filter([x] + r, q) == (if q(x) then [x] else []) + Filter(r, q)
  {
    assert ([x] + r)[1..] == r;
  }

  /** Cutting a leading run of class-`p` characters, none of them `q`, keeps the `q` characters. */
  lemma FilterTrimLeft(s: string, p: char -> bool, q: char -> bool)
    requires forall i :: 0 <= i < |s| && p(s[i]) ==> !q(s[i])
    ensures Filter(TrimLeft(s, p), q) == Filter(s, q)
  {
    var t := TrimLeft(s, p);
    var k := |s| - |t|;
    assert t == s[k..] == s[k..|s|];
    forall i | 0 <= i < k
      ensures !q(s[i])
    {
      assert p(s[i]);
    }
    FilterCut(s, k, |s|, q);
  }

  // ---------------------------------------------------------------------
  // Substrings: Python's `sub in s`

  predicate Contains(s: string, sub: string) {
    exists i :: 0 <= i <= |s| && sub <= s[i..]
  }

  lemma {:induction false} ContainsMiddle(a: string, b: string, c: string)
    ensures Contains(a + b + c, b)
  {
    assert (a + b + c)[|a|..] == b + c;
  }

  lemma ContainsSelf(s: string)
    ensures Contains(s, s)
  {
    assert s[0..] == s;
  }

  /** An occurrence in `a` is an occurrence in `a + b`. */
  lemma ContainsInPrefix(a: string, b: string, sub: string)
    requires Contains(a, sub)
    ensures Contains(a + b, sub)
  {
    var i :| 0 <= i <= |a| && sub <= a[i..];
    assert (a + b)[i..] == a[i..] + b;
  }

  /** An occurrence in `b` is an occurrence in `a + b`. */
  lemma ContainsInSuffix(a: string, b: string, sub: string)
    requires Contains(b, sub)
    ensures Contains(a + b, sub)
  {
    var i :| 0 <= i <= |b| && sub <= b[i..];
    assert (a + b)[|a| + i..] == b[i..];
  }

  /** An occurrence in `b` is an occurrence in `a + b + c`. */
  lemma ContainsInMiddle(a: string, b: string, c: string, sub: string)
    requires Contains(b, sub)
    ensures Contains(a + b + c, sub)
  {
    ContainsInSuffix(a, b, sub);
    ContainsInPrefix(a + b, c, sub);
  }

  /** A string that lacks one character of `sub` does not contain `sub`. */
  lemma {:induction false} MissingChar(s: string, sub: string, k: nat)
    requires k < |sub| && sub[k] !in s
    ensures !Contains(s, sub)
  {
    forall i | 0 <= i <= |s| && i + k < |s|
      ensures s[i..][k] == s[i + k] && s[i + k] in s
    {
    }
  }

  /** A string that lacks one pair of neighbours of `sub` does not contain `sub`. */
  lemma {:induction false} MissingPair(s: string, sub: string, k: nat)
    requires k + 1 < |sub|
    requires forall j :: 0 <= j < |s| - 1 ==> !(s[j] == sub[k] && s[j + 1] == sub[k + 1])
    ensures !Contains(s, sub)
  {
    forall i | 0 <= i <= |s| && i + k + 1 < |s|
      ensures s[i..][k] == s[i + k] && s[i..][k + 1] == s[i + k + 1]
    {
    }
  }

  /** `sub in s`, read off the characters of `s` at one position. */
  lemma ContainsAt(s: string, sub: string, i: nat)
    requires i + |sub| <= |s|
    requires forall j :: 0 <= j < |sub| ==> s[i + j] == sub[j]
    ensures Contains(s, sub)
  {
    assert s[i..][..|sub|] == sub;
  }

  // ---------------------------------------------------------------------
  // Joining and splitting

  /** `sep.join(xs)`. */
  function Join(sep: string, xs: seq<string>): string
    decreases |xs|
  {
    if |xs| == 0 then ""
    else if |xs| == 1 then xs[0]
    else xs[0] + sep + Join(sep, xs[1..])
  }

  lemma JoinCons(sep: string, x: string, xs: seq<string>)
    requires xs != []
    ensures Join(sep, [x] + xs) == x + sep + Join(sep, xs)
  {
    assert ([x] + xs)[1..] == xs;
  }

  lemma JoinTwo(sep: string, a: string, b: string)
    ensures Join(sep, [a, b]) == a + sep + b
  {
    JoinCons(sep, a, [b]);
    assert [a, b] == [a] + [b];
  }

  lemma {:induction false} JoinAvoids(sep: string, xs: seq<string>, c: char)
    requires c !in sep
    requires forall k :: 0 <= k < |xs| ==> c !in xs[k]
    ensures c !in Join(sep, xs)
    decreases |xs|
  {
    if |xs| > 1 {
      JoinAvoids(sep, xs[1..], c);
    }
  }

  lemma {:induction false} JoinContains(sep: string, xs: seq<string>, k: nat)
    requires k < |xs|
    ensures Contains(Join(sep, xs), xs[k])
    decreases |xs|
  {
    if |xs| == 1 {
      ContainsMiddle("", xs[0], "");
      assert "" + xs[0] + "" == xs[0];
    } else if k == 0 {
      ContainsMiddle("", xs[0], sep + Join(sep, xs[1..]));
      assert "" + xs[0] + (sep + Join(sep, xs[1..])) == Join(sep, xs);
    } else {
      JoinContains(sep, xs[1..], k - 1);
      var j, rest := xs[1..][k - 1], Join(sep, xs[1..]);
      var i :| 0 <= i <= |rest| && j <= rest[i..];
      var pre := xs[0] + sep;
      assert Join(sep, xs) == pre + rest;
      assert (pre + rest)[|pre| + i..] == rest[i..];
    }
  }

  /** `s.split(sep)` for a one-character separator. */
  function Split(s: string, sep: char): (r: seq<string>)
    ensures |r| >= 1
    decreases |s|
  {
    if s == [] then [""]
    else if s[0] == sep then [""] + Split(s[1..], sep)
    else var t := Split(s[1..], sep); [[s[0]] + t[0]] + t[1..]
  }

  lemma {:induction false} SplitNoSep(s: string, sep: char)
    requires sep !in s
    ensures Split(s, sep) == [s]
    decreases |s|
  {
    if s != [] {
      SplitNoSep(s[1..], sep);
      assert [s[0]] + s[1..] == s;
    }
  }

  lemma {:induction false} SplitCons(x: string, sep: char, rest: string)
    requires sep !in x
    ensures Split(x + [sep] + rest, sep) == [x] + Split(rest, sep)
    decreases |x|
  {
    if x == [] {
      assert x + [sep] + rest == [sep] + rest;
      assert ([sep] + rest)[1..] == rest;
    } else {
      var s := x + [sep] + rest;
      assert s[1..] == x[1..] + [sep] + rest;
      SplitCons(x[1..], sep, rest);
      assert [x[0]] + x[1..] == x;
    }
  }

  /** Splitting a join at its one-character separator gives the parts back. */
  lemma {:induction false} SplitJoin(xs: seq<string>, sep: char)
    requires |xs| >= 1
    requires forall k :: 0 <= k < |xs| ==> sep !in xs[k]
    ensures Split(Join([sep], xs), sep) == xs
    decreases |xs|
  {
    if |xs| == 1 {
      SplitNoSep(xs[0], sep);
    } else {
      SplitJoin(xs[1..], sep);
      SplitCons(xs[0], sep, Join([sep], xs[1..]));
      assert [xs[0]] + xs[1..] == xs;
    }
  }

  // ---------------------------------------------------------------------
  // Replacing

  /** `s.replace(pat, rep)`: every occurrence, left to right, without overlaps. */
  function Replace(s: string, pat: string, rep: string): string
    decreases |s|
  {
    if pat == [] then (if s == [] then rep else rep + [s[0]] + Replace(s[1..], pat, rep))
    else if pat <= s then rep + Replace(s[|pat|..], pat, rep)
    else if s == [] then []
    else [s[0]] + Replace(s[1..], pat, rep)
  }

  /** A string without an occurrence is left alone. */
  lemma {:induction false} ReplaceAbsent(s: string, pat: string, rep: string)
    requires pat != [] && !Contains(s, pat)
    ensures Replace(s, pat, rep) == s
    decreases |s|
  {
    assert !(pat <= s[0..]);
    if s != [] {
      forall i | 0 <= i <= |s[1..]|
        ensures s[1..][i..] == s[i + 1..]
      {
      }
      ReplaceAbsent(s[1..], pat, rep);
      assert [s[0]] + s[1..] == s;
    }
  }

  predicate OccursAt(s: string, pat: string, i: nat)
    requires i <= |s|
  {
    pat <= s[i..]
  }

  lemma ReplaceMatch(s: string, pat: string, rep: string)
    requires pat != [] && pat <= s
    ensures Replace(s, pat, rep) == rep + Replace(s[|pat|..], pat, rep)
  {
  }

  lemma ReplaceMiss(s: string, pat: string, rep: string)
    requires pat != [] && s != [] && !(pat <= s)
    ensures Replace(s, pat, rep) == [s[0]] + Replace(s[1..], pat, rep)
  {
  }

  /** `pat` occurs at `k` and nowhere before it, stated one position at a time. */
  predicate FirstAt(s: string, pat: string, k: nat)
    requires k + |pat| <= |s|
    decreases k
  {
    if k == 0 then pat <= s else !(pat <= s) && FirstAt(s[1..], pat, k - 1)
  }

  /** `pat` occurs nowhere before `k`. */
  predicate NoneBefore(s: string, pat: string, k: nat)
    requires k <= |s|
  {
    forall i :: 0 <= i < k ==> !OccursAt(s, pat, i)
  }

  /** `FirstAt` is the leftmost occurrence. */
  lemma FirstAtLeftmost(s: string, pat: string, k: nat)
    requires k + |pat| <= |s|
    ensures FirstAt(s, pat, k) <==> OccursAt(s, pat, k) && NoneBefore(s, pat, k)
  {
    if FirstAt(s, pat, k) {
      FirstAtIsLeftmost(s, pat, k);
    }
    if OccursAt(s, pat, k) && NoneBefore(s, pat, k) {
      LeftmostIsFirstAt(s, pat, k);
    }
  }

  lemma {:induction false} FirstAtIsLeftmost(s: string, pat: string, k: nat)
    requires k + |pat| <= |s| && FirstAt(s, pat, k)
    ensures OccursAt(s, pat, k) && NoneBefore(s, pat, k)
    decreases k
  {
    assert s[0..] == s;
    if k > 0 {
      var t := s[1..];
      FirstAtIsLeftmost(t, pat, k - 1);
      assert t[k - 1..] == s[k..];
      forall i | 0 < i < k
        ensures !OccursAt(s, pat, i)
      {
        assert t[i - 1..] == s[i..];
        assert !OccursAt(t, pat, i - 1);
      }
    }
  }

  lemma {:induction false} LeftmostIsFirstAt(s: string, pat: string, k: nat)
    requires k + |pat| <= |s| && OccursAt(s, pat, k) && NoneBefore(s, pat, k)
    ensures FirstAt(s, pat, k)
    decreases k
  {
    assert s[0..] == s;
    if k > 0 {
      var t := s[1..];
      assert t[k - 1..] == s[k..];
      forall i | 0 <= i < k - 1
        ensures !OccursAt(t, pat, i)
      {
        assert t[i..] == s[i + 1..];
        assert !OccursAt(s, pat, i + 1);
      }
      LeftmostIsFirstAt(t, pat, k - 1);
      assert !OccursAt(s, pat, 0);
    }
  }

  /** `s` with the occurrence of `pat` at `k` replaced, and the rest replaced as usual. */
  function ReplacedAt(s: string, pat: string, rep: string, k: nat): string
    requires k + |pat| <= |s|
  {
    s[..k] + rep + Replace(s[k + |pat|..], pat, rep)
  }

  /** The leftmost occurrence, at `k`, is the one replaced first. */
  lemma {:induction false} ReplaceFirst(s: string, pat: string, rep: string, k: nat)
    requires pat != [] && k + |pat| <= |s| && FirstAt(s, pat, k)
    ensures Replace(s, pat, rep) == ReplacedAt(s, pat, rep, k)
    decreases k
  {
    if k == 0 {
      assert s[0..] == s && s[..0] == [];
      ReplaceMatch(s, pat, rep);
      assert s[..0] + rep == rep;
    } else {
      ReplaceFirst(s[1..], pat, rep, k - 1);
      ReplaceStep(s, pat, rep, k);
    }
  }

  /** `s.replace` replaces the leftmost occurrence first and carries on after it. */
  lemma ReplaceLeftmost(s: string, pat: string, rep: string, k: nat)
    requires pat != [] && k + |pat| <= |s| && OccursAt(s, pat, k) && NoneBefore(s, pat, k)
    ensures Replace(s, pat, rep) == ReplacedAt(s, pat, rep, k)
  {
    LeftmostIsFirstAt(s, pat, k);
    ReplaceFirst(s, pat, rep, k);
  }

  /** Passing one character that starts no occurrence, then the rest as `ReplaceFirst` says. */
  lemma ReplaceStep(s: string, pat: string, rep: string, k: nat)
    requires pat != [] && 0 < k && k + |pat| <= |s| && !(pat <= s)
    requires Replace(s[1..], pat, rep) == ReplacedAt(s[1..], pat, rep, k - 1)
    ensures Replace(s, pat, rep) == ReplacedAt(s, pat, rep, k)
  {
    var rs, rt, tail := Replace(s, pat, rep), Replace(s[1..], pat, rep), Replace(s[k + |pat|..], pat, rep);
    ReplaceMiss(s, pat, rep);
    SliceOfTail(s, k);
    ReplaceOfTail(s, pat, rep, k);
    Regroup([s[0]], s[1..][..k - 1], rep, tail, rt, rs);
  }

  /** Slicing `s[1..]` at `k - 1` is slicing `s` at `k`. */
  lemma SliceOfTail(s: string, k: nat)
    requires 0 < k <= |s|
    ensures [s[0]] + s[1..][..k - 1] == s[..k]
  {
  }

  lemma ReplaceOfTail(s: string, pat: string, rep: string, k: nat)
    requires 0 < k && k + |pat| <= |s|
    ensures Replace(s[1..][k - 1 + |pat|..], pat, rep) == Replace(s[k + |pat|..], pat, rep)
  {
    assert s[1..][k - 1 + |pat|..] == s[k + |pat|..];
  }

  lemma Regroup(x: string, head: string, rep: string, tail: string, rt: string, rs: string)
    requires rs == x + rt && rt == head + rep + tail
    ensures rs == (x + head) + rep + tail
  {
  }

  // ---------------------------------------------------------------------
  // Decimal rendering of a natural number

  function DigitChar(d: nat): char
    requires d < 10
  {
    ('0' as int + d) as char
  }

  /** `str(n)` for `n >= 0`. */
  function Decimal(n: nat): (r: string)
    ensures |r| >= 1 && AllChars(r, IsDigit)
    ensures |r| > 1 ==> r[0] != '0'
  {
    if n < 10 then [DigitChar(n)] else Decimal(n / 10) + [DigitChar(n % 10)]
  }

  /** The value a string of decimal digits denotes. */
  function DecimalValue(s: string): nat
    requires AllChars(s, IsDigit)
  {
    if s == [] then 0
    else DecimalValue(s[..|s| - 1]) * 10 + (s[|s| - 1] as int - '0' as int)
  }

  lemma {:induction false} DecimalRoundTrip(n: nat)
    ensures DecimalValue(Decimal(n)) == n
  {
    if n >= 10 {
      DecimalRoundTrip(n / 10);
      var s := Decimal(n);
      assert s[..|s| - 1] == Decimal(n / 10);
    }
  }
}
