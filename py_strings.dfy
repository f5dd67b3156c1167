/**
 * The Python string operations the comment parsers use, over `seq<char>`:
 * `str.count`, `str.find`, `str.replace`, `str.strip`, `str.rstrip`,
 * `str.splitlines`, and the "bare line" regular expression
 * `^[ \t]*<literal>[ \t]*$` applied with `re.match`.
 */
module PyStrings {
  import opened Wrappers

  /** `s.count(c)` for a one-character argument. */
  function Count(s: string, c: char): nat
  {
    if s == [] then 0 else Count(s[..|s| - 1], c) + (if s[|s| - 1] == c then 1 else 0)
  }

  lemma {:induction false} CountConcat(a: string, b: string, c: char)
    ensures Count(a + b, c) == Count(a, c) + Count(b, c)
  {
    if b == [] {
      assert a + b == a;
    } else {
      CountConcat(a, b[..|b| - 1], c);
      assert (a + b)[..|a + b| - 1] == a + b[..|b| - 1];
    }
  }

  /** A string without a newline counts none. */
  lemma {:induction false} NoNewlineCount(s: string)
    requires forall k :: 0 <= k < |s| ==> s[k] != '\n'
    ensures Count(s, '\n') == 0
  {
    if s != [] {
      NoNewlineCount(s[..|s| - 1]);
    }
  }

  /** `pat` occurs in `s` starting at index `i`. */
  predicate OccursAt(s: string, pat: string, i: nat)
  {
    i + |pat| <= |s| && s[i..i + |pat|] == pat
  }

  function FindFrom(s: string, pat: string, i: nat): (r: Option<nat>)
    requires i <= |s|
    ensures r.Some? ==> i <= r.value && OccursAt(s, pat, r.value)
    ensures r.Some? ==> forall j :: i <= j < r.value ==> !OccursAt(s, pat, j)
    ensures r.None? ==> forall j :: i <= j ==> !OccursAt(s, pat, j)
    decreases |s| - i
  {
    if OccursAt(s, pat, i) then Some(i)
    else if i == |s| then None
    else FindFrom(s, pat, i + 1)
  }

  /** `s.find(pat)`: the lowest index where `pat` occurs; `None` stands for -1. */
  function Find(s: string, pat: string): (r: Option<nat>)
    ensures r.Some? ==> OccursAt(s, pat, r.value)
    ensures r.Some? ==> forall j :: 0 <= j < r.value ==> !OccursAt(s, pat, j)
    ensures r.None? ==> forall j :: !OccursAt(s, pat, j)
  {
    FindFrom(s, pat, 0)
  }

  /** `s.replace(pat, rep, 1)`: replace the first occurrence of `pat`, if any. */
  function ReplaceFirst(s: string, pat: string, rep: string): (r: string)
    ensures (forall j :: !OccursAt(s, pat, j)) ==> r == s
    ensures forall i: nat :: OccursAt(s, pat, i) && (forall j :: 0 <= j < i ==> !OccursAt(s, pat, j)) ==>
              r == s[..i] + rep + s[i + |pat|..]
  {
    match Find(s, pat)
    case None => s
    case Some(i) =>
      s[..i] + rep + s[i + |pat|..]
  }

  /**
   * Replacing the first occurrence of `pat` by `rep` changes the number of
   * `c` characters by exactly what `rep` has more or less than `pat`.
   */
  lemma ReplaceFirstCount(s: string, pat: string, rep: string, c: char)
    ensures Find(s, pat).None? ==> Count(ReplaceFirst(s, pat, rep), c) == Count(s, c)
    ensures Find(s, pat).Some? ==>
              Count(ReplaceFirst(s, pat, rep), c) + Count(pat, c) == Count(s, c) + Count(rep, c)
  {
    if Find(s, pat).Some? {
      var i := Find(s, pat).value;
      var u, v := s[..i], s[i + |pat|..];
      assert s == u + pat + v;
      CountConcat(u + pat, v, c);
      CountConcat(u, pat, c);
      CountConcat(u + rep, v, c);
      CountConcat(u, rep, c);
    }
  }

  /** Replacing text by text with as many newlines keeps the newline count of `s`. */
  lemma ReplaceFirstKeepsNewlines(s: string, pat: string, rep: string)
    requires Count(pat, '\n') == Count(rep, '\n')
    ensures Count(ReplaceFirst(s, pat, rep), '\n') == Count(s, '\n')
  {
    ReplaceFirstCount(s, pat, rep, '\n');
  }

  /** `s.replace(pat, rep)` for a non-empty `pat`: every occurrence, left to right, without overlap. */
  function ReplaceAll(s: string, pat: string, rep: string): (r: string)
    requires pat != []
    ensures (forall j :: !OccursAt(s, pat, j)) ==> r == s
    ensures |rep| <= |pat| ==> |r| <= |s|
    ensures |pat| <= |rep| ==> |s| <= |r|
    decreases |s|
  {
    match Find(s, pat)
    case None => s
    case Some(i) => s[..i] + rep + ReplaceAll(s[i + |pat|..], pat, rep)
  }

  lemma SplitAtOccurrence(s: string, pat: string, i: nat)
    requires OccursAt(s, pat, i)
    ensures s == s[..i] + pat + s[i + |pat|..]
  {
    assert s == s[..i] + s[i..i + |pat|] + s[i + |pat|..];
  }

  /** Replacing every occurrence of a pattern by itself gives back the text. */
  lemma {:induction false} ReplaceAllSelf(s: string, pat: string)
    requires pat != []
    ensures ReplaceAll(s, pat, pat) == s
    decreases |s|
  {
    match Find(s, pat)
    case None =>
    case Some(i) =>
      ReplaceAllSelf(s[i + |pat|..], pat);
      SplitAtOccurrence(s, pat, i);
  }

  /** Deleting every occurrence of a pattern never adds a `c` character. */
  lemma {:induction false} RemoveAllCount(s: string, pat: string, c: char)
    requires pat != []
    ensures Count(ReplaceAll(s, pat, ""), c) <= Count(s, c)
    decreases |s|
  {
    match Find(s, pat)
    case None =>
    case Some(i) =>
      var u, v := s[..i], s[i + |pat|..];
      var rest := ReplaceAll(v, pat, "");
      SplitAtOccurrence(s, pat, i);
      assert u + "" == u;
      assert ReplaceAll(s, pat, "") == u + rest;
      RemoveAllCount(v, pat, c);
      CountConcat(u, rest, c);
      CountConcat(u + pat, v, c);
      CountConcat(u, pat, c);
  }

  /** The characters for which `str.isspace()` holds: what `str.strip()` and `str.rstrip()` remove. */
  const Whitespace: set<char> := {
    ' ', '\t', '\n', '\U{0b}', '\U{0c}', '\r', '\U{1c}', '\U{1d}', '\U{1e}', '\U{1f}', '\U{85}',
    '\U{a0}', '\U{1680}', '\U{2000}', '\U{2001}', '\U{2002}', '\U{2003}', '\U{2004}', '\U{2005}',
    '\U{2006}', '\U{2007}', '\U{2008}', '\U{2009}', '\U{200a}', '\U{2028}', '\U{2029}', '\U{202f}',
    '\U{205f}', '\U{3000}'
  }

  predicate IsSpace(c: char)
  {
    c in Whitespace
  }

  /** `s.rstrip()`: `s` without its trailing whitespace. */
  function RStrip(s: string): (r: string)
    ensures r <= s
  {
    if s == [] || !IsSpace(s[|s| - 1]) then s else RStrip(s[..|s| - 1])
  }

  /** `s.lstrip()`: `s` without its leading whitespace. */
  function LStrip(s: string): (r: string)
    ensures |r| <= |s|
  {
    if s == [] || !IsSpace(s[0]) then s else LStrip(s[1..])
  }

  /** `s.strip()`: `s` without its leading and trailing whitespace. */
  function Strip(s: string): (r: string)
    ensures |r| <= |s|
  {
    LStrip(RStrip(s))
  }

  /** `rstrip` removes exactly the whitespace at the end: what it removes is whitespace, and it stops at a non-space. */
  lemma {:induction false} RStripRemovesSpaces(s: string)
    ensures var r := RStrip(s);
      (r == [] || !IsSpace(r[|r| - 1])) && forall j :: |r| <= j < |s| ==> IsSpace(s[j])
  {
    if s != [] && IsSpace(s[|s| - 1]) {
      RStripRemovesSpaces(s[..|s| - 1]);
    }
  }

  /** `rstrip` keeps every character up to the last non-space one. */
  lemma {:induction false} RStripKeeps(s: string, i: nat)
    requires i < |s| && !IsSpace(s[i])
    ensures i < |RStrip(s)| && RStrip(s) == s[..|RStrip(s)|]
  {
    if IsSpace(s[|s| - 1]) {
      var init := s[..|s| - 1];
      assert init[i] == s[i];
      RStripKeeps(init, i);
      assert init[..|RStrip(init)|] == s[..|RStrip(init)|];
    } else {
      assert s[..|s|] == s;
    }
  }

  /** `lstrip` removes exactly the whitespace at the start. */
  lemma {:induction false} LStripRemovesSpaces(s: string)
    ensures var r := LStrip(s);
      r == s[|s| - |r|..]
      && (r == [] || !IsSpace(r[0]))
      && forall j :: 0 <= j < |s| - |r| ==> IsSpace(s[j])
  {
    if s != [] && IsSpace(s[0]) {
      var t := s[1..];
      LStripRemovesSpaces(t);
      var r := LStrip(t);
      assert LStrip(s) == r;
      assert t[|t| - |r|..] == s[|s| - |r|..];
      forall j | 0 <= j < |s| - |r| ensures IsSpace(s[j]) {
        if j > 0 {
          assert s[j] == t[j - 1];
        }
      }
    }
  }

  /** A stripped string neither starts nor ends with whitespace. */
  lemma StripEnds(s: string)
    ensures var r := Strip(s); r == [] || (!IsSpace(r[0]) && !IsSpace(r[|r| - 1]))
  {
    var t := RStrip(s);
    var r := LStrip(t);
    RStripRemovesSpaces(s);
    LStripRemovesSpaces(t);
    var k := |t| - |r|;
    assert r == t[k..];
    if r != [] {
      assert r[|r| - 1] == t[|t| - 1];
    }
  }

  /**
   * `strip` cuts `s` into whitespace, the result, and whitespace: the result
   * is the slice of `s` from the returned index on.
   */
  lemma StripSlice(s: string) returns (i: nat)
    ensures i + |Strip(s)| <= |s| && Strip(s) == s[i..i + |Strip(s)|]
    ensures forall j :: 0 <= j < i ==> IsSpace(s[j])
    ensures forall j :: i + |Strip(s)| <= j < |s| ==> IsSpace(s[j])
  {
    var t := RStrip(s);
    var r := LStrip(t);
    RStripRemovesSpaces(s);
    LStripRemovesSpaces(t);
    i := |t| - |r|;
    assert t == s[..|t|];
    assert r == t[i..] == s[i..i + |r|];
    forall j | 0 <= j < i ensures IsSpace(s[j]) {
      assert s[j] == t[j];
    }
  }

  lemma CountPrefix(s: string, k: nat, c: char)
    requires k <= |s|
    ensures Count(s[..k], c) <= Count(s, c)
  {
    assert s == s[..k] + s[k..];
    CountConcat(s[..k], s[k..], c);
  }

  lemma CountSuffix(s: string, k: nat, c: char)
    requires k <= |s|
    ensures Count(s[k..], c) <= Count(s, c)
  {
    assert s == s[..k] + s[k..];
    CountConcat(s[..k], s[k..], c);
  }

  /** Stripping only removes characters. */
  lemma StripCount(s: string, c: char)
    ensures Count(Strip(s), c) <= Count(s, c)
  {
    var t := RStrip(s);
    LStripRemovesSpaces(t);
    assert t == s[..|t|];
    CountSuffix(t, |t| - |LStrip(t)|, c);
    CountPrefix(s, |t|, c);
  }

  predicate IsBlank(s: string)
  {
    forall k :: 0 <= k < |s| ==> s[k] == ' ' || s[k] == '\t'
  }

  /** `line` is spaces and tabs, then `lit`, then spaces and tabs, and nothing else. */
  predicate BlankAround(line: string, lit: string)
  {
    exists i :: 0 <= i && i + |lit| <= |line| && IsBlank(line[..i]) && line[i..i + |lit|] == lit && IsBlank(line[i + |lit|..])
  }

  /**
   * `re.match(r"^[ \t]*" + re.escape(lit) + r"[ \t]*$", line)`: without
   * MULTILINE, Python's `$` matches at the end and also just before a final
   * newline.
   */
  predicate MatchesBareLine(line: string, lit: string)
    ensures MatchesBareLine(line, lit) ==> |lit| <= |line|
  {
    BlankAround(line, lit) || (|line| > 0 && line[|line| - 1] == '\n' && BlankAround(line[..|line| - 1], lit))
  }

  /** A literal between spaces and tabs matches, with or without a final newline. */
  lemma BareLineShape(pre: string, lit: string, post: string)
    requires IsBlank(pre) && IsBlank(post)
    ensures MatchesBareLine(pre + lit + post, lit)
    ensures MatchesBareLine(pre + lit + post + "\n", lit)
  {
    var line := pre + lit + post;
    assert line[..|pre|] == pre && line[|pre|..|pre| + |lit|] == lit && line[|pre| + |lit|..] == post;
    assert BlankAround(line, lit);
    assert (line + "\n")[..|line + "\n"| - 1] == line;
  }

  /**
   * A matching line holds the literal with nothing but spaces and tabs before
   * it, and after it nothing but spaces and tabs, possibly ended by one newline.
   */
  lemma BareLineHoldsLiteral(line: string, lit: string) returns (i: nat)
    requires MatchesBareLine(line, lit)
    ensures OccursAt(line, lit, i) && IsBlank(line[..i])
    ensures IsBlank(line[i + |lit|..])
            || (0 < |line| && line[|line| - 1] == '\n' && i + |lit| < |line| && IsBlank(line[i + |lit|..|line| - 1]))
  {
    var body := if BlankAround(line, lit) then line else line[..|line| - 1];
    assert BlankAround(body, lit);
    assert body <= line;
    i :| 0 <= i && i + |lit| <= |body| && IsBlank(body[..i]) && body[i..i + |lit|] == lit && IsBlank(body[i + |lit|..]);
    assert line[..i] == body[..i] && line[i..i + |lit|] == body[i..i + |lit|];
    if body != line {
      assert body[i + |lit|..] == line[i + |lit|..|line| - 1];
    }
  }

  /** An empty line holds no non-empty literal, so it never matches. */
  lemma EmptyLineIsNotBare(lit: string)
    requires lit != []
    ensures !MatchesBareLine("", lit)
  {
  }

  /** The characters `str.splitlines()` splits at. */
  predicate IsLineBoundary(c: char)
  {
    c == '\n' || c == '\r' || c == '\U{0b}' || c == '\U{0c}' || '\U{1c}' <= c <= '\U{1e}'
    || c == '\U{85}' || c == '\U{2028}' || c == '\U{2029}'
  }

  function BoundaryIndex(s: string): (k: nat)
    ensures k <= |s|
    ensures forall j :: 0 <= j < k ==> !IsLineBoundary(s[j])
    ensures k < |s| ==> IsLineBoundary(s[k])
  {
    if s == [] || IsLineBoundary(s[0]) then 0 else 1 + BoundaryIndex(s[1..])
  }

  /**
   * `s.splitlines()`: the lines of `s` without their terminators; `\r\n`
   * ends one line, and a final terminator does not open an empty line.
   */
  function SplitLines(s: string): (lines: seq<string>)
    ensures s == [] <==> lines == []
    decreases |s|
  {
    if s == [] then []
    else
      var k := BoundaryIndex(s);
      if k == |s| then [s]
      else
        var width := if s[k] == '\r' && k + 1 < |s| && s[k + 1] == '\n' then 2 else 1;
        [s[..k]] + SplitLines(s[k + width..])
  }

  /** No line of `s.splitlines()` holds a line boundary; in particular none holds a newline. */
  lemma {:induction false} SplitLinesHaveNoBoundary(s: string)
    ensures forall k, j :: 0 <= k < |SplitLines(s)| && 0 <= j < |SplitLines(s)[k]| ==> !IsLineBoundary(SplitLines(s)[k][j])
    decreases |s|
  {
    if s != [] {
      var b := BoundaryIndex(s);
      if b < |s| {
        var width := if s[b] == '\r' && b + 1 < |s| && s[b + 1] == '\n' then 2 else 1;
        SplitLinesHaveNoBoundary(s[b + width..]);
        var rest := SplitLines(s[b + width..]);
        var lines := SplitLines(s);
        assert lines == [s[..b]] + rest;
        forall k, j | 0 <= k < |lines| && 0 <= j < |lines[k]| ensures !IsLineBoundary(lines[k][j]) {
          if k > 0 {
            assert lines[k] == rest[k - 1];
            assert !IsLineBoundary(rest[k - 1][j]);
          } else {
            assert lines[0] == s[..b];
            assert j < b && lines[0][j] == s[j];
          }
        }
      }
    }
  }

  /** The lines `ls` with a newline after each: the text `s.splitlines()` takes apart. */
  function JoinLines(ls: seq<string>): string
  {
    if ls == [] then [] else ls[0] + "\n" + JoinLines(ls[1..])
  }

  /** Lines without a line boundary, each ended by a newline, split back into the same lines. */
  lemma {:induction false} SplitJoinLines(ls: seq<string>)
    requires forall k, j :: 0 <= k < |ls| && 0 <= j < |ls[k]| ==> !IsLineBoundary(ls[k][j])
    ensures SplitLines(JoinLines(ls)) == ls
  {
    if ls != [] {
      var l, rest := ls[0], JoinLines(ls[1..]);
      var s := l + "\n" + rest;
      assert JoinLines(ls) == s;
      assert forall j :: 0 <= j < |l| ==> s[j] == l[j] && !IsLineBoundary(ls[0][j]);
      BoundaryAfterLine(s, |l|);
      assert s[..|l|] == l && s[|l| + 1..] == rest;
      SplitJoinLines(ls[1..]);
    }
  }

  /** The first boundary of `s` is the first index holding one. */
  lemma {:induction false} BoundaryAfterLine(s: string, k: nat)
    requires k < |s| && IsLineBoundary(s[k])
    requires forall j :: 0 <= j < k ==> !IsLineBoundary(s[j])
    ensures BoundaryIndex(s) == k
  {
    if k > 0 {
      BoundaryAfterLine(s[1..], k - 1);
    }
  }
}
