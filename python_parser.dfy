/**
 * The Python comment parser: `#` comments from the token stream, with runs
 * of bare comment lines merged; triple-quoted blocks from regular-expression
 * matches; a stable sort by start line; and tagging of each comment with the
 * syntax nodes it documents.
 */
module PythonParser {
  import opened Wrappers
  import opened PyStrings
  import opened Common
  import opened AstVisitor
  import StableSort

  type PyComment = Comment<PyNode>
  type Data = CommentData<PyNode>

  /**
   * A token of `tokenize.generate_tokens`: whether its type is COMMENT, its
   * string, the row it starts on, and the physical line it was found on.
   */
  datatype Token = Token(isComment: bool, text: string, row: int, line: string)

  // ---------------------------------------------------------------------
  // combine_consecutive_comments

  /** `combine_consecutive_comments` on the comments' field values. */
  function Combine(comments: seq<Data>, current: Data): (seq<Data>, Data)
  {
    if |comments| > 0 && current.startLine == comments[|comments| - 1].endLine + 1 then
      var previous := comments[|comments| - 1];
      (comments[..|comments| - 1],
       CommentData(previous.text + " " + current.text, previous.startLine, current.endLine, false, []))
    else
      (comments, current)
  }

  /**
   * `combine_consecutive_comments(comments, current)`: when `current` starts on
   * the line after the last comment ends, the last comment is deleted and a
   * new comment joining the two is returned; otherwise nothing changes and
   * `current` is returned.
   */
  method CombineConsecutiveComments(comments: seq<PyComment>, current: PyComment)
    returns (rest: seq<PyComment>, comment: PyComment)
    ensures (Values(rest), comment.Data()) == Combine(Values(comments), current.Data())
    ensures rest <= comments
    ensures comment == current || fresh(comment)
  {
    rest, comment := comments, current;
    if |comments| > 0 {
      var previous := comments[|comments| - 1];
      if current.StartLine() == previous.EndLine() + 1 {
        rest := comments[..|comments| - 1];
        comment := new Comment(previous.Text() + " " + current.Text(), previous.StartLine(), current.EndLine());
        assert Values(rest) == Values(comments)[..|comments| - 1];
      }
    }
  }

  /**
   * A merge replaces the last comment by one spanning from its first line to
   * the current comment's last line, with both texts joined by a space; the
   * list loses exactly that element. Without a merge the list is unchanged.
   */
  lemma CombineSpans(comments: seq<Data>, current: Data)
    ensures var (rest, c) := Combine(comments, current);
      if |comments| > 0 && current.startLine == comments[|comments| - 1].endLine + 1 then
        |rest| + 1 == |comments| && rest == comments[..|rest|]
        && c.text == comments[|comments| - 1].text + " " + current.text
        && c.startLine == comments[|comments| - 1].startLine && c.endLine == current.endLine
        && !c.multiline && c.nodes == []
      else
        rest == comments && c == current
  {
  }

  // ---------------------------------------------------------------------
  // parse_single_line_comments

  /** The loop variables of `parse_single_line_comments`. */
  datatype ScanState = ScanState(contents: string, comments: seq<Data>, prevLine: string, prevToken: string)

  /** The state before the first token: `prev_line = ''`, `prev_token = '-'`. */
  function ScanStart(contents: string, comments: seq<Data>): ScanState
  {
    ScanState(contents, comments, "", "-")
  }

  /** The comment a `#` token makes: its text without the first `#`, on the token's row. */
  function TokenComment(tok: Token): Data
  {
    CommentData(ReplaceFirst(tok.text, "#", ""), tok.row, tok.row, false, [])
  }

  /** A merge is attempted when the token's line and the previous comment token's line are bare. */
  predicate MergeAttempted(st: ScanState, tok: Token)
  {
    MatchesBareLine(tok.line, tok.text) && MatchesBareLine(st.prevLine, st.prevToken)
  }

  /** One iteration of the token loop. */
  function ScanStep(st: ScanState, tok: Token): ScanState
  {
    if !tok.isComment then st
    else ScanState(ReplaceFirst(st.contents, tok.text, " "), ScanAppended(st, tok), tok.line, tok.text)
  }

  /** The list after a comment token: its comment appended, merged into the last one when a merge is attempted. */
  function ScanAppended(st: ScanState, tok: Token): seq<Data>
  {
    MergedAppend(st.comments, TokenComment(tok), MergeAttempted(st, tok))
  }

  /** The list once `current` is appended, combined with the last comment first when `merge` holds. */
  function MergedAppend(comments: seq<Data>, current: Data, merge: bool): seq<Data>
  {
    var merged := if merge then Combine(comments, current) else (comments, current);
    merged.0 + [merged.1]
  }

  /** The loop over the tokens `toks`, in order. */
  function Scan(st: ScanState, toks: seq<Token>): ScanState
  {
    if toks == [] then st else ScanStep(Scan(st, toks[..|toks| - 1]), toks[|toks| - 1])
  }

  function CommentTokens(toks: seq<Token>): nat
  {
    if toks == [] then 0 else CommentTokens(toks[..|toks| - 1]) + (if toks[|toks| - 1].isComment then 1 else 0)
  }

  /**
   * The body of the token loop for a COMMENT token: blank the token in the
   * text, make its comment, merge it when both lines are bare, append it, and
   * remember the token and its line.
   */
  method ScanCommentToken(contents: string, comments: seq<PyComment>, prevLine: string, prevToken: string, tok: Token)
    returns (contents': string, comments': seq<PyComment>, prevLine': string, prevToken': string)
    requires tok.isComment
    ensures ScanState(contents', Values(comments'), prevLine', prevToken')
            == ScanStep(ScanState(contents, Values(comments), prevLine, prevToken), tok)
    ensures Distinct(comments) ==> Distinct(comments')
    ensures forall c :: c in comments' ==> c in comments || fresh(c)
  {
    contents' := ReplaceFirst(contents, tok.text, " ");
    var comment := NewTokenComment(tok);
    var merge := MatchesBareLine(tok.line, tok.text) && MatchesBareLine(prevLine, prevToken);
    comments' := AppendTokenComment(comments, comment, merge);
    prevLine', prevToken' := tok.line, tok.text;
  }

  /** The new comment object for one `#` token, on the token's row. */
  method NewTokenComment(tok: Token) returns (comment: PyComment)
    ensures fresh(comment) && comment.Data() == TokenComment(tok)
  {
    var commentText := ReplaceFirst(tok.text, "#", "");
    var lineNumber := tok.row;
    comment := new Comment(commentText, lineNumber, lineNumber);
  }

  /** The part of the body of the token loop that merges the token's comment and appends it. */
  method AppendTokenComment(comments: seq<PyComment>, current: PyComment, merge: bool)
    returns (comments': seq<PyComment>)
    requires current !in comments
    ensures Values(comments') == MergedAppend(Values(comments), current.Data(), merge)
    ensures Distinct(comments) ==> Distinct(comments')
    ensures forall c :: c in comments' ==> c in comments || c == current || fresh(c)
  {
    var rest, comment := comments, current;
    if merge {
      rest, comment := CombineConsecutiveComments(comments, current);
    }
    PrefixMembers(rest, comments);
    assert comment !in rest;
    if Distinct(comments) {
      DistinctAppend(comments, rest, comment);
    }
    ValuesAppend(rest, comment);
    comments' := rest + [comment];
  }

  /**
   * `parse_single_line_comments(file_contents, comments)` over the tokens of
   * `file_contents`: appends one comment per `#` token (merging runs of bare
   * comment lines) and returns the text with each comment token blanked.
   */
  method ParseSingleLineComments(fileContents: string, comments: seq<PyComment>, tokens: seq<Token>)
    returns (contents: string, result: seq<PyComment>)
    ensures contents == Scan(ScanStart(fileContents, Values(comments)), tokens).contents
    ensures Values(result) == Scan(ScanStart(fileContents, Values(comments)), tokens).comments
    ensures Distinct(comments) ==> Distinct(result)
    ensures forall c :: c in result ==> c in comments || fresh(c)
  {
    contents, result := fileContents, comments;
    var prevLine, prevToken := "", "-";
    ghost var start := ScanStart(fileContents, Values(comments));
    for i := 0 to |tokens|
      invariant Scan(start, tokens[..i]) == ScanState(contents, Values(result), prevLine, prevToken)
      invariant Distinct(comments) ==> Distinct(result)
      invariant forall c :: c in result ==> c in comments || fresh(c)
    {
      assert tokens[..i + 1][..i] == tokens[..i];
      if tokens[i].isComment {
        contents, result, prevLine, prevToken := ScanCommentToken(contents, result, prevLine, prevToken, tokens[i]);
      }
    }
    assert tokens[..|tokens|] == tokens;
  }

  /**
   * Each comment token adds one comment, or none net when it merges: the list
   * never grows by more than the number of comment tokens and never shrinks.
   */
  lemma {:induction false} ScanLength(st: ScanState, toks: seq<Token>)
    ensures |st.comments| <= |Scan(st, toks).comments| <= |st.comments| + CommentTokens(toks)
  {
    if toks != [] {
      ScanLength(st, toks[..|toks| - 1]);
    }
  }

  /**
   * The very first comment token never merges, because `prev_line` starts
   * empty: it is appended as a comment of its own.
   */
  lemma FirstTokenNeverMerges(contents: string, comments: seq<Data>, tok: Token)
    requires tok.isComment
    ensures ScanStep(ScanStart(contents, comments), tok).comments == comments + [TokenComment(tok)]
  {
    EmptyLineIsNotBare("-");
  }

  /**
   * A comment token leaves the list one longer, unless a merge was attempted
   * and the previous comment ends on the line before; then the last comment
   * is replaced by the joined one.
   */
  lemma ScanStepMerges(st: ScanState, tok: Token)
    requires tok.isComment
    ensures var after := ScanStep(st, tok).comments;
      if MergeAttempted(st, tok) && |st.comments| > 0 && tok.row == st.comments[|st.comments| - 1].endLine + 1 then
        var previous := st.comments[|st.comments| - 1];
        after == st.comments[..|st.comments| - 1]
                 + [CommentData(previous.text + " " + TokenComment(tok).text, previous.startLine, tok.row, false, [])]
      else
        after == st.comments + [TokenComment(tok)]
  {
  }

  /** Blanking comment tokens, which hold no newline, keeps every line where it was. */
  lemma {:induction false} ScanKeepsNewlines(st: ScanState, toks: seq<Token>)
    requires forall i :: 0 <= i < |toks| && toks[i].isComment ==> Count(toks[i].text, '\n') == 0
    ensures Count(Scan(st, toks).contents, '\n') == Count(st.contents, '\n')
  {
    if toks != [] {
      var last := toks[|toks| - 1];
      ScanKeepsNewlines(st, toks[..|toks| - 1]);
      if last.isComment {
        ReplaceFirstKeepsNewlines(Scan(st, toks[..|toks| - 1]).contents, last.text, " ");
      }
    }
  }

  /** A comment made from `#` tokens: single-line, no nodes yet, spanning at least one line. */
  predicate SingleLineRecord(c: Data)
  {
    !c.multiline && c.nodes == [] && c.startLine <= c.endLine
  }

  /** Every comment the loop makes, merged or not, is such a record. */
  lemma {:induction false} ScanMakesSingleLineRecords(st: ScanState, toks: seq<Token>)
    requires forall i :: 0 <= i < |st.comments| ==> SingleLineRecord(st.comments[i])
    ensures forall i :: 0 <= i < |Scan(st, toks).comments| ==> SingleLineRecord(Scan(st, toks).comments[i])
  {
    if toks != [] {
      ScanMakesSingleLineRecords(st, toks[..|toks| - 1]);
    }
  }

  // ---------------------------------------------------------------------
  // parse_multi_line_comments: line numbers of triple-quoted matches

  /**
   * The list `line` the loop over the matches of `.*\n` builds: the offset
   * just past every newline, in order.
   */
  function LineEnds(s: string): (ends: seq<nat>)
    ensures |ends| == Count(s, '\n')
  {
    if s == [] then []
    else LineEnds(s[..|s| - 1]) + (if s[|s| - 1] == '\n' then [|s|] else [])
  }

  /** Entry `k` of `line` is just past a newline, and the text up to it holds exactly `k + 1` newlines. */
  lemma {:induction false} LineEndAt(s: string, k: nat)
    requires k < Count(s, '\n')
    ensures var e := LineEnds(s)[k];
      0 < e <= |s| && s[e - 1] == '\n' && Count(s[..e], '\n') == k + 1
  {
    var init := s[..|s| - 1];
    var ends := LineEnds(init);
    if k < |ends| {
      LineEndAt(init, k);
      var e := ends[k];
      assert s[..e] == init[..e];
    } else {
      assert s[..|s|] == s;
    }
  }

  /** Collects `line`, one entry per newline. */
  method CollectLineEnds(fileContents: string) returns (line: seq<nat>)
    ensures line == LineEnds(fileContents)
  {
    line := [];
    for i := 0 to |fileContents|
      invariant line == LineEnds(fileContents[..i])
    {
      assert fileContents[..i + 1][..i] == fileContents[..i];
      if fileContents[i] == '\n' {
        line := line + [i + 1];
      }
    }
    assert fileContents[..|fileContents|] == fileContents;
  }

  /**
   * `next(i for i in range(len(line)) if line[i] > offset)`: the first index
   * whose line end lies past the offset; None where `next` raises StopIteration.
   */
  function FirstEndAfter(line: seq<nat>, offset: nat): (r: Option<nat>)
    ensures r.Some? ==> r.value < |line| && line[r.value] > offset
    ensures r.Some? ==> forall j :: 0 <= j < r.value ==> line[j] <= offset
    ensures r.None? ==> forall j :: 0 <= j < |line| ==> line[j] <= offset
  {
    if line == [] then None
    else if line[0] > offset then Some(0)
    else match FirstEndAfter(line[1..], offset)
      case None => None
      case Some(i) => Some(i + 1)
  }

  /** The start line as the source computes it; None where `next` raises StopIteration. */
  function StartLineAsWritten(line: seq<nat>, offset: nat): Option<int>
  {
    match FirstEndAfter(line, offset)
    case None => None
    case Some(i) => Some(i + 1)
  }

  /** The start line with `len(line)` as the default of `next`: a match on the last line. */
  function StartLine(line: seq<nat>, offset: nat): int
  {
    match FirstEndAfter(line, offset)
    case None => |line| + 1
    case Some(i) => i + 1
  }

  lemma CountSplit(s: string, i: nat, j: nat)
    requires i <= j <= |s|
    ensures Count(s[..j], '\n') == Count(s[..i], '\n') + Count(s[i..j], '\n')
  {
    assert s[..j] == s[..i] + s[i..j];
    CountConcat(s[..i], s[i..j], '\n');
  }

  lemma CountAtLeastOne(s: string, lo: nat, hi: nat, p: nat)
    requires lo <= p < hi <= |s| && s[p] == '\n'
    ensures Count(s[lo..hi], '\n') >= 1
  {
    var t := s[lo..hi];
    var q := p - lo;
    assert t[q] == '\n';
    assert t == t[..q] + [t[q]] + t[q + 1..];
    CountConcat(t[..q] + [t[q]], t[q + 1..], '\n');
    CountConcat(t[..q], [t[q]], '\n');
  }

  /** A newline's end lies at or before `offset` exactly when it is one of the newlines before `offset`. */
  lemma NewlineEndBeforeOffset(s: string, offset: nat, e: nat, k: nat)
    requires offset <= |s| && 0 < e <= |s| && s[e - 1] == '\n' && Count(s[..e], '\n') == k + 1
    ensures e <= offset <==> k < Count(s[..offset], '\n')
  {
    if e <= offset {
      CountSplit(s, e, offset);
    } else {
      CountSplit(s, offset, e);
      CountAtLeastOne(s, offset, e, e - 1);
    }
  }

  /** Exactly the first `Count(s[..offset], '\n')` line ends lie at or before `offset`. */
  lemma LineEndBeforeOffset(s: string, offset: nat, j: nat)
    requires offset <= |s| && j < Count(s, '\n')
    ensures LineEnds(s)[j] <= offset <==> j < Count(s[..offset], '\n')
  {
    LineEndAt(s, j);
    NewlineEndBeforeOffset(s, offset, LineEnds(s)[j], j);
  }

  /** The newlines at or after `offset` are the line ends past it. */
  lemma NewlinesAfter(s: string, offset: nat)
    requires offset <= |s|
    ensures Count(s, '\n') == Count(s[..offset], '\n') + Count(s[offset..], '\n')
  {
    CountSplit(s, offset, |s|);
    assert s[..|s|] == s;
    assert s[offset..|s|] == s[offset..];
  }

  /**
   * The line a match gets is the 1-based number of the line holding its first
   * character: one more than the newlines before it. The source's search finds
   * it only when a newline follows the match's start; otherwise `next` raises
   * StopIteration.
   */
  lemma StartLineIsLineOfOffset(s: string, offset: nat)
    requires offset <= |s|
    ensures StartLine(LineEnds(s), offset) == 1 + Count(s[..offset], '\n')
    ensures StartLineAsWritten(LineEnds(s), offset)
            == if Count(s[offset..], '\n') > 0 then Some(1 + Count(s[..offset], '\n')) else None
  {
    var c, after := Count(s[..offset], '\n'), Count(s[offset..], '\n');
    NewlinesAfter(s, offset);
    FirstEndAfterOffset(s, offset);
    StartLineFromFirstEnd(LineEnds(s), offset, c);
  }

  /** Both start lines, given which line end is the first past `offset`. */
  lemma StartLineFromFirstEnd(ends: seq<nat>, offset: nat, c: nat)
    requires c <= |ends|
    requires FirstEndAfter(ends, offset) == if c < |ends| then Some(c) else None
    ensures StartLine(ends, offset) == 1 + c
    ensures StartLineAsWritten(ends, offset) == if c < |ends| then Some(1 + c) else None
  {
  }

  /** The first line end past `offset` is line end number `Count(s[..offset], '\n')`, if the file has that many. */
  lemma FirstEndAfterOffset(s: string, offset: nat)
    requires offset <= |s| && Count(s[..offset], '\n') <= Count(s, '\n')
    ensures FirstEndAfter(LineEnds(s), offset)
            == if Count(s[..offset], '\n') < Count(s, '\n') then Some(Count(s[..offset], '\n')) else None
  {
    var ends := LineEnds(s);
    var c := Count(s[..offset], '\n');
    match FirstEndAfter(ends, offset)
    case None =>
      if c < |ends| {
        LineEndBeforeOffset(s, offset, c);
        assert false;
      }
    case Some(i) =>
      LineEndBeforeOffset(s, offset, i);
      assert c <= i;
      if c < i {
        LineEndBeforeOffset(s, offset, c);
        assert false;
      }
  }

  /**
   * A file that is one docstring line with no final newline: the source's
   * search finds no line end past the match and `next` raises StopIteration,
   * while the match is on line 1.
   */
  lemma StopIterationOnLastLine()
    ensures StartLineAsWritten(LineEnds("\"\"\"doc\"\"\""), 0) == None
    ensures StartLine(LineEnds("\"\"\"doc\"\"\""), 0) == 1
  {
    var s := "\"\"\"doc\"\"\"";
    assert s[..0] == [];
    assert s[0..] == s;
    NoNewlineCount(s);
    StartLineIsLineOfOffset(s, 0);
  }

  /** A match of a triple-quote pattern: its start and end offsets in the searched text. */
  datatype Match = Match(start: nat, end: nat)

  predicate MatchIn(s: string, m: Match)
  {
    m.start <= m.end <= |s|
  }

  predicate MatchesIn(s: string, ms: seq<Match>)
  {
    forall i :: 0 <= i < |ms| ==> MatchIn(s, ms[i])
  }

  const DoubleQuotes: string := "\"\"\""
  const SingleQuotes: string := "'''"

  /**
   * The comment one match makes: every `quotes` removed from the matched text,
   * which is then stripped; the start line from `line`, the end line that plus
   * the newlines of the match; multiline.
   */
  function DocstringComment(s: string, line: seq<nat>, m: Match, quotes: string): Data
    requires MatchIn(s, m) && quotes != []
  {
    var text := s[m.start..m.end];
    var startLine := StartLine(line, m.start);
    CommentData(Strip(ReplaceAll(text, quotes, "")), startLine, startLine + Count(text, '\n'), true, [])
  }

  /** `vs` with the comment of each match appended, in match order. */
  function AddDocstrings(vs: seq<Data>, s: string, line: seq<nat>, ms: seq<Match>, quotes: string): (r: seq<Data>)
    requires MatchesIn(s, ms) && quotes != []
    ensures |r| == |vs| + |ms|
    decreases |ms|
  {
    if ms == [] then vs
    else AddDocstrings(vs + [DocstringComment(s, line, ms[0], quotes)], s, line, ms[1..], quotes)
  }

  /** The list keeps its prefix and gains the comment of match `i` at position `|vs| + i`. */
  lemma {:induction false} AddDocstringsAt(vs: seq<Data>, s: string, line: seq<nat>, ms: seq<Match>, quotes: string)
    requires MatchesIn(s, ms) && quotes != []
    ensures AddDocstrings(vs, s, line, ms, quotes)[..|vs|] == vs
    ensures forall i :: 0 <= i < |ms| ==>
              AddDocstrings(vs, s, line, ms, quotes)[|vs| + i] == DocstringComment(s, line, ms[i], quotes)
    decreases |ms|
  {
    if ms != [] {
      var vs' := vs + [DocstringComment(s, line, ms[0], quotes)];
      AddDocstringsAt(vs', s, line, ms[1..], quotes);
      var r := AddDocstrings(vs, s, line, ms, quotes);
      assert r[..|vs'|] == vs';
      assert r[..|vs|] == vs'[..|vs|];
      forall i | 0 <= i < |ms|
        ensures r[|vs| + i] == DocstringComment(s, line, ms[i], quotes)
      {
        if i > 0 {
          assert ms[1..][i - 1] == ms[i];
          assert r[|vs'| + (i - 1)] == DocstringComment(s, line, ms[1..][i - 1], quotes);
        } else {
          assert r[|vs|] == r[..|vs'|][|vs|];
        }
      }
    }
  }

  lemma AddDocstringsStep(vs: seq<Data>, s: string, line: seq<nat>, ms: seq<Match>, quotes: string, i: nat)
    requires MatchesIn(s, ms) && quotes != [] && i < |ms|
    ensures AddDocstrings(vs, s, line, ms[i..], quotes)
            == AddDocstrings(vs + [DocstringComment(s, line, ms[i], quotes)], s, line, ms[i + 1..], quotes)
  {
    assert ms[i..][1..] == ms[i + 1..];
  }

  /**
   * A block comment starts on the line holding the match's first character and
   * ends on the line holding its last; it spans at least as many lines as its
   * stripped text has newlines.
   */
  lemma DocstringLines(s: string, m: Match, quotes: string)
    requires MatchIn(s, m) && quotes != []
    ensures var c := DocstringComment(s, LineEnds(s), m, quotes);
      c.multiline && c.nodes == []
      && c.startLine == 1 + Count(s[..m.start], '\n')
      && c.endLine == 1 + Count(s[..m.end], '\n')
      && c.endLine - c.startLine >= Count(c.text, '\n')
  {
    var text := s[m.start..m.end];
    StartLineIsLineOfOffset(s, m.start);
    CountSplit(s, m.start, m.end);
    RemoveAllCount(text, quotes, '\n');
    StripCount(ReplaceAll(text, quotes, ""), '\n');
  }

  /** The body of each match loop: appends the comment for one match. */
  method AppendDocstring(fileContents: string, line: seq<nat>, comments: seq<PyComment>, m: Match, quotes: string)
    returns (result: seq<PyComment>)
    requires MatchIn(fileContents, m) && quotes != []
    ensures Values(result) == Values(comments) + [DocstringComment(fileContents, line, m, quotes)]
    ensures Distinct(comments) ==> Distinct(result)
    ensures forall c :: c in result ==> c in comments || fresh(c)
  {
    var startLine := StartLine(line, m.start);
    var text := fileContents[m.start..m.end];
    var endLine := startLine + Count(text, '\n');
    var comment := new Comment(Strip(ReplaceAll(text, quotes, "")), startLine, endLine, true);
    if Distinct(comments) {
      DistinctAppend(comments, comments, comment);
    }
    ValuesAppend(comments, comment);
    result := comments + [comment];
  }

  /** Appends one comment per match, in match order. */
  method AppendDocstrings(fileContents: string, line: seq<nat>, comments: seq<PyComment>, ms: seq<Match>, quotes: string)
    returns (result: seq<PyComment>)
    requires MatchesIn(fileContents, ms) && quotes != []
    ensures Values(result) == AddDocstrings(Values(comments), fileContents, line, ms, quotes)
    ensures Distinct(comments) ==> Distinct(result)
    ensures forall c :: c in result ==> c in comments || fresh(c)
  {
    result := comments;
    ghost var target := AddDocstrings(Values(comments), fileContents, line, ms, quotes);
    for i := 0 to |ms|
      invariant AddDocstrings(Values(result), fileContents, line, ms[i..], quotes) == target
      invariant Distinct(comments) ==> Distinct(result)
      invariant forall c :: c in result ==> c in comments || fresh(c)
    {
      AddDocstringsStep(Values(result), fileContents, line, ms, quotes, i);
      result := AppendDocstring(fileContents, line, result, ms[i], quotes);
    }
  }

  /** The comment list after `parse_multi_line_comments`: the double-quoted docstrings, then the single-quoted ones. */
  function MultiLineComments(vs: seq<Data>, s: string, doubleQuoted: seq<Match>, singleQuoted: seq<Match>): seq<Data>
    requires MatchesIn(s, doubleQuoted) && MatchesIn(s, singleQuoted)
  {
    var line := LineEnds(s);
    AddDocstrings(AddDocstrings(vs, s, line, doubleQuoted, DoubleQuotes), s, line, singleQuoted, SingleQuotes)
  }

  /**
   * `parse_multi_line_comments(file_contents, comments)` over the matches of
   * the triple-double-quote and then the triple-single-quote pattern: one
   * multiline comment per match, appended in that order.
   */
  method ParseMultiLineComments(fileContents: string, comments: seq<PyComment>,
                                doubleQuoted: seq<Match>, singleQuoted: seq<Match>)
    returns (result: seq<PyComment>)
    requires MatchesIn(fileContents, doubleQuoted)
    requires MatchesIn(fileContents, singleQuoted)
    ensures Values(result) == MultiLineComments(Values(comments), fileContents, doubleQuoted, singleQuoted)
    ensures Distinct(comments) ==> Distinct(result)
    ensures forall c :: c in result ==> c in comments || fresh(c)
  {
    var line := CollectLineEnds(fileContents);
    var withDouble := AppendDocstrings(fileContents, line, comments, doubleQuoted, DoubleQuotes);
    result := AppendDocstrings(fileContents, line, withDouble, singleQuoted, SingleQuotes);
  }

  // ---------------------------------------------------------------------
  // extract_comments: `comments.sort(key=lambda x: x.start_line())`

  /** Each comment paired with its start line, the sort key. */
  function Keyed(cs: seq<PyComment>): (r: seq<(int, PyComment)>)
    reads cs
    ensures |r| == |cs|
    ensures forall i :: 0 <= i < |cs| ==> r[i] == (cs[i].startLine, cs[i])
  {
    if cs == [] then [] else Keyed(cs[..|cs| - 1]) + [(cs[|cs| - 1].startLine, cs[|cs| - 1])]
  }

  /** The list sorted by start line, comments with equal start lines keeping their order. */
  function SortByStartLine(cs: seq<PyComment>): seq<PyComment>
    reads cs
  {
    StableSort.Elements(StableSort.Sort(Keyed(cs)))
  }

  /** Each comment's field values paired with its start line. */
  function KeyedData(vs: seq<Data>): (r: seq<(int, Data)>)
    ensures |r| == |vs|
    ensures forall i :: 0 <= i < |vs| ==> r[i] == (vs[i].startLine, vs[i])
  {
    if vs == [] then [] else KeyedData(vs[..|vs| - 1]) + [(vs[|vs| - 1].startLine, vs[|vs| - 1])]
  }

  /** The same sort on field values. */
  function SortData(vs: seq<Data>): seq<Data>
  {
    StableSort.Elements(StableSort.Sort(KeyedData(vs)))
  }

  /** A pair list whose every pair holds its element's key. */
  predicate KeysAreStartLines(xs: seq<(int, PyComment)>)
    reads set i | 0 <= i < |xs| :: xs[i].1
  {
    forall i :: 0 <= i < |xs| ==> xs[i].0 == xs[i].1.startLine
  }

  lemma KeyedIsKeyed(cs: seq<PyComment>)
    ensures KeysAreStartLines(Keyed(cs))
    ensures StableSort.Elements(Keyed(cs)) == cs
  {
  }

  /** A reordering of a correctly keyed list is correctly keyed. */
  lemma KeysSurvivePermutation(xs: seq<(int, PyComment)>, ys: seq<(int, PyComment)>)
    requires KeysAreStartLines(xs) && multiset(xs) == multiset(ys)
    ensures KeysAreStartLines(ys)
  {
    forall i | 0 <= i < |ys| ensures ys[i].0 == ys[i].1.startLine {
      assert ys[i] in multiset(xs);
      var j :| 0 <= j < |xs| && xs[j] == ys[i];
    }
  }

  lemma {:induction false} KeyedOfElements(xs: seq<(int, PyComment)>)
    requires KeysAreStartLines(xs)
    ensures Keyed(StableSort.Elements(xs)) == xs
  {
  }

  /**
   * The stable sort: the result is a reordering of the list, ordered by start
   * line, and the comments sharing a start line keep their relative order.
   */
  lemma SortByStartLineFacts(cs: seq<PyComment>)
    ensures var r := SortByStartLine(cs);
      && multiset(r) == multiset(cs)
      && (forall c :: c in r <==> c in cs)
      && (forall i, j :: 0 <= i < j < |r| ==> r[i].startLine <= r[j].startLine)
      && (forall k :: StableSort.WithKey(Keyed(r), k) == StableSort.WithKey(Keyed(cs), k))
      && (Distinct(cs) ==> Distinct(r))
  {
    var s := StableSort.Sort(Keyed(cs));
    StableSort.SortFacts(Keyed(cs));
    KeyedIsKeyed(cs);
    KeysSurvivePermutation(Keyed(cs), s);
    KeyedOfElements(s);
    var r := StableSort.Elements(s);
    assert Keyed(r) == s;
    forall i, j | 0 <= i < j < |r| ensures r[i].startLine <= r[j].startLine {
      assert s[i].0 <= s[j].0;
    }
    if Distinct(cs) {
      DistinctPermutation(cs, r);
    }
    forall c ensures c in r <==> c in cs {
      assert c in r <==> c in multiset(r);
    }
  }

  /** The pairs with each comment replaced by its field values. */
  function DataPairs(xs: seq<(int, PyComment)>): (r: seq<(int, Data)>)
    reads set i | 0 <= i < |xs| :: xs[i].1
    ensures |r| == |xs|
    ensures forall i :: 0 <= i < |xs| ==> r[i] == (xs[i].0, xs[i].1.Data())
  {
    if xs == [] then [] else DataPairs(xs[..|xs| - 1]) + [(xs[|xs| - 1].0, xs[|xs| - 1].1.Data())]
  }

  lemma {:induction false} InsertDataPairs(xs: seq<(int, PyComment)>, x: (int, PyComment))
    ensures DataPairs(StableSort.Insert(xs, x)) == StableSort.Insert(DataPairs(xs), (x.0, x.1.Data()))
  {
    if !(xs == [] || xs[|xs| - 1].0 <= x.0) {
      var init := xs[..|xs| - 1];
      InsertDataPairs(init, x);
      assert DataPairs(xs)[..|xs| - 1] == DataPairs(init);
    }
  }

  lemma {:induction false} SortDataPairs(xs: seq<(int, PyComment)>)
    ensures DataPairs(StableSort.Sort(xs)) == StableSort.Sort(DataPairs(xs))
  {
    if xs != [] {
      var init := xs[..|xs| - 1];
      SortDataPairs(init);
      InsertDataPairs(StableSort.Sort(init), xs[|xs| - 1]);
      assert DataPairs(xs)[..|xs| - 1] == DataPairs(init);
    }
  }

  /** Sorting the comments and then reading their fields is sorting their field values. */
  lemma ValuesOfSort(cs: seq<PyComment>)
    ensures Values(SortByStartLine(cs)) == SortData(Values(cs))
  {
    var s := StableSort.Sort(Keyed(cs));
    assert DataPairs(Keyed(cs)) == KeyedData(Values(cs));
    SortDataPairs(Keyed(cs));
    assert Values(StableSort.Elements(s)) == StableSort.Elements(DataPairs(s));
  }

  // ---------------------------------------------------------------------
  // tag_comments

  /** `getattr(node, name)` for a field of the node, if it has one by that name. */
  function FieldNamed(fs: seq<Field>, name: string): (r: Option<FieldValue>)
    ensures r.Some? <==> exists i :: 0 <= i < |fs| && fs[i].name == name
    ensures r.Some? ==> exists i :: 0 <= i < |fs| && fs[i] == Field(name, r.value)
  {
    if fs == [] then None
    else if fs[0].name == name then Some(fs[0].value)
    else
      var r := FieldNamed(fs[1..], name);
      assert forall i :: 1 <= i < |fs| ==> fs[i] == fs[1..][i - 1];
      r
  }

  /** A node the first pass looks at: it has a `lineno` and its `body` is a list. */
  predicate HasBlockBody(n: PyNode)
  {
    n.lineno.Some? && match FieldNamed(n.fields, "body")
      case Some(ListValue(_)) => true
      case _ => false
  }

  /**
   * `node.body[0].lineno` exists for such a node: the first item of the body
   * list is a node with a line number (Python's grammar has no empty blocks).
   */
  predicate BodyWellFormed(n: PyNode)
  {
    HasBlockBody(n) ==>
      var items := FieldNamed(n.fields, "body").value.items;
      |items| > 0 && items[0].NodeItem? && items[0].node.lineno.Some?
  }

  predicate WalkWellFormed(walk: seq<PyNode>)
  {
    forall i :: 0 <= i < |walk| ==> BodyWellFormed(walk[i])
  }

  /** The line of the first statement of the block. */
  function BodyStart(n: PyNode): int
    requires HasBlockBody(n) && BodyWellFormed(n)
  {
    FieldNamed(n.fields, "body").value.items[0].node.lineno.value
  }

  /**
   * The comment starts inside the header of the block `n` opens: after the
   * block's first line and before the line of its first statement, or on
   * that line for a block comment.
   */
  predicate InBlockHeader(n: PyNode, startLine: int, multiline: bool)
    requires BodyWellFormed(n)
  {
    HasBlockBody(n) && n.lineno.value < startLine
    && (if multiline then startLine <= BodyStart(n) else startLine < BodyStart(n))
  }

  /** What the first pass appends to a comment: every block it opens, in walk order. */
  function BlockEntries(walk: seq<PyNode>, startLine: int, multiline: bool): (r: seq<(PyNode, string)>)
    requires WalkWellFormed(walk)
  {
    if walk == [] then []
    else
      var n := walk[|walk| - 1];
      BlockEntries(walk[..|walk| - 1], startLine, multiline)
        + (if InBlockHeader(n, startLine, multiline) then [(n, n.excerpt)] else [])
  }

  /** The first pass tags a comment with exactly the walked nodes whose block header holds it. */
  lemma {:induction false} BlockEntriesAre(walk: seq<PyNode>, startLine: int, multiline: bool)
    requires WalkWellFormed(walk)
    ensures forall e :: e in BlockEntries(walk, startLine, multiline) ==>
              e.0 in walk && InBlockHeader(e.0, startLine, multiline) && e.1 == e.0.excerpt
    ensures forall i :: 0 <= i < |walk| && InBlockHeader(walk[i], startLine, multiline) ==>
              (walk[i], walk[i].excerpt) in BlockEntries(walk, startLine, multiline)
  {
    if walk != [] {
      var init := walk[..|walk| - 1];
      BlockEntriesAre(init, startLine, multiline);
      forall i | 0 <= i < |walk| - 1 ensures walk[i] == init[i] { }
    }
  }

  /**
   * `isinstance(node, ast.Expr) and isinstance(node.value, ast.Str)`: a bare
   * string statement. The value's kind "Str" stands for any string constant.
   */
  predicate IsStringExpr(n: PyNode)
  {
    n.kind == "Expr" && match FieldNamed(n.fields, "value")
      case Some(NodeValue(v)) => v.kind == "Str"
      case _ => false
  }

  /**
   * What the second pass appends: the first node on the comment's last line
   * unless there is none or it is a bare string, else the first node on the
   * next line, if any.
   */
  function NearbyEntry(root: PyNode, endLine: int): seq<(PyNode, string)>
  {
    var here := FirstAt(root, endLine);
    if here.Some? && !IsStringExpr(here.value) then [(here.value, here.value.excerpt)]
    else
      match FirstAt(root, endLine + 1)
      case Some(m) => [(m, m.excerpt)]
      case None => []
  }

  /**
   * The second pass tags a comment with at most one node: code on its last
   * line that is not a bare string, or else code on the next line; it tags
   * nothing only when the next line has no node.
   */
  lemma NearbyEntryRule(root: PyNode, endLine: int)
    ensures |NearbyEntry(root, endLine)| <= 1
    ensures forall e :: e in NearbyEntry(root, endLine) ==>
              e.0 in PreOrder(root) && e.1 == e.0.excerpt
              && ((e.0.lineno == Some(endLine) && !IsStringExpr(e.0)) || e.0.lineno == Some(endLine + 1))
    ensures NearbyEntry(root, endLine) == [] <==>
              (FirstAt(root, endLine).None? || IsStringExpr(FirstAt(root, endLine).value))
              && forall n :: n in PreOrder(root) ==> n.lineno != Some(endLine + 1)
    ensures FirstAt(root, endLine).Some? && !IsStringExpr(FirstAt(root, endLine).value) ==>
              NearbyEntry(root, endLine) == [(FirstAt(root, endLine).value, FirstAt(root, endLine).value.excerpt)]
  {
  }

  /** A comment's field values once both passes have run. */
  function Tagged(c: Data, root: PyNode, walk: seq<PyNode>): Data
    requires WalkWellFormed(walk)
  {
    c.(nodes := c.nodes + BlockEntries(walk, c.startLine, c.multiline) + NearbyEntry(root, c.endLine))
  }

  function TagAll(vs: seq<Data>, root: PyNode, walk: seq<PyNode>): (r: seq<Data>)
    requires WalkWellFormed(walk)
    ensures |r| == |vs|
  {
    if vs == [] then [] else TagAll(vs[..|vs| - 1], root, walk) + [Tagged(vs[|vs| - 1], root, walk)]
  }

  /** `TagAll` tags each comment on its own, in place in the list. */
  lemma {:induction false} TagAllAt(vs: seq<Data>, root: PyNode, walk: seq<PyNode>)
    requires WalkWellFormed(walk)
    ensures forall i :: 0 <= i < |vs| ==> TagAll(vs, root, walk)[i] == Tagged(vs[i], root, walk)
  {
    if vs != [] {
      var init, last := vs[..|vs| - 1], vs[|vs| - 1];
      TagAllAt(init, root, walk);
      var tagged := TagAll(init, root, walk);
      assert TagAll(vs, root, walk) == tagged + [Tagged(last, root, walk)];
      forall i | 0 <= i < |vs| ensures TagAll(vs, root, walk)[i] == Tagged(vs[i], root, walk) {
        if i < |init| {
          assert vs[i] == init[i] && tagged[i] == Tagged(init[i], root, walk);
        }
      }
    }
  }

  /** `ast_visitor.Visitor(ast_tokens).get_node_at_line(root, line)` on a fresh visitor. */
  method NodeAtLine(root: PyNode, line: int) returns (r: Option<PyNode>)
    ensures r == FirstAt(root, line)
  {
    var visitor := new Visitor();
    r := visitor.GetNodeAtLine(root, line);
    FirstMatchWins(None, root, line);
  }

  /** The inner loop of the first pass, for one walked node: tag every comment in its block header. */
  method TagBlockHeader(node: PyNode, comments: seq<PyComment>)
    requires Distinct(comments) && BodyWellFormed(node)
    modifies set c | c in comments
    ensures forall k :: 0 <= k < |comments| ==>
              comments[k].Data() == old(comments[k].Data()).(nodes := old(comments[k].nodeList)
                + if InBlockHeader(node, comments[k].startLine, comments[k].multiline) then [(node, node.excerpt)] else [])
  {
    for j := 0 to |comments|
      invariant forall k :: 0 <= k < |comments| ==> comments[k].startLine == old(comments[k].startLine)
      invariant forall k :: 0 <= k < |comments| ==> comments[k].multiline == old(comments[k].multiline)
      invariant forall k :: j <= k < |comments| ==> comments[k].Data() == old(comments[k].Data())
      invariant forall k :: 0 <= k < j ==>
                  comments[k].Data() == old(comments[k].Data()).(nodes := old(comments[k].nodeList)
                    + if InBlockHeader(node, comments[k].startLine, comments[k].multiline) then [(node, node.excerpt)] else [])
    {
      var comment := comments[j];
      if InBlockHeader(node, comment.StartLine(), comment.IsMultiline()) {
        comment.AppendNode((node, node.excerpt));
      }
    }
  }

  /** The first pass: for every walked node with a block body, tag the comments in its header. */
  method TagBlockHeaders(walk: seq<PyNode>, comments: seq<PyComment>)
    requires Distinct(comments) && WalkWellFormed(walk)
    modifies set c | c in comments
    ensures forall k :: 0 <= k < |comments| ==>
              comments[k].Data() == old(comments[k].Data()).(nodes := old(comments[k].nodeList)
                + BlockEntries(walk, comments[k].startLine, comments[k].multiline))
  {
    for i := 0 to |walk|
      invariant forall k :: 0 <= k < |comments| ==>
                  comments[k].Data() == old(comments[k].Data()).(nodes := old(comments[k].nodeList)
                    + BlockEntries(walk[..i], comments[k].startLine, comments[k].multiline))
    {
      assert walk[..i + 1][..i] == walk[..i];
      var node := walk[i];
      if HasBlockBody(node) {
        TagBlockHeader(node, comments);
      }
    }
    assert walk[..|walk|] == walk;
  }

  /** The body of the second pass for one comment. */
  method TagWithNearbyCode(root: PyNode, comment: PyComment)
    modifies comment
    ensures comment.Data() == old(comment.Data()).(nodes := old(comment.nodeList) + NearbyEntry(root, comment.endLine))
  {
    var currentLine := comment.EndLine();
    var nextLine := comment.EndLine() + 1;
    var node := NodeAtLine(root, currentLine);
    if node.Some? && !IsStringExpr(node.value) {
      comment.AppendNode((node.value, node.value.excerpt));
    } else {
      node := NodeAtLine(root, nextLine);
      if node.Some? {
        comment.AppendNode((node.value, node.value.excerpt));
      }
    }
  }

  /** The second pass: tag every comment with the code on its last line, or on the next. */
  method TagNearbyCode(root: PyNode, comments: seq<PyComment>)
    requires Distinct(comments)
    modifies set c | c in comments
    ensures forall k :: 0 <= k < |comments| ==>
              comments[k].Data() == old(comments[k].Data()).(nodes := old(comments[k].nodeList)
                + NearbyEntry(root, comments[k].endLine))
  {
    for j := 0 to |comments|
      invariant forall k :: j <= k < |comments| ==> comments[k].Data() == old(comments[k].Data())
      invariant forall k :: 0 <= k < j ==>
                  comments[k].Data() == old(comments[k].Data()).(nodes := old(comments[k].nodeList)
                    + NearbyEntry(root, comments[k].endLine))
    {
      TagWithNearbyCode(root, comments[j]);
    }
  }

  /** `tag_comments(file_content, comments)`: both passes, each comment tagged independently of the others. */
  method TagComments(root: PyNode, walk: seq<PyNode>, comments: seq<PyComment>)
    requires Distinct(comments) && WalkWellFormed(walk)
    modifies set c | c in comments
    ensures forall k :: 0 <= k < |comments| ==> comments[k].Data() == Tagged(old(comments[k].Data()), root, walk)
  {
    TagBlockHeaders(walk, comments);
    TagNearbyCode(root, comments);
  }

  // ---------------------------------------------------------------------
  // extract_comments

  /** The text both regular-expression passes and the tagging pass see: the file with its `#` comments blanked. */
  function BlankedContents(fileContents: string, tokens: seq<Token>): string
  {
    Scan(ScanStart(fileContents, []), tokens).contents
  }

  /**
   * What `extract_comments` returns, as field values: the `#` comments, then
   * the block comments of the blanked text, stably sorted by start line, each
   * tagged by both passes.
   */
  function Extracted(fileContents: string, tokens: seq<Token>, doubleQuoted: seq<Match>, singleQuoted: seq<Match>,
                     root: PyNode, walk: seq<PyNode>): seq<Data>
    requires MatchesIn(BlankedContents(fileContents, tokens), doubleQuoted)
    requires MatchesIn(BlankedContents(fileContents, tokens), singleQuoted)
    requires WalkWellFormed(walk)
  {
    TagAll(SortData(Parsed(fileContents, tokens, doubleQuoted, singleQuoted)), root, walk)
  }

  /** The comments both parsing passes find, in the order they append them. */
  function Parsed(fileContents: string, tokens: seq<Token>, doubleQuoted: seq<Match>, singleQuoted: seq<Match>): seq<Data>
    requires MatchesIn(BlankedContents(fileContents, tokens), doubleQuoted)
    requires MatchesIn(BlankedContents(fileContents, tokens), singleQuoted)
  {
    var scanned := Scan(ScanStart(fileContents, []), tokens);
    MultiLineComments(scanned.comments, scanned.contents, doubleQuoted, singleQuoted)
  }

  /** Both parsing passes of `extract_comments`, into a new list. */
  method ParseComments(fileContents: string, tokens: seq<Token>, doubleQuoted: seq<Match>, singleQuoted: seq<Match>)
    returns (comments: seq<PyComment>)
    requires MatchesIn(BlankedContents(fileContents, tokens), doubleQuoted)
    requires MatchesIn(BlankedContents(fileContents, tokens), singleQuoted)
    ensures Values(comments) == Parsed(fileContents, tokens, doubleQuoted, singleQuoted)
    ensures Distinct(comments)
    ensures forall c :: c in comments ==> fresh(c)
  {
    var none: seq<PyComment> := [];
    var contents, single := ParseSingleLineComments(fileContents, none, tokens);
    comments := ParseMultiLineComments(contents, single, doubleQuoted, singleQuoted);
  }

  /** `comments.sort(key=lambda x: x.start_line())`, as the library call behaves. */
  method SortComments(comments: seq<PyComment>) returns (sorted: seq<PyComment>)
    ensures Values(sorted) == SortData(Values(comments))
    ensures forall c :: c in sorted <==> c in comments
    ensures Distinct(comments) ==> Distinct(sorted)
  {
    sorted := SortByStartLine(comments);
    SortByStartLineFacts(comments);
    ValuesOfSort(comments);
  }

  /**
   * `extract_comments(filename)` once the file is read: `tokens` are its
   * tokens, `doubleQuoted` and `singleQuoted` the matches of the two
   * triple-quote patterns in the blanked text, `root` its syntax tree and
   * `walk` the order in which `ast.walk` yields the tree's nodes.
   */
  method ExtractComments(fileContents: string, tokens: seq<Token>, doubleQuoted: seq<Match>, singleQuoted: seq<Match>,
                         root: PyNode, walk: seq<PyNode>)
    returns (comments: seq<PyComment>)
    requires MatchesIn(BlankedContents(fileContents, tokens), doubleQuoted)
    requires MatchesIn(BlankedContents(fileContents, tokens), singleQuoted)
    requires WalkWellFormed(walk)
    ensures Values(comments) == Extracted(fileContents, tokens, doubleQuoted, singleQuoted, root, walk)
    ensures fresh(set c | c in comments)
  {
    var parsed := ParseComments(fileContents, tokens, doubleQuoted, singleQuoted);
    comments := SortComments(parsed);
    ghost var sortedValues := Values(comments);
    TagComments(root, walk, comments);
    TagAllAt(sortedValues, root, walk);
    assert Values(comments) == TagAll(sortedValues, root, walk);
  }

  predicate DataKeysAreStartLines(xs: seq<(int, Data)>)
  {
    forall i :: 0 <= i < |xs| ==> xs[i].0 == xs[i].1.startLine
  }

  lemma KeyedDataIsKeyed(vs: seq<Data>)
    ensures DataKeysAreStartLines(KeyedData(vs))
    ensures StableSort.Elements(KeyedData(vs)) == vs
  {
  }

  lemma DataKeysSurvivePermutation(xs: seq<(int, Data)>, ys: seq<(int, Data)>)
    requires DataKeysAreStartLines(xs) && multiset(xs) == multiset(ys)
    ensures DataKeysAreStartLines(ys)
  {
    forall i | 0 <= i < |ys| ensures ys[i].0 == ys[i].1.startLine {
      assert ys[i] in multiset(xs);
      var j :| 0 <= j < |xs| && xs[j] == ys[i];
    }
  }

  lemma {:induction false} KeyedDataOfElements(xs: seq<(int, Data)>)
    requires DataKeysAreStartLines(xs)
    ensures KeyedData(StableSort.Elements(xs)) == xs
  {
  }

  /** The data-level sort: a reordering, ordered by start line, and stable. */
  lemma SortDataFacts(vs: seq<Data>)
    ensures var r := SortData(vs);
      && multiset(r) == multiset(vs)
      && (forall i, j :: 0 <= i < j < |r| ==> r[i].startLine <= r[j].startLine)
      && (forall k :: StableSort.WithKey(KeyedData(r), k) == StableSort.WithKey(KeyedData(vs), k))
  {
    var s := StableSort.Sort(KeyedData(vs));
    StableSort.SortFacts(KeyedData(vs));
    KeyedDataIsKeyed(vs);
    DataKeysSurvivePermutation(KeyedData(vs), s);
    KeyedDataOfElements(s);
    var r := StableSort.Elements(s);
    forall i, j | 0 <= i < j < |r| ensures r[i].startLine <= r[j].startLine {
      assert s[i].0 <= s[j].0;
    }
  }

  /** A comment spans its lines forwards: it never ends before it starts. */
  predicate Spanned(c: Data)
  {
    c.startLine <= c.endLine
  }

  lemma {:induction false} AddDocstringsSpanned(vs: seq<Data>, s: string, line: seq<nat>, ms: seq<Match>, quotes: string)
    requires MatchesIn(s, ms) && quotes != []
    requires forall i :: 0 <= i < |vs| ==> Spanned(vs[i])
    ensures forall i :: 0 <= i < |AddDocstrings(vs, s, line, ms, quotes)| ==> Spanned(AddDocstrings(vs, s, line, ms, quotes)[i])
    decreases |ms|
  {
    if ms != [] {
      AddDocstringsSpanned(vs + [DocstringComment(s, line, ms[0], quotes)], s, line, ms[1..], quotes);
    }
  }

  /**
   * The list `extract_comments` returns: ordered by start line, every
   * comment spanning forwards, one comment per triple-quote match plus at
   * most one per comment token (runs of bare `#` lines share one).
   */
  lemma ExtractedFacts(fileContents: string, tokens: seq<Token>, doubleQuoted: seq<Match>, singleQuoted: seq<Match>,
                       root: PyNode, walk: seq<PyNode>)
    requires MatchesIn(BlankedContents(fileContents, tokens), doubleQuoted)
    requires MatchesIn(BlankedContents(fileContents, tokens), singleQuoted)
    requires WalkWellFormed(walk)
    ensures var r := Extracted(fileContents, tokens, doubleQuoted, singleQuoted, root, walk);
      && (forall i, j :: 0 <= i < j < |r| ==> r[i].startLine <= r[j].startLine)
      && (forall i :: 0 <= i < |r| ==> Spanned(r[i]))
      && |doubleQuoted| + |singleQuoted| <= |r| <= |doubleQuoted| + |singleQuoted| + CommentTokens(tokens)
  {
    var parsed := Parsed(fileContents, tokens, doubleQuoted, singleQuoted);
    ParsedFacts(fileContents, tokens, doubleQuoted, singleQuoted);
    var sorted := SortData(parsed);
    SortedSpanned(parsed);
    TagAllAt(sorted, root, walk);
  }

  /** Sorting keeps the number of comments and keeps every one spanning forwards. */
  lemma SortedSpanned(parsed: seq<Data>)
    requires forall i :: 0 <= i < |parsed| ==> Spanned(parsed[i])
    ensures var sorted := SortData(parsed);
      && |sorted| == |parsed|
      && (forall i, j :: 0 <= i < j < |sorted| ==> sorted[i].startLine <= sorted[j].startLine)
      && (forall i :: 0 <= i < |sorted| ==> Spanned(sorted[i]))
  {
    var sorted := SortData(parsed);
    SortDataFacts(parsed);
    assert |sorted| == |parsed| by {
      assert |multiset(sorted)| == |multiset(parsed)|;
    }
    forall i | 0 <= i < |sorted| ensures Spanned(sorted[i]) {
      assert sorted[i] in multiset(parsed);
    }
  }

  /** Both parsing passes produce forward-spanning comments: one per match, at most one per token. */
  lemma ParsedFacts(fileContents: string, tokens: seq<Token>, doubleQuoted: seq<Match>, singleQuoted: seq<Match>)
    requires MatchesIn(BlankedContents(fileContents, tokens), doubleQuoted)
    requires MatchesIn(BlankedContents(fileContents, tokens), singleQuoted)
    ensures var parsed := Parsed(fileContents, tokens, doubleQuoted, singleQuoted);
      && (forall i :: 0 <= i < |parsed| ==> Spanned(parsed[i]))
      && |doubleQuoted| + |singleQuoted| <= |parsed| <= |doubleQuoted| + |singleQuoted| + CommentTokens(tokens)
  {
    var st := ScanStart(fileContents, []);
    var scanned := Scan(st, tokens);
    var line := LineEnds(scanned.contents);
    var parsed := MultiLineComments(scanned.comments, scanned.contents, doubleQuoted, singleQuoted);
    ScanLength(st, tokens);
    ScanMakesSingleLineRecords(st, tokens);
    var withDouble := AddDocstrings(scanned.comments, scanned.contents, line, doubleQuoted, DoubleQuotes);
    AddDocstringsSpanned(scanned.comments, scanned.contents, line, doubleQuoted, DoubleQuotes);
    AddDocstringsSpanned(withDouble, scanned.contents, line, singleQuoted, SingleQuotes);
  }
}
