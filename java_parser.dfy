/**
 * The Java comment parser: line comments and block comments from the token stream
 * of a Java tokenizer, with runs of bare `//` lines merged and each comment
 * blanked out of the text once read; then tagging of each comment with the
 * syntax-tree nodes that start on its last line or the line after, and the
 * source lines those nodes span.
 */
module JavaParser {
  import opened Wrappers
  import opened PyStrings
  import opened Common

  /**
   * A node of the Java syntax tree, as iterating over the tree yields it:
   * its class name, and the rows of its start and end positions when the
   * parser recorded them.
   */
  datatype JavaNode = JavaNode(kind: string, start: Option<int>, end: Option<int>)

  type JavaComment = Comment<JavaNode>
  type Data = CommentData<JavaNode>

  /** A token of the Java tokenizer: whether its class is `Comment`, its value, and the row of its position. */
  datatype JavaToken = JavaToken(isComment: bool, value: string, row: int)

  // ---------------------------------------------------------------------
  // remove_comment

  /** The text of a comment as it stands in the source: the text between the block delimiters, or after the line delimiter. */
  function Delimited(text: string, multiline: bool): string
  {
    if multiline then "/*" + text + "*/" else "//" + text
  }

  /** The delimiters hold no newline. */
  lemma DelimitedCount(text: string, multiline: bool)
    ensures Count(Delimited(text, multiline), '\n') == Count(text, '\n')
  {
    if multiline {
      CountConcat("/*" + text, "*/", '\n');
      CountConcat("/*", text, '\n');
    } else {
      CountConcat("//", text, '\n');
    }
  }

  /** What a block comment with `k` newlines is replaced by: one space, then `k` times a space and a newline. */
  function Padding(k: nat): (r: string)
    ensures |r| == 1 + 2 * k
    ensures forall i :: 0 <= i < |r| ==> r[i] == (if i > 0 && i % 2 == 0 then '\n' else ' ')
    ensures Count(r, '\n') == k
  {
    if k == 0 then " "
    else
      CountConcat(Padding(k - 1), " \n", '\n');
      Padding(k - 1) + " \n"
  }

  /** The text after `remove_comment`: the first occurrence of the delimited comment is replaced. */
  function Removed(content: string, text: string, multiline: bool): string
  {
    ReplaceFirst(content, Delimited(text, multiline), if multiline then Padding(Count(text, '\n')) else " ")
  }

  /**
   * `remove_comment(file_content, comment_text, multiline)`: the padding is
   * built by a loop, one `' \n'` per newline of the delimited comment.
   */
  method RemoveComment(fileContent: string, commentText: string, multiline: bool) returns (r: string)
    ensures r == Removed(fileContent, commentText, multiline)
  {
    var replaceWith := " ";
    var text := commentText;
    if multiline {
      text := "/*" + commentText + "*/";
      var newlines := Count(text, '\n');
      for i := 1 to newlines + 1
        invariant replaceWith == Padding(i - 1)
      {
        replaceWith := replaceWith + " \n";
      }
      DelimitedCount(commentText, true);
    } else {
      text := "//" + commentText;
    }
    r := ReplaceFirst(fileContent, text, replaceWith);
  }

  /**
   * Blanking a block comment keeps the number of newlines in the text, so
   * every later line keeps its number; so does blanking a line comment
   * whose text holds no newline.
   */
  lemma RemovedKeepsNewlines(content: string, text: string, multiline: bool)
    requires multiline || Count(text, '\n') == 0
    ensures Count(Removed(content, text, multiline), '\n') == Count(content, '\n')
  {
    DelimitedCount(text, multiline);
    ReplaceFirstKeepsNewlines(content, Delimited(text, multiline), if multiline then Padding(Count(text, '\n')) else " ");
  }

  /**
   * Blanking replaces the first occurrence of the delimited comment and
   * nothing else; where it does not occur the text is unchanged.
   */
  lemma RemovedReplacesFirst(content: string, text: string, multiline: bool)
    ensures var pat := Delimited(text, multiline);
      match Find(content, pat)
      case None => Removed(content, text, multiline) == content
      case Some(i) =>
        var rep := if multiline then Padding(Count(text, '\n')) else " ";
        Removed(content, text, multiline) == content[..i] + rep + content[i + |pat|..]
        && |Removed(content, text, multiline)| == |content| - |pat| + |rep|
  {
  }

  // ---------------------------------------------------------------------
  // The comment a token makes (extract_comments, lines 102-116)

  predicate StartsWith(s: string, prefix: string)
  {
    |prefix| <= |s| && s[..|prefix|] == prefix
  }

  /** A block comment's text: the token without its first opening and its first closing delimiter. */
  function BlockText(value: string): string
  {
    ReplaceFirst(ReplaceFirst(value, "/*", ""), "*/", "")
  }

  /** A line comment's text: the right-stripped token without its first line delimiter. */
  function LineText(value: string): string
  {
    ReplaceFirst(RStrip(value), "//", "")
  }

  /**
   * The comment a token makes. A block comment ends on the token's row and
   * starts as many lines earlier as its text has newlines; a line comment
   * starts and ends on the row before the token's.
   */
  function TokenRecord(tok: JavaToken): Data
  {
    if StartsWith(tok.value, "/*") then
      var text := BlockText(tok.value);
      CommentData(text, tok.row - Count(text, '\n'), tok.row, true, [])
    else
      CommentData(LineText(tok.value), tok.row - 1, tok.row - 1, false, [])
  }

  /**
   * For a block comment token (a body in which the closing delimiter does not occur),
   * the text `remove_comment` looks for is the token itself.
   */
  lemma BlockTextRoundTrip(body: string)
    requires forall j :: !OccursAt(body, "*/", j)
    ensures Delimited(BlockText("/*" + body + "*/"), true) == "/*" + body + "*/"
  {
    var value := "/*" + body + "*/";
    var rest := body + "*/";
    assert OccursAt(value, "/*", 0);
    assert ReplaceFirst(value, "/*", "") == rest by {
      assert value[..0] + "" + value[2..] == rest;
    }
    CloseOnlyAtEnd(body);
    assert OccursAt(rest, "*/", |body|);
    assert ReplaceFirst(rest, "*/", "") == body by {
      assert rest[..|body|] + "" + rest[|body| + 2..] == body;
    }
  }

  /** Appending the closing delimiter to such a body makes its first occurrence the appended one. */
  lemma CloseOnlyAtEnd(body: string)
    requires forall j :: !OccursAt(body, "*/", j)
    ensures forall j :: 0 <= j < |body| ==> !OccursAt(body + "*/", "*/", j)
  {
    var rest := body + "*/";
    forall j | 0 <= j < |body| ensures !OccursAt(rest, "*/", j) {
      if j + 1 < |body| {
        assert !OccursAt(body, "*/", j);
        assert rest[j..j + 2] == body[j..j + 2];
      } else {
        assert rest[j..j + 2][1] == rest[j + 1] == '*';
      }
    }
  }

  /**
   * For a line comment token, the text `remove_comment` looks for is the
   * token without its trailing whitespace.
   */
  lemma LineTextRoundTrip(value: string)
    requires StartsWith(value, "//")
    ensures Delimited(LineText(value), false) == RStrip(value)
  {
    var r := RStrip(value);
    assert value[1] == '/' && !IsSpace(value[1]);
    RStripKeeps(value, 1);
    assert r[..2] == value[..2] == "//";
    assert OccursAt(r, "//", 0);
    assert Find(r, "//") == Some(0);
    assert LineText(value) == r[2..];
    assert "//" + r[2..] == r;
  }

  /** A block comment spans exactly as many lines as its text has newlines, plus one. */
  lemma TokenRecordSpan(tok: JavaToken)
    ensures var c := TokenRecord(tok);
      c.nodes == []
      && (c.multiline <==> StartsWith(tok.value, "/*"))
      && (c.multiline ==> c.endLine == tok.row && c.endLine - c.startLine == Count(c.text, '\n'))
      && (!c.multiline ==> c.startLine == c.endLine == tok.row - 1)
  {
  }

  // ---------------------------------------------------------------------
  // combine_consecutive_comments

  /**
   * `combine_consecutive_comments` on the comments' field values: only a
   * line comment merges with the current one.
   */
  function Combine(comments: seq<Data>, current: Data): (seq<Data>, Data)
  {
    if |comments| > 0 && !comments[|comments| - 1].multiline
       && current.startLine == comments[|comments| - 1].endLine + 1 then
      var previous := comments[|comments| - 1];
      (comments[..|comments| - 1],
       CommentData(previous.text + " " + current.text, previous.startLine, current.endLine, false, []))
    else
      (comments, current)
  }

  /**
   * `combine_consecutive_comments(comments, current)`: when the last comment
   * is not a block comment and `current` starts on the line after it ends,
   * the last comment is deleted and a new comment joining the two is
   * returned; otherwise nothing changes and `current` is returned.
   */
  method CombineConsecutiveComments(comments: seq<JavaComment>, current: JavaComment)
    returns (rest: seq<JavaComment>, comment: JavaComment)
    ensures (Values(rest), comment.Data()) == Combine(Values(comments), current.Data())
    ensures rest <= comments
    ensures comment == current || fresh(comment)
  {
    rest, comment := comments, current;
    if |comments| > 0 {
      var previous := comments[|comments| - 1];
      if !previous.IsMultiline() && current.StartLine() == previous.EndLine() + 1 {
        rest := comments[..|comments| - 1];
        comment := new Comment(previous.Text() + " " + current.Text(), previous.StartLine(), current.EndLine());
        assert Values(rest) == Values(comments)[..|comments| - 1];
      }
    }
  }

  /**
   * A merge replaces the last comment by one spanning from its first line to
   * the current comment's last line, with both texts joined by a space; a
   * block comment is never merged into. Without a merge the list is unchanged.
   */
  lemma CombineSpans(comments: seq<Data>, current: Data)
    ensures var (rest, c) := Combine(comments, current);
      if |comments| > 0 && !comments[|comments| - 1].multiline
         && current.startLine == comments[|comments| - 1].endLine + 1 then
        |rest| + 1 == |comments| && rest == comments[..|rest|]
        && c.text == comments[|comments| - 1].text + " " + current.text
        && c.startLine == comments[|comments| - 1].startLine && c.endLine == current.endLine
        && !c.multiline && c.nodes == []
      else
        rest == comments && c == current
  {
  }

  // ---------------------------------------------------------------------
  // extract_comments: the token loop (lines 99-131)

  /** The loop variables: the text being blanked, the comments, `prev_line` and `prev_comment_text`. */
  datatype CollectState = CollectState(content: string, comments: seq<Data>, prevLine: string, prevCommentText: string)

  /** The state before the first token: no comments, `prev_line = ''`, `prev_comment_text = '-'`. */
  function CollectStart(content: string): CollectState
  {
    CollectState(content, [], "", "-")
  }

  /** `line` is the line delimiter and `text` with only spaces and tabs around it. */
  predicate BareComment(line: string, text: string)
  {
    MatchesBareLine(line, "//" + text)
  }

  /** Line `startLine - 1` (counting from 0) of `content.splitlines()`, if there is one. */
  function LineAt(content: string, startLine: int): (r: Option<string>)
  {
    var lines := SplitLines(content);
    if 1 <= startLine <= |lines| then Some(lines[startLine - 1]) else None
  }

  /**
   * One iteration of the token loop. A block comment is appended as is. A
   * line comment whose line exists is merged with the last comment when
   * that line and the previous line comment's line are bare, and becomes
   * the previous line comment. Either way its text is blanked.
   */
  function CollectStep(st: CollectState, tok: JavaToken): CollectState
  {
    if !tok.isComment then st else AddComment(st, TokenRecord(tok))
  }

  /** The comment `c` of a comment token is blanked in the text and appended, merged where it merges. */
  function AddComment(st: CollectState, c: Data): CollectState
  {
    var a := Appended(st, c);
    CollectState(Removed(st.content, c.text, c.multiline), a.0, a.1, a.2)
  }

  /**
   * The list and the previous line and text after the comment `c` is
   * appended: a block comment is appended as is, a line comment as
   * `MergeLine` has it.
   */
  function Appended(st: CollectState, c: Data): (seq<Data>, string, string)
  {
    var m := if c.multiline then (st.comments, c, st.prevLine, st.prevCommentText) else MergeLine(st, c);
    (m.0 + [m.1], m.2, m.3)
  }

  /**
   * What a line comment `c` does to the list and to `prev_line` and
   * `prev_comment_text`: the list without the comment it merged into, the
   * comment to append, and the new previous line and text.
   */
  function MergeLine(st: CollectState, c: Data): (seq<Data>, Data, string, string)
  {
    match LineAt(st.content, c.startLine)
    case None => (st.comments, c, st.prevLine, st.prevCommentText)
    case Some(line) =>
      var merged := if BareComment(line, c.text) && BareComment(st.prevLine, st.prevCommentText)
                    then Combine(st.comments, c) else (st.comments, c);
      (merged.0, merged.1, line, c.text)
  }

  /** The loop over the tokens `toks`, in order. */
  function Collect(st: CollectState, toks: seq<JavaToken>): CollectState
  {
    if toks == [] then st else CollectStep(Collect(st, toks[..|toks| - 1]), toks[|toks| - 1])
  }

  function CommentTokens(toks: seq<JavaToken>): nat
  {
    if toks == [] then 0 else CommentTokens(toks[..|toks| - 1]) + (if toks[|toks| - 1].isComment then 1 else 0)
  }

  /**
   * The inner loop over `file_content.splitlines()` that stops at line
   * `start_line - 1`; `None` when the loop runs out of lines first.
   */
  method FindLine(content: string, startLine: int) returns (line: Option<string>)
    ensures line == LineAt(content, startLine)
    ensures line.Some? <==> 1 <= startLine <= |SplitLines(content)|
  {
    var lines := SplitLines(content);
    line := None;
    var lineCounter := 0;
    while lineCounter < |lines|
      invariant 0 <= lineCounter <= |lines|
      invariant lineCounter <= startLine - 1 || startLine - 1 < 0
    {
      if startLine - 1 == lineCounter {
        line := Some(lines[lineCounter]);
        break;
      }
      lineCounter := lineCounter + 1;
    }
  }

  /** The comment a comment token makes (lines 102-116). */
  method TokenComment(tok: JavaToken) returns (comment: JavaComment)
    ensures fresh(comment)
    ensures comment.Data() == TokenRecord(tok)
  {
    var commentText := tok.value;
    var isMultiline, startLine, endLine;
    if StartsWith(tok.value, "/*") {
      isMultiline := true;
      commentText := ReplaceFirst(commentText, "/*", "");
      commentText := ReplaceFirst(commentText, "*/", "");
      endLine := tok.row;
      startLine := endLine - Count(commentText, '\n');
    } else {
      isMultiline := false;
      commentText := ReplaceFirst(RStrip(tok.value), "//", "");
      endLine := tok.row - 1;
      startLine := tok.row - 1;
    }
    comment := new Comment(commentText, startLine, endLine, isMultiline);
  }

  /**
   * The lookup of a line comment's line and the merge with the last comment
   * when that line and the previous line comment's line are bare.
   */
  method MergeLineComment(content: string, comments: seq<JavaComment>, prevLine: string, prevCommentText: string,
                          current: JavaComment)
    returns (rest: seq<JavaComment>, comment: JavaComment, prevLine': string, prevCommentText': string)
    ensures (Values(rest), comment.Data(), prevLine', prevCommentText')
            == MergeLine(CollectState(content, Values(comments), prevLine, prevCommentText), current.Data())
    ensures rest <= comments
    ensures comment == current || fresh(comment)
  {
    rest, comment := comments, current;
    prevLine', prevCommentText' := prevLine, prevCommentText;
    var line := FindLine(content, current.StartLine());
    if line.Some? {
      if BareComment(line.value, current.Text()) && BareComment(prevLine, prevCommentText) {
        rest, comment := CombineConsecutiveComments(comments, current);
      }
      prevCommentText' := current.Text();
      prevLine' := line.value;
    }
  }

  /**
   * The part of the body of the token loop that builds the list, for the
   * comment `current` a comment token made: merge a line comment whose line
   * is bare, and append it.
   */
  method AppendComment(content: string, comments: seq<JavaComment>, prevLine: string, prevCommentText: string,
                       current: JavaComment)
    returns (comments': seq<JavaComment>, prevLine': string, prevCommentText': string)
    requires current !in comments
    ensures (Values(comments'), prevLine', prevCommentText')
            == Appended(CollectState(content, Values(comments), prevLine, prevCommentText), current.Data())
    ensures Distinct(comments) ==> Distinct(comments')
    ensures forall c :: c in comments' ==> c in comments || c == current || fresh(c)
  {
    var rest, comment := comments, current;
    prevLine', prevCommentText' := prevLine, prevCommentText;
    if !current.IsMultiline() {
      rest, comment, prevLine', prevCommentText' := MergeLineComment(content, comments, prevLine, prevCommentText, current);
    }
    PrefixMembers(rest, comments);
    assert comment !in rest;
    if Distinct(comments) {
      DistinctAppend(comments, rest, comment);
    }
    ValuesAppend(rest, comment);
    comments' := rest + [comment];
  }

  /**
   * The body of the token loop for a comment token: make its comment, merge
   * and append it, and blank it in the text.
   */
  method CollectCommentToken(content: string, comments: seq<JavaComment>, prevLine: string, prevCommentText: string,
                             tok: JavaToken)
    returns (content': string, comments': seq<JavaComment>, prevLine': string, prevCommentText': string)
    requires tok.isComment
    ensures CollectState(content', Values(comments'), prevLine', prevCommentText')
            == CollectStep(CollectState(content, Values(comments), prevLine, prevCommentText), tok)
    ensures Distinct(comments) ==> Distinct(comments')
    ensures forall c :: c in comments' ==> c in comments || fresh(c)
  {
    var comment := TokenComment(tok);
    content', comments', prevLine', prevCommentText' := AddCommentObject(content, comments, prevLine, prevCommentText, comment);
  }

  /** Appends the comment `current` of a comment token, merged where it merges, and blanks it in the text. */
  method AddCommentObject(content: string, comments: seq<JavaComment>, prevLine: string, prevCommentText: string,
                          current: JavaComment)
    returns (content': string, comments': seq<JavaComment>, prevLine': string, prevCommentText': string)
    requires current !in comments
    ensures CollectState(content', Values(comments'), prevLine', prevCommentText')
            == AddComment(CollectState(content, Values(comments), prevLine, prevCommentText), current.Data())
    ensures Distinct(comments) ==> Distinct(comments')
    ensures forall c :: c in comments' ==> c in comments || c == current || fresh(c)
  {
    var commentText, isMultiline := current.Text(), current.IsMultiline();
    comments', prevLine', prevCommentText' := AppendComment(content, comments, prevLine, prevCommentText, current);
    content' := RemoveComment(content, commentText, isMultiline);
  }

  /**
   * The token loop of `extract_comments`: one comment per comment token
   * (runs of bare line comments merged), and the text with every comment
   * blanked, which the tagging pass then reads.
   */
  method CollectComments(fileContent: string, tokens: seq<JavaToken>) returns (content: string, comments: seq<JavaComment>)
    ensures content == Collect(CollectStart(fileContent), tokens).content
    ensures Values(comments) == Collect(CollectStart(fileContent), tokens).comments
    ensures Distinct(comments)
    ensures forall c :: c in comments ==> fresh(c)
  {
    content, comments := fileContent, [];
    var prevLine, prevCommentText := "", "-";
    ghost var start := CollectStart(fileContent);
    for i := 0 to |tokens|
      invariant Collect(start, tokens[..i]) == CollectState(content, Values(comments), prevLine, prevCommentText)
      invariant Distinct(comments)
      invariant forall c :: c in comments ==> fresh(c)
    {
      assert tokens[..i + 1][..i] == tokens[..i];
      if tokens[i].isComment {
        content, comments, prevLine, prevCommentText := CollectCommentToken(content, comments, prevLine, prevCommentText, tokens[i]);
      }
    }
    assert tokens[..|tokens|] == tokens;
  }

  /** Each comment token adds one comment, or none net when it merges. */
  lemma {:induction false} CollectLength(st: CollectState, toks: seq<JavaToken>)
    ensures |st.comments| <= |Collect(st, toks).comments| <= |st.comments| + CommentTokens(toks)
  {
    if toks != [] {
      CollectLength(st, toks[..|toks| - 1]);
    }
  }

  /**
   * A comment token: a block comment is appended without merging; a line
   * comment merges exactly when its line exists, that line and the previous
   * line comment's line are bare, and the last comment is a line comment
   * ending on the line before.
   */
  lemma CollectStepMerges(st: CollectState, tok: JavaToken)
    requires tok.isComment
    ensures var c := TokenRecord(tok);
      var after := CollectStep(st, tok).comments;
      if !c.multiline && LineAt(st.content, c.startLine).Some?
         && BareComment(LineAt(st.content, c.startLine).value, c.text)
         && BareComment(st.prevLine, st.prevCommentText)
         && |st.comments| > 0 && !st.comments[|st.comments| - 1].multiline
         && c.startLine == st.comments[|st.comments| - 1].endLine + 1 then
        var previous := st.comments[|st.comments| - 1];
        after == st.comments[..|st.comments| - 1]
                 + [CommentData(previous.text + " " + c.text, previous.startLine, c.endLine, false, [])]
      else
        after == st.comments + [c]
  {
  }

  /** The first line comment never merges, because `prev_line` starts empty. */
  lemma FirstLineCommentNeverMerges(content: string, tok: JavaToken)
    requires tok.isComment
    ensures CollectStep(CollectStart(content), tok).comments == [TokenRecord(tok)]
  {
    EmptyLineIsNotBare("//-");
  }

  /**
   * A comment as the loop makes it: no nodes yet; a block comment spans one
   * line more than its text has newlines; a line comment, merged or not,
   * ends no earlier than it starts.
   */
  predicate CollectedRecord(c: Data)
  {
    c.nodes == []
    && (c.multiline ==> c.endLine - c.startLine == Count(c.text, '\n'))
    && (!c.multiline ==> c.startLine <= c.endLine)
  }

  lemma {:induction false} CollectMakesRecords(st: CollectState, toks: seq<JavaToken>)
    requires forall i :: 0 <= i < |st.comments| ==> CollectedRecord(st.comments[i])
    ensures forall i :: 0 <= i < |Collect(st, toks).comments| ==> CollectedRecord(Collect(st, toks).comments[i])
  {
    if toks != [] {
      CollectMakesRecords(st, toks[..|toks| - 1]);
    }
  }

  /**
   * When no line comment token holds a newline once right-stripped, the
   * blanked text has as many newlines as the file: the `eof_line_number`
   * passed to the tagging pass is the file's newline count.
   */
  lemma {:induction false} CollectKeepsNewlines(st: CollectState, toks: seq<JavaToken>)
    requires forall i :: 0 <= i < |toks| && toks[i].isComment && !StartsWith(toks[i].value, "/*") ==>
               Count(RStrip(toks[i].value), '\n') == 0
    ensures Count(Collect(st, toks).content, '\n') == Count(st.content, '\n')
  {
    if toks != [] {
      var last := toks[|toks| - 1];
      var before := Collect(st, toks[..|toks| - 1]);
      CollectKeepsNewlines(st, toks[..|toks| - 1]);
      if last.isComment {
        var c := TokenRecord(last);
        if !c.multiline {
          ReplaceFirstCount(RStrip(last.value), "//", "", '\n');
        }
        RemovedKeepsNewlines(before.content, c.text, c.multiline);
      }
    }
  }

  // ---------------------------------------------------------------------
  // tag_comments (lines 12-34)

  /** The node has a start position and is not the compilation unit. */
  predicate Eligible(n: JavaNode)
  {
    n.start.Some? && n.kind != "CompilationUnit"
  }

  /**
   * A node is attached to a comment when it starts on the comment's last
   * line, or on the line after while nothing is attached yet.
   */
  predicate Attaches(c: Data, n: JavaNode)
  {
    Eligible(n) && (n.start.value == c.endLine || (n.start.value == c.endLine + 1 && c.nodes == []))
  }

  /**
   * The last line of a node's excerpt: the line before its end position, the
   * end line itself for a package declaration, and the last line of the
   * file for a node without an end position.
   */
  function NodeEnd(n: JavaNode, eofLineNumber: int): int
  {
    match n.end
    case Some(row) => if n.kind == "PackageDeclaration" then row else row - 1
    case None => eofLineNumber
  }

  /** The lines with index `lo` to `hi` (counting from 0), each followed by a newline. */
  function Excerpt(lines: seq<string>, lo: int, hi: int): string
  {
    if lines == [] then ""
    else Excerpt(lines[..|lines| - 1], lo, hi) + (if lo <= |lines| - 1 <= hi then lines[|lines| - 1] + "\n" else "")
  }

  /** Lines past `hi` add nothing, so the loop may stop at the first of them. */
  lemma {:induction false} ExcerptPast(lines: seq<string>, lo: int, hi: int, i: nat)
    requires hi < i <= |lines|
    ensures Excerpt(lines, lo, hi) == Excerpt(lines[..i], lo, hi)
  {
    if i < |lines| {
      var init := lines[..|lines| - 1];
      ExcerptPast(init, lo, hi, i);
      assert init[..i] == lines[..i];
    } else {
      assert lines[..i] == lines;
    }
  }

  lemma ExcerptStep(lines: seq<string>, lo: int, hi: int, i: nat)
    requires i < |lines|
    ensures lo <= i <= hi ==> Excerpt(lines[..i + 1], lo, hi) == Excerpt(lines[..i], lo, hi) + lines[i] + "\n"
    ensures !(lo <= i <= hi) ==> Excerpt(lines[..i + 1], lo, hi) == Excerpt(lines[..i], lo, hi)
  {
    var before := Excerpt(lines[..i], lo, hi);
    assert lines[..i + 1][..i] == lines[..i];
    assert before + (lines[i] + "\n") == before + lines[i] + "\n";
    assert before + "" == before;
  }

  /** How many of the indices `0 .. n - 1` lie in `lo .. hi`. */
  function LinesInRange(n: nat, lo: int, hi: int): nat
  {
    var first := if lo < 0 then 0 else lo;
    var last := if hi < n - 1 then hi else n - 1;
    if last < first then 0 else last - first + 1
  }

  /**
   * Lines without a newline give an excerpt with one newline per line in
   * range, and an empty excerpt when no line is in range (in particular
   * when `hi < lo`).
   */
  lemma {:induction false} ExcerptLineCount(lines: seq<string>, lo: int, hi: int)
    requires forall k, j :: 0 <= k < |lines| && 0 <= j < |lines[k]| ==> lines[k][j] != '\n'
    ensures Count(Excerpt(lines, lo, hi), '\n') == LinesInRange(|lines|, lo, hi)
    ensures LinesInRange(|lines|, lo, hi) == 0 ==> Excerpt(lines, lo, hi) == ""
  {
    if lines != [] {
      var n := |lines|;
      var init := lines[..n - 1];
      ExcerptLineCount(init, lo, hi);
      if lo <= n - 1 <= hi {
        assert LinesInRange(n, lo, hi) == LinesInRange(n - 1, lo, hi) + 1;
        NoNewlineCount(lines[n - 1]);
        CountConcat(Excerpt(init, lo, hi), lines[n - 1] + "\n", '\n');
        CountConcat(lines[n - 1], "\n", '\n');
      } else {
        assert Excerpt(lines, lo, hi) == Excerpt(init, lo, hi) + "";
        assert Excerpt(init, lo, hi) + "" == Excerpt(init, lo, hi);
        assert LinesInRange(n, lo, hi) == LinesInRange(n - 1, lo, hi);
      }
    }
  }

  /**
   * The code excerpt of a node: source lines `nodeStart .. nodeEnd`
   * (counting from 1), one newline each; empty when `nodeEnd < nodeStart`.
   */
  lemma NodeTextLines(content: string, nodeStart: int, nodeEnd: int)
    ensures var lines := SplitLines(content);
      Count(Excerpt(lines, nodeStart - 1, nodeEnd - 1), '\n') == LinesInRange(|lines|, nodeStart - 1, nodeEnd - 1)
      && (nodeEnd < nodeStart ==> Excerpt(lines, nodeStart - 1, nodeEnd - 1) == "")
  {
    SplitLinesHaveNoBoundary(content);
    ExcerptLineCount(SplitLines(content), nodeStart - 1, nodeEnd - 1);
  }

  /**
   * The loop over the lines of `file_content.splitlines()` that collects
   * the node's lines and stops past them.
   */
  method NodeText(lines: seq<string>, nodeStart: int, nodeEnd: int) returns (text: string)
    ensures text == Excerpt(lines, nodeStart - 1, nodeEnd - 1)
  {
    text := "";
    var lineCounter := 0;
    while lineCounter < |lines|
      invariant 0 <= lineCounter <= |lines|
      invariant text == Excerpt(lines[..lineCounter], nodeStart - 1, nodeEnd - 1)
    {
      ExcerptStep(lines, nodeStart - 1, nodeEnd - 1, lineCounter);
      var line := lines[lineCounter];
      if nodeStart - 1 <= lineCounter <= nodeEnd - 1 {
        text := text + line + "\n";
      } else if lineCounter > nodeEnd - 1 {
        ExcerptPast(lines, nodeStart - 1, nodeEnd - 1, lineCounter);
        return;
      }
      lineCounter := lineCounter + 1;
    }
    assert lines[..lineCounter] == lines;
  }

  /** The entry appended for node `n`: the node and its excerpt. */
  function Entry(n: JavaNode, content: string, eofLineNumber: int): (JavaNode, string)
    requires n.start.Some?
  {
    (n, Excerpt(SplitLines(content), n.start.value - 1, NodeEnd(n, eofLineNumber) - 1))
  }

  /** One iteration of the loop over the tree's nodes for one comment. */
  function TagNode(c: Data, n: JavaNode, content: string, eofLineNumber: int): Data
  {
    if Attaches(c, n) then c.(nodes := c.nodes + [Entry(n, content, eofLineNumber)]) else c
  }

  /** The loop over the tree's nodes `tree`, in order, for one comment. */
  function TagNodes(c: Data, tree: seq<JavaNode>, content: string, eofLineNumber: int): Data
  {
    if tree == [] then c else TagNode(TagNodes(c, tree[..|tree| - 1], content, eofLineNumber), tree[|tree| - 1], content, eofLineNumber)
  }

  /** An eligible node of `tree` starts on `line`. */
  predicate SomeStartsOn(tree: seq<JavaNode>, line: int)
  {
    exists k :: 0 <= k < |tree| && Eligible(tree[k]) && tree[k].start.value == line
  }

  /**
   * Tagging one comment changes only its node list, and only by appending:
   * every appended entry is an eligible node of the tree with its excerpt,
   * starting on the comment's last line or the line after, and a node on the
   * line after can only be the first entry of a list that was empty.
   */
  lemma {:induction false} TagNodesAppends(c: Data, tree: seq<JavaNode>, content: string, eofLineNumber: int)
    ensures var r := TagNodes(c, tree, content, eofLineNumber);
      && r == c.(nodes := r.nodes)
      && c.nodes <= r.nodes
      && (forall k :: |c.nodes| <= k < |r.nodes| ==>
            var n := r.nodes[k].0;
            n in tree && Eligible(n) && r.nodes[k] == Entry(n, content, eofLineNumber)
            && (n.start.value == c.endLine || (n.start.value == c.endLine + 1 && c.nodes == [] && k == 0)))
  {
    if tree != [] {
      var init := tree[..|tree| - 1];
      var before := TagNodes(c, init, content, eofLineNumber);
      TagNodesAppends(c, init, content, eofLineNumber);
      var r := TagNodes(c, tree, content, eofLineNumber);
      forall k | |c.nodes| <= k < |r.nodes|
        ensures var m := r.nodes[k].0;
          m in tree && Eligible(m) && r.nodes[k] == Entry(m, content, eofLineNumber)
          && (m.start.value == c.endLine || (m.start.value == c.endLine + 1 && c.nodes == [] && k == 0))
      {
        if k < |before.nodes| {
          assert r.nodes[k] == before.nodes[k];
          assert r.nodes[k].0 in init;
        }
      }
    }
  }

  /** Every eligible node that starts on the comment's last line is appended, with its excerpt. */
  lemma {:induction false} TagNodesTakesLastLine(c: Data, tree: seq<JavaNode>, content: string, eofLineNumber: int)
    ensures var r := TagNodes(c, tree, content, eofLineNumber);
      |c.nodes| <= |r.nodes|
      && forall k :: 0 <= k < |tree| && Eligible(tree[k]) && tree[k].start.value == c.endLine ==>
        Entry(tree[k], content, eofLineNumber) in r.nodes[|c.nodes|..]
  {
    TagNodesAppends(c, tree, content, eofLineNumber);
    if tree != [] {
      var init := tree[..|tree| - 1];
      var n := tree[|tree| - 1];
      var before := TagNodes(c, init, content, eofLineNumber);
      TagNodesTakesLastLine(c, init, content, eofLineNumber);
      TagNodesAppends(c, init, content, eofLineNumber);
      var r := TagNodes(c, tree, content, eofLineNumber);
      assert before.nodes <= r.nodes;
      forall k | 0 <= k < |tree| && Eligible(tree[k]) && tree[k].start.value == c.endLine
        ensures Entry(tree[k], content, eofLineNumber) in r.nodes[|c.nodes|..]
      {
        if k < |init| {
          assert init[k] == tree[k];
          assert before.nodes[|c.nodes|..] <= r.nodes[|c.nodes|..];
        } else {
          assert r.nodes[|r.nodes| - 1] == Entry(n, content, eofLineNumber);
        }
      }
    }
  }

  /**
   * The node list ends up empty exactly when it was empty and no eligible
   * node starts on the comment's last line or the line after.
   */
  lemma {:induction false} TagNodesEmpty(c: Data, tree: seq<JavaNode>, content: string, eofLineNumber: int)
    ensures TagNodes(c, tree, content, eofLineNumber).nodes == []
            <==> c.nodes == [] && !SomeStartsOn(tree, c.endLine) && !SomeStartsOn(tree, c.endLine + 1)
  {
    if tree != [] {
      var init := tree[..|tree| - 1];
      var n := tree[|tree| - 1];
      var before := TagNodes(c, init, content, eofLineNumber);
      TagNodesEmpty(c, init, content, eofLineNumber);
      TagNodesAppends(c, init, content, eofLineNumber);
      if SomeStartsOn(tree, c.endLine) || SomeStartsOn(tree, c.endLine + 1) {
        var k :| 0 <= k < |tree| && Eligible(tree[k]) && (tree[k].start.value == c.endLine || tree[k].start.value == c.endLine + 1);
        if k < |init| {
          assert init[k] == tree[k];
        }
      } else {
        forall k | 0 <= k < |init| && Eligible(init[k])
          ensures init[k].start.value != c.endLine && init[k].start.value != c.endLine + 1
        {
          assert init[k] == tree[k];
        }
      }
    }
  }

  /**
   * The loop over the tree for one comment: every node it attaches is
   * appended, with its excerpt, to the comment's node list.
   */
  method TagComment(comment: JavaComment, tree: seq<JavaNode>, content: string, eofLineNumber: int)
    modifies comment
    ensures comment.Data() == TagNodes(old(comment.Data()), tree, content, eofLineNumber)
  {
    for i := 0 to |tree|
      invariant comment.Data() == TagNodes(old(comment.Data()), tree[..i], content, eofLineNumber)
    {
      assert tree[..i + 1][..i] == tree[..i];
      var node := tree[i];
      if node.start.Some? && node.kind != "CompilationUnit" {
        var nodeStartLine := node.start.value;
        if nodeStartLine == comment.EndLine() || (nodeStartLine == comment.EndLine() + 1 && |comment.NodeList()| == 0) {
          var nodeEndLine;
          if node.end.Some? {
            nodeEndLine := node.end.value - 1;
            if node.kind == "PackageDeclaration" {
              nodeEndLine := nodeEndLine + 1;
            }
          } else {
            nodeEndLine := eofLineNumber;
          }
          var nodeText := NodeText(SplitLines(content), nodeStartLine, nodeEndLine);
          comment.AppendNode((node, nodeText));
        }
      }
    }
    assert tree[..|tree|] == tree;
  }

  /** Tagging every comment with the tree's nodes, one comment after another. */
  method TagComments(comments: seq<JavaComment>, content: string, eofLineNumber: int, tree: seq<JavaNode>)
    requires Distinct(comments)
    modifies set c | c in comments
    ensures forall k :: 0 <= k < |comments| ==>
              comments[k].Data() == TagNodes(old(comments[k].Data()), tree, content, eofLineNumber)
  {
    for i := 0 to |comments|
      invariant forall k :: 0 <= k < i ==>
                  comments[k].Data() == TagNodes(old(comments[k].Data()), tree, content, eofLineNumber)
      invariant forall k :: i <= k < |comments| ==> comments[k].Data() == old(comments[k].Data())
    {
      TagComment(comments[i], tree, content, eofLineNumber);
    }
  }
  // ---------------------------------------------------------------------
  // extract_comments: the token loop, then the tagging pass (lines 99-132)

  /** Each comment of `vs` tagged on its own with the tree's nodes. */
  function TagEach(vs: seq<Data>, tree: seq<JavaNode>, content: string, eofLineNumber: int): (r: seq<Data>)
    ensures |r| == |vs|
  {
    if vs == [] then [] else TagEach(vs[..|vs| - 1], tree, content, eofLineNumber) + [TagNodes(vs[|vs| - 1], tree, content, eofLineNumber)]
  }

  lemma {:induction false} TagEachAt(vs: seq<Data>, tree: seq<JavaNode>, content: string, eofLineNumber: int)
    ensures forall i :: 0 <= i < |vs| ==> TagEach(vs, tree, content, eofLineNumber)[i] == TagNodes(vs[i], tree, content, eofLineNumber)
  {
    if vs != [] {
      var init := vs[..|vs| - 1];
      TagEachAt(init, tree, content, eofLineNumber);
      var tagged := TagEach(init, tree, content, eofLineNumber);
      forall i | 0 <= i < |vs| ensures TagEach(vs, tree, content, eofLineNumber)[i] == TagNodes(vs[i], tree, content, eofLineNumber) {
        if i < |init| {
          assert vs[i] == init[i] && tagged[i] == TagNodes(init[i], tree, content, eofLineNumber);
        }
      }
    }
  }

  /**
   * The comments once both steps have run: collected from the tokens, then
   * tagged against the blanked text, whose newline count is the last line.
   */
  function Extracted(fileContent: string, tokens: seq<JavaToken>, tree: seq<JavaNode>): seq<Data>
  {
    var st := Collect(CollectStart(fileContent), tokens);
    TagEach(st.comments, tree, st.content, Count(st.content, '\n'))
  }

  /**
   * The body of `extract_comments` once the file is read and tokenized;
   * `tree` is the order in which iterating over the parsed tree yields its
   * nodes. The source keeps the list local and returns nothing; the list is
   * a ghost out-parameter here, so that its final state can be stated.
   */
  method ExtractComments(fileContent: string, tokens: seq<JavaToken>, tree: seq<JavaNode>) returns (ghost comments: seq<JavaComment>)
    ensures Values(comments) == Extracted(fileContent, tokens, tree)
    ensures forall c :: c in comments ==> fresh(c)
  {
    var content, cs := CollectComments(fileContent, tokens);
    ghost var collected := Values(cs);
    var eofLineNumber := Count(content, '\n');
    TagComments(cs, content, eofLineNumber, tree);
    TagEachAt(collected, tree, content, eofLineNumber);
    assert Values(cs) == TagEach(collected, tree, content, eofLineNumber);
    comments := cs;
  }

  /**
   * At most one comment per comment token; each keeps the text and lines
   * the loop gave it, and its node list holds only eligible nodes of the
   * tree that start on its last line or the line after, each with its excerpt.
   */
  lemma ExtractedFacts(fileContent: string, tokens: seq<JavaToken>, tree: seq<JavaNode>)
    ensures var st := Collect(CollectStart(fileContent), tokens);
      var r := Extracted(fileContent, tokens, tree);
      && |r| == |st.comments| <= CommentTokens(tokens)
      && forall i :: 0 <= i < |r| ==>
           r[i] == st.comments[i].(nodes := r[i].nodes)
           && forall k :: 0 <= k < |r[i].nodes| ==>
                var n := r[i].nodes[k].0;
                n in tree && Eligible(n) && r[i].nodes[k] == Entry(n, st.content, Count(st.content, '\n'))
                && (n.start.value == r[i].endLine || n.start.value == r[i].endLine + 1)
  {
    var start := CollectStart(fileContent);
    var st := Collect(start, tokens);
    var eof := Count(st.content, '\n');
    CollectLength(start, tokens);
    CollectMakesRecords(start, tokens);
    TagEachAt(st.comments, tree, st.content, eof);
    forall i | 0 <= i < |st.comments| ensures st.comments[i].nodes == [] {
      assert CollectedRecord(st.comments[i]);
    }
    forall i | 0 <= i < |st.comments| {
      TagNodesAppends(st.comments[i], tree, st.content, eof);
    }
  }
}
