# comment_parser core, modelled in Dafny

This project models the core of `comment_parser`, which extracts the comments of
Python and Java source files and tags each one with the syntax-tree nodes it
documents. It covers:

- **The comment record** (`common.py`, class `Comment`): text, start and end line,
  the multiline flag and a node list that callers append to in place. It is
  modelled as a Dafny `class` (`Common.Comment`), with `CommentData` as the value
  of its fields at one moment.
- **The visitor** (`ast_visitor.py`, `get_node_at_line`): the first node of the
  tree, in pre-order, whose `lineno` is the given line. It is modelled as the
  class `AstVisitor.Visitor`, whose fields the search updates. It is proved
  against the pure reference `AstVisitor.FirstAt`.
- **The Python parser** (`python_parser.py`):
  - `combine_consecutive_comments`;
  - the `#`-token loop of `parse_single_line_comments`;
  - the line-number table and triple-quote matches of `parse_multi_line_comments`;
  - the stable sort by start line;
  - both passes of `tag_comments`;
  - their composition in `extract_comments`.
- **The Java parser** (`java_parser.py`):
  - `remove_comment` and `combine_consecutive_comments`;
  - the token loop of `extract_comments`, which builds the comments and blanks each one out of the text;
  - `tag_comments`, which attaches the nodes that start on a comment's last line or the line after, each with its excerpt of source lines.
- **The Python string operations** they rely on, over `seq<char>` (`PyStrings`):
  - `str.count`, `str.find`, `str.replace` (the first occurrence and all occurrences);
  - `strip` and `rstrip` with Python's whitespace set;
  - `splitlines` with Python's line boundaries;
  - the bare-line regular expression `^[ \t]*<literal>[ \t]*$`, where `$` also matches before a final newline.
- **`list.sort(key=...)`**, as a stable sort on (key, element) pairs (`StableSort`).

Every loop of the source is a Dafny method with a loop. Each loop is proved
against a fold over the input that states what the loop computes, step by step:

- `PythonParser.Scan` for the `#`-token loop;
- `PythonParser.AddDocstrings` for the matches;
- `JavaParser.Collect` for the Java token loop;
- `JavaParser.TagNodes` for the tagging loop;
- `JavaParser.Excerpt` for the excerpt loop.

Lemmas then prove properties of these folds: what a merge does, length bounds,
record shapes, newline preservation, tagging rules, and sort order and stability.

The tokenizers, the regular-expression engine and the Python and Java parsers
are outside the core. Their results are parameters:

- `PythonParser.Token` and `JavaParser.JavaToken` sequences for the tokens;
- `PythonParser.Match` offsets for the triple-quote matches;
- an `AstVisitor.PyNode` tree with its `ast.walk` order, or a sequence of `JavaParser.JavaNode`, for the syntax trees.

Points where the code's behaviour may surprise; the model follows the code:

- There is no character-level scanner, and `UnterminatedCommentError` is never raised. Comments come from the tokenizers' comment tokens.
- A merged run of `#` or `//` lines is a single-line comment whose start line is before its end line.
- A Python docstring's line span is at least, not exactly, the number of newlines in its stripped text (`PythonParser.DocstringLines`).
- Java's `extract_comments` returns nothing: the tagged list is discarded after the debug printing. `JavaParser.ExtractComments` exposes the list only as a ghost out-parameter, so that its final state can be stated.

## Model

| member | source | states |
|---|---|---|
| Common.Comment.constructor | comment_parser/parsers/common.py:23-39 | a new comment holds the given text, lines and multiline flag (false by default) and an empty node list |
| Common.Comment.Text | comment_parser/parsers/common.py:41-47 | `text()` returns the comment's text field |
| Common.Comment.StartLine | comment_parser/parsers/common.py:49-55 | `start_line()` returns the comment's start line field |
| Common.Comment.EndLine | comment_parser/parsers/common.py:57-63 | `end_line()` returns the comment's end line field |
| Common.Comment.IsMultiline | comment_parser/parsers/common.py:65-71 | `is_multiline()` returns the comment's multiline flag |
| Common.Comment.NodeList | comment_parser/parsers/common.py:73-75 | `node_list()` returns the comment's node list |
| Common.Comment.SetNodeList | comment_parser/parsers/common.py:77-79 | the node list becomes the given list; text, lines and flag are unchanged |
| Common.Comment.AppendNode | comment_parser/parsers/common.py:73-75 | appending to the list `node_list()` hands out extends the comment's own node list by that entry at the end; every other field is unchanged |
| Common.Comment.ToString | comment_parser/parsers/common.py:81-82 | `str(comment)` is the comment's text |
| Common.Comment.Equals | comment_parser/parsers/common.py:84-88 | true exactly when the other object is a comment whose text, lines, flag and node list all equal this one's |
| AstVisitor.FirstAt | comment_parser/parsers/ast_visitor.py:12-24 | the result is a node of the tree whose `lineno` is the line; it is None exactly when no node of the tree has that line |
| AstVisitor.FirstIndexConcat | comment_parser/parsers/ast_visitor.py:17-23 | the first match in a visit of `a` then `b` comes from `a` if `a` has one, else from `b` shifted by `|a|`, else there is none |
| AstVisitor.AfterVisitingConcat | comment_parser/parsers/ast_visitor.py:17-23 | visiting `a` and then `b` leaves `_found_node` and `_result` as visiting `a + b` does |
| AstVisitor.FirstMatchWins | comment_parser/parsers/ast_visitor.py:13-16 | once a node is found later nodes never overwrite the result, and a fresh visitor ends with `FirstAt` |
| AstVisitor.ChildrenAreSearched | comment_parser/parsers/ast_visitor.py:17-23 | a node on the line found under any child, held directly or as a list item, means one is found for the parent, whether or not the parent has a `lineno` |
| AstVisitor.Visitor.constructor | comment_parser/parsers/ast_visitor.py:7-10 | a new visitor has found nothing and its result is None |
| AstVisitor.Visitor.GetNodeAtLine | comment_parser/parsers/ast_visitor.py:12-24 | the new `_found_node` and `_result` are those after looking at the tree's nodes in pre-order, where only the first match counts; the method returns `_result` |
| AstVisitor.Visitor.VisitItems | comment_parser/parsers/ast_visitor.py:18-21 | the same for the items of a list-valued field, in order |
| PythonParser.CombineConsecutiveComments | comment_parser/parsers/python_parser.py:14-23 | the list left and the comment returned are those of `Combine` on the comments' values; the list left is a prefix of the input; the comment is `current` or a new object |
| PythonParser.CombineSpans | comment_parser/parsers/python_parser.py:14-23 | a merge happens exactly when the list is non-empty and `current` starts on the line after the last comment ends; then the last comment is dropped and the result joins both texts with a space, runs from the previous start to the current end, and is single-line with no nodes; otherwise the list and comment are unchanged |
| PythonParser.NewTokenComment | comment_parser/parsers/python_parser.py:39-43 | a new comment whose text is the token without its first `#`, starting and ending on the token's row |
| PythonParser.AppendTokenComment | comment_parser/parsers/python_parser.py:44-47 | the list gains the comment, merged with the last one first when a merge is attempted; objects stay distinct, and every object is old, the current one, or new |
| PythonParser.ScanCommentToken | comment_parser/parsers/python_parser.py:37-50 | one iteration for a COMMENT token leaves the text, list, `prev_line` and `prev_token` as `ScanStep` defines |
| PythonParser.ParseSingleLineComments | comment_parser/parsers/python_parser.py:26-51 | the returned text and the list are those of `Scan` over the tokens from `prev_line = ''` and `prev_token = '-'`; the list stays free of duplicate objects, and new objects are fresh |
| PythonParser.ScanLength | comment_parser/parsers/python_parser.py:36-47 | the list never shrinks and grows by at most the number of comment tokens |
| PythonParser.FirstTokenNeverMerges | comment_parser/parsers/python_parser.py:34-47 | the first comment token is appended on its own, because `prev_line` starts empty |
| PythonParser.ScanStepMerges | comment_parser/parsers/python_parser.py:37-47 | a comment token replaces the last comment by the joined one exactly when both lines are bare and the last comment ends on the line before; otherwise it appends its own comment |
| PythonParser.ScanKeepsNewlines | comment_parser/parsers/python_parser.py:38 | blanking comment tokens that hold no newline keeps the text's newline count, so line numbers are unchanged |
| PythonParser.ScanMakesSingleLineRecords | comment_parser/parsers/python_parser.py:39-47 | every comment the loop makes, merged or not, is single-line, has no nodes and ends no earlier than it starts |
| PythonParser.LineEnds | comment_parser/parsers/python_parser.py:63-66 | the table `line` has one entry per newline of the text |
| PythonParser.LineEndAt | comment_parser/parsers/python_parser.py:63-66 | entry `k` of `line` is the offset just past a newline, and the text up to it holds exactly `k + 1` newlines |
| PythonParser.CollectLineEnds | comment_parser/parsers/python_parser.py:62-66 | the loop over the matches of `.*\n` builds exactly `LineEnds` |
| PythonParser.FirstEndAfter | comment_parser/parsers/python_parser.py:72 | the generator's first index whose line end lies past the offset, with every earlier one at or before it; None when there is none |
| PythonParser.StartLineIsLineOfOffset | comment_parser/parsers/python_parser.py:72 | the corrected start line (`StartLine`) is one more than the newlines before the match; the code as written (`StartLineAsWritten`, None for StopIteration) finds a line exactly when a newline lies at or after the match's start |
| PythonParser.StopIterationOnLastLine | comment_parser/parsers/python_parser.py:72 | for a file that is a single docstring with no final newline, the code as written (`StartLineAsWritten`) finds no line while the match is on line 1 |
| PythonParser.AddDocstrings | comment_parser/parsers/python_parser.py:70-79 | one comment is appended per match |
| PythonParser.AddDocstringsAt | comment_parser/parsers/python_parser.py:70-79 | the earlier comments are kept, and the comment of match `i` (`DocstringComment`) is at position `|vs| + i` |
| PythonParser.DocstringLines | comment_parser/parsers/python_parser.py:72-78 | a docstring comment (`DocstringComment`: the matched text with every triple quote removed, then stripped) is multiline with no nodes; it starts on the line holding the match's first character and ends on the line holding its end, and spans at least as many lines as its stripped text has newlines |
| PythonParser.AppendDocstring | comment_parser/parsers/python_parser.py:71-79 | the list gains exactly the comment of the match, `DocstringComment` |
| PythonParser.AppendDocstrings | comment_parser/parsers/python_parser.py:70-79 | the loop appends the comment of every match, in match order |
| PythonParser.ParseMultiLineComments | comment_parser/parsers/python_parser.py:54-92 | the list gains the double-quoted docstrings and then the single-quoted ones, in match order, with line numbers from the line table |
| PythonParser.SortByStartLineFacts | comment_parser/parsers/python_parser.py:177 | the sorted list is a reordering of the same objects, ordered by start line, with equal start lines in their original order, and has no duplicates if the input had none |
| PythonParser.ValuesOfSort | comment_parser/parsers/python_parser.py:177 | sorting the objects and reading their fields gives the sort of their field values |
| PythonParser.SortDataFacts | comment_parser/parsers/python_parser.py:177 | the sort of the field values is a permutation, ordered by start line and stable |
| PythonParser.SortComments | comment_parser/parsers/python_parser.py:177 | `comments.sort(key=...)`: the values are sorted as `SortData` says, and the objects are the same and stay distinct |
| StableSort.SortFacts | comment_parser/parsers/python_parser.py:177 | `list.sort(key=...)` orders by key, is a permutation, and keeps the elements of each key in their original order |
| PythonParser.FieldNamed | comment_parser/parsers/python_parser.py:107-108 | `getattr(node, name)` finds a value exactly when the node has a field of that name, and the value is that field's |
| PythonParser.BlockEntriesAre | comment_parser/parsers/python_parser.py:106-119 | the first pass tags a comment with exactly the walked nodes whose block header holds the comment's start line (`InBlockHeader`: `<=` the first body line for a block comment, `<` otherwise), each with its excerpt |
| PythonParser.NearbyEntryRule | comment_parser/parsers/python_parser.py:122-149 | the second pass adds at most one node (`NearbyEntry`): the first node on the last line unless it is a bare string statement (`IsStringExpr`), else the first node on the next line; it adds nothing exactly when neither exists |
| PythonParser.NodeAtLine | comment_parser/parsers/python_parser.py:126 | a fresh visitor's `get_node_at_line` returns `FirstAt` |
| PythonParser.TagBlockHeader | comment_parser/parsers/python_parser.py:109-119 | for one walked node, each comment whose start lies in the node's block header gains the node; every other field is unchanged |
| PythonParser.TagBlockHeaders | comment_parser/parsers/python_parser.py:106-119 | each comment gains the entries of the first pass, in walk order |
| PythonParser.TagWithNearbyCode | comment_parser/parsers/python_parser.py:123-149 | one comment gains the entry of the second pass, `NearbyEntry` |
| PythonParser.TagNearbyCode | comment_parser/parsers/python_parser.py:122-149 | each comment gains the entry of the second pass |
| PythonParser.TagComments | comment_parser/parsers/python_parser.py:95-149 | each comment ends up `Tagged`: the first pass's entries, then the second pass's, after its old node list |
| PythonParser.TagAllAt | comment_parser/parsers/python_parser.py:95-149 | tagging a list tags each comment on its own, in place |
| PythonParser.ParseComments | comment_parser/parsers/python_parser.py:175-176 | both parsing passes build `Parsed` into a new list of distinct, new objects |
| PythonParser.ExtractComments | comment_parser/parsers/python_parser.py:169-182 | the returned list is the parsed comments, stably sorted by start line, each tagged by both passes |
| PythonParser.ExtractedFacts | comment_parser/parsers/python_parser.py:152-182 | the result is ordered by start line, no comment ends before it starts, and there is one comment per triple-quote match plus at most one per comment token |
| PythonParser.ParsedFacts | comment_parser/parsers/python_parser.py:175-176 | the parsed comments span forwards and number the matches plus at most the comment tokens |
| PythonParser.SortedSpanned | comment_parser/parsers/python_parser.py:177 | sorting keeps the number of comments, orders them by start line and keeps every one spanning forwards |
| PythonParser.AddDocstringsSpanned | comment_parser/parsers/python_parser.py:70-92 | docstring comments never end before they start |
| PyStrings.Find | comment_parser/parsers/python_parser.py:38 | the index found is an occurrence with none before it; none is found exactly when the pattern does not occur |
| PyStrings.ReplaceFirst | comment_parser/parsers/python_parser.py:38-39 | `replace(pat, rep, 1)` replaces the first occurrence and leaves a text without one unchanged |
| PyStrings.ReplaceFirstCount | comment_parser/parsers/java_parser.py:56 | replacing the first occurrence changes a character's count by exactly the difference between replacement and pattern |
| PyStrings.ReplaceAll | comment_parser/parsers/python_parser.py:75 | `replace(pat, rep)` leaves a text without an occurrence unchanged, never lengthens it when `rep` is no longer than `pat`, and never shortens it when `rep` is no shorter |
| PyStrings.ReplaceAllSelf | comment_parser/parsers/python_parser.py:75 | the occurrences `replace` finds, left to right and without overlap, cover exactly the text they cut out: replacing each by itself gives back the text |
| PyStrings.RemoveAllCount | comment_parser/parsers/python_parser.py:75 | deleting every triple quote never adds a newline |
| PyStrings.RStrip | comment_parser/parsers/java_parser.py:112 | `rstrip()` returns a prefix of the text |
| PyStrings.RStripRemovesSpaces | comment_parser/parsers/java_parser.py:112 | `rstrip` removes only trailing whitespace and leaves none at the end |
| PyStrings.Strip | comment_parser/parsers/python_parser.py:75 | `strip()` never lengthens the text |
| PyStrings.StripSlice | comment_parser/parsers/python_parser.py:88 | `strip()` returns a slice of the text with nothing but whitespace before and after it |
| PyStrings.StripEnds | comment_parser/parsers/python_parser.py:75 | a stripped text neither starts nor ends with whitespace |
| PyStrings.StripCount | comment_parser/parsers/python_parser.py:75 | stripping never adds a character |
| PyStrings.MatchesBareLine | comment_parser/parsers/python_parser.py:44-45 | `re.match(r"^[ \t]*" + re.escape(lit) + r"[ \t]*$", line)`, also used at java_parser.py:122-123: spaces and tabs, the literal, spaces and tabs, and at most one final newline; a matching line is at least as long as the literal |
| PyStrings.BareLineShape | comment_parser/parsers/python_parser.py:44-45 | a line of spaces and tabs, the literal, and spaces and tabs matches `^[ \t]*<literal>[ \t]*$`, with or without a final newline |
| PyStrings.BareLineHoldsLiteral | comment_parser/parsers/java_parser.py:122-123 | a line that matches holds the literal after nothing but spaces and tabs, and after it nothing but spaces and tabs, ended by at most one newline |
| PyStrings.EmptyLineIsNotBare | comment_parser/parsers/python_parser.py:44-45 | the empty initial `prev_line` never matches the bare-line pattern |
| PyStrings.SplitLines | comment_parser/parsers/java_parser.py:28 | `splitlines()` is empty exactly when the text is |
| PyStrings.SplitJoinLines | comment_parser/parsers/java_parser.py:120 | lines without a line boundary, each ended by a newline, split back into the same lines |
| PyStrings.SplitLinesHaveNoBoundary | comment_parser/parsers/java_parser.py:120 | no line of `splitlines()` holds a line boundary |
| JavaParser.DelimitedCount | comment_parser/parsers/java_parser.py:50-55 | the comment as delimited in the source has as many newlines as its text |
| JavaParser.Padding | comment_parser/parsers/java_parser.py:49-53 | the padding for `k` newlines is a space followed by `k` times a space and a newline: length `1 + 2k`, exactly `k` newlines |
| JavaParser.RemoveComment | comment_parser/parsers/java_parser.py:48-57 | the result is `Removed`: the text with the first occurrence of the delimited comment replaced by its padding, or by one space for a line comment |
| JavaParser.RemovedKeepsNewlines | comment_parser/parsers/java_parser.py:48-57 | blanking (`Removed`) a block comment, or a line comment without a newline, keeps the text's newline count |
| JavaParser.RemovedReplacesFirst | comment_parser/parsers/java_parser.py:56 | only the first occurrence is replaced, the length changes by the difference, and a text without an occurrence is unchanged |
| JavaParser.BlockTextRoundTrip | comment_parser/parsers/java_parser.py:104-107 | for a block token whose body holds no closing delimiter, re-delimiting its text gives back the token |
| JavaParser.LineTextRoundTrip | comment_parser/parsers/java_parser.py:112 | for a line token, re-delimiting its text gives back the right-stripped token |
| JavaParser.TokenRecordSpan | comment_parser/parsers/java_parser.py:102-114 | a block comment ends on the token's row and spans its text's newlines; a line comment starts and ends on the row before |
| JavaParser.TokenComment | comment_parser/parsers/java_parser.py:102-116 | the new comment holds `TokenRecord` of the token |
| JavaParser.CombineConsecutiveComments | comment_parser/parsers/java_parser.py:60-69 | the list left and the comment returned are those of `Combine` on the comments' values; the list left is a prefix of the input; the comment is `current` or a new object |
| JavaParser.CombineSpans | comment_parser/parsers/java_parser.py:60-69 | a merge happens exactly when the last comment is a line comment ending on the line before `current` starts; its effect is as in the Python parser; a block comment is never merged into |
| JavaParser.FindLine | comment_parser/parsers/java_parser.py:119-129 | the loop finds line `start_line - 1` of `splitlines()` exactly when it exists |
| JavaParser.MergeLineComment | comment_parser/parsers/java_parser.py:118-129 | a line comment whose line exists is merged when both lines are bare, and that line and its text become the previous ones; otherwise nothing changes |
| JavaParser.AppendComment | comment_parser/parsers/java_parser.py:118-131 | the list and previous line and text become those of `Appended`; the objects stay distinct |
| JavaParser.AddCommentObject | comment_parser/parsers/java_parser.py:118-131 | the state becomes `AddComment` of the comment: appended or merged, and blanked in the text |
| JavaParser.CollectCommentToken | comment_parser/parsers/java_parser.py:102-131 | one iteration for a comment token leaves the state as `CollectStep` defines |
| JavaParser.CollectComments | comment_parser/parsers/java_parser.py:99-131 | the loop's blanked text and list are those of `Collect` from `prev_line = ''` and `prev_comment_text = '-'`; all objects are distinct and new |
| JavaParser.CollectLength | comment_parser/parsers/java_parser.py:101-131 | the list never shrinks and grows by at most the number of comment tokens |
| JavaParser.CollectStepMerges | comment_parser/parsers/java_parser.py:118-131 | a block comment is appended as is; a line comment replaces the last comment by the joined one exactly when its line exists, both lines are bare, and the last comment is a line comment ending on the line before |
| JavaParser.FirstLineCommentNeverMerges | comment_parser/parsers/java_parser.py:99-124 | the first comment token is appended on its own |
| JavaParser.CollectMakesRecords | comment_parser/parsers/java_parser.py:102-131 | every collected comment has no nodes; a block comment spans exactly its text's newlines, and a line comment ends no earlier than it starts |
| JavaParser.CollectKeepsNewlines | comment_parser/parsers/java_parser.py:130-132 | when no right-stripped line token holds a newline, the blanked text has the file's newline count, which becomes `eof_line_number` |
| JavaParser.ExcerptPast | comment_parser/parsers/java_parser.py:31-32 | lines past the node's end add nothing, so the loop may stop there |
| JavaParser.ExcerptStep | comment_parser/parsers/java_parser.py:28-33 | a line in range adds itself and a newline; any other adds nothing |
| JavaParser.ExcerptLineCount | comment_parser/parsers/java_parser.py:26-33 | the excerpt has one newline per line in range, and is empty when no line is in range |
| JavaParser.NodeTextLines | comment_parser/parsers/java_parser.py:26-33 | a node's excerpt holds one newline per source line from its start to its end line, and is empty when the end is before the start |
| JavaParser.NodeText | comment_parser/parsers/java_parser.py:26-33 | the loop builds `Excerpt` of the node's lines |
| JavaParser.TagNodesAppends | comment_parser/parsers/java_parser.py:13-34 | tagging only appends to the node list; each entry is an eligible node of the tree with its excerpt up to `NodeEnd` (the line before its end position, the end line for a package declaration, `eof_line_number` without one), attached by `Attaches`: starting on the comment's last line, or on the line after as the first entry of a list that was empty |
| JavaParser.TagNodesTakesLastLine | comment_parser/parsers/java_parser.py:13-34 | every eligible node starting on the comment's last line is appended |
| JavaParser.TagNodesEmpty | comment_parser/parsers/java_parser.py:13-34 | the node list ends up empty exactly when it was empty and no eligible node starts on the comment's last line or the line after |
| JavaParser.TagComment | comment_parser/parsers/java_parser.py:13-34 | the loop over the tree leaves the comment as `TagNodes` says |
| JavaParser.TagComments | comment_parser/parsers/java_parser.py:12-34 | every comment is tagged as `TagNodes` says, independently of the others |
| JavaParser.TagEachAt | comment_parser/parsers/java_parser.py:12-34 | tagging a list tags each comment on its own, in place |
| JavaParser.ExtractComments | comment_parser/parsers/java_parser.py:99-132 | the comments are collected, then tagged against the blanked text, with its newline count as the last line |
| JavaParser.ExtractedFacts | comment_parser/parsers/java_parser.py:99-132 | at most one comment per comment token; each keeps its text and lines, and holds only eligible tree nodes starting on its last line or the line after, each with its excerpt |

## Left out

- Reading the file, and `FileError` (python_parser.py:170-184, java_parser.py:93-134): the file's content is a parameter.
- The error classes of common.py:5-17: `UnterminatedCommentError` is never raised by the core.
- `tokenize.generate_tokens` and the Java tokenizer: the model takes their tokens as input (type, string, row and, for Python, the physical line).
- The regular-expression engine: the matches of the two triple-quote patterns are inputs, as offsets into the blanked text. The model does not state which substrings the patterns accept.
- Parsing with `ast` and `asttokens`, `get_text`, and the `re.sub` that blanks docstrings in a node's text: a node carries its excerpt as the field `excerpt`.
- `ast.walk`: its order is an input sequence.
- Java syntax-tree iteration: the sequence of nodes it yields is an input. The unused `path` is dropped.
- PythonParser.TagComments: `hasattr(type(node.body), '__getitem__')` is modelled as "the `body` field is a list". `node.body[0].lineno` is assumed to exist (`WalkWellFormed`), since Python's grammar has no empty blocks.
- Node identity: nodes are compared structurally, not by object identity.
- Common.Comment.SetNodeList stores a copy of the given list, while common.py:77-79 stores the caller's list object, so later appends through either name would show in both. Nothing in the core appends to a list after handing it over.
- AppendDocstring uses the corrected `StartLine` (one more than the newlines before the match), so where python_parser.py:72 and :85 raise StopIteration, because no newline lies at or after the match's start, it appends a comment instead; see "## Findings".
- AppendDocstrings appends through `AppendDocstring`, so it returns a list where python_parser.py:72 and :85 raise StopIteration.
- ParseMultiLineComments runs both docstring loops through `AppendDocstrings`, so it returns a list where python_parser.py:72 and :85 raise StopIteration.
- ParseComments calls `ParseMultiLineComments`, so it returns a list where python_parser.py:72 and :85 raise StopIteration.
- ExtractComments, in `PythonParser`, calls `ParseComments`, so on a docstring with no newline at or after its start, such as a file that is `"""doc"""` with no final newline, it returns the tagged comments where the source raises StopIteration.
- The debug printing of java_parser.py:36-45 and the printing `visit_*` methods of ast_visitor.py:26-70 are not modelled, since they only produce output.
- comment_parser/comment_parser.py, the driver that picks a parser, is not part of this model.

## Findings

| source | as written | input that shows it | evidently intended | confidence | as-written member | corrected member |
|---|---|---|---|---|---|---|
| comment_parser/parsers/python_parser.py:72 | `next(i for i in range(len(line)) if line[i] > match.start(0))` has no default, so it raises StopIteration when no newline follows the match's start | a file that is one line `"""doc"""` with no final newline (line 85 has the same call for `'''`) | the match's line, 1 + the newlines before its start | not executed | PythonParser.StopIterationOnLastLine | PythonParser.StartLineIsLineOfOffset |
