/**
 * The comment record shared by every parser: its text, the lines it spans,
 * whether it was a block comment, and the list of (node, code excerpt)
 * pairs the tagging pass appends to.
 */
module Common {

  /** The value of a comment's fields at one moment. */
  datatype CommentData<N> = CommentData(
    text: string,
    startLine: int,
    endLine: int,
    multiline: bool,
    nodes: seq<(N, string)>)

  /**
   * A comment found in a source file. The fields are the object's state;
   * `node_list()` hands out the stored list, and callers append to it in
   * place, which `AppendNode` models.
   */
  class Comment<N(==)> {
    var text: string
    var startLine: int
    var endLine: int
    var multiline: bool
    var nodeList: seq<(N, string)>

    /** A new comment; `multiline` is false unless given, and the node list starts empty. */
    constructor (text: string, startLine: int, endLine: int, multiline: bool := false)
      ensures Text() == text && StartLine() == startLine && EndLine() == endLine
      ensures IsMultiline() == multiline && NodeList() == []
    {
      this.text := text;
      this.startLine := startLine;
      this.endLine := endLine;
      this.multiline := multiline;
      this.nodeList := [];
    }

    /** `text()`: the comment's text. */
    function Text(): (r: string)
      reads this
      ensures r == Data().text
    {
      text
    }

    /** `start_line()`: the line the comment starts on. */
    function StartLine(): (r: int)
      reads this
      ensures r == Data().startLine
    {
      startLine
    }

    /** `end_line()`: the line the comment ends on. */
    function EndLine(): (r: int)
      reads this
      ensures r == Data().endLine
    {
      endLine
    }

    /** `is_multiline()`: whether it was a block comment. */
    function IsMultiline(): (r: bool)
      reads this
      ensures r == Data().multiline
    {
      multiline
    }

    /** `node_list()`: the node entries appended so far. */
    function NodeList(): (r: seq<(N, string)>)
      reads this
      ensures r == Data().nodes
    {
      nodeList
    }

    /** All fields together. */
    function Data(): CommentData<N>
      reads this
    {
      CommentData(text, startLine, endLine, multiline, nodeList)
    }

    /** Replaces the node list; no other field changes. */
    method SetNodeList(nodes: seq<(N, string)>)
      modifies this
      ensures NodeList() == nodes
      ensures Text() == old(Text()) && StartLine() == old(StartLine()) && EndLine() == old(EndLine())
      ensures IsMultiline() == old(IsMultiline())
    {
      nodeList := nodes;
    }

    /** `node_list().append(entry)`: the appended entry is seen by every later `NodeList()`. */
    method AppendNode(entry: (N, string))
      modifies this
      ensures NodeList() == old(NodeList()) + [entry]
      ensures Data() == old(Data()).(nodes := old(NodeList()) + [entry])
    {
      nodeList := nodeList + [entry];
    }

    /** `str(comment)` is the comment's text. */
    function ToString(): (r: string)
      reads this
      ensures r == Text()
    {
      text
    }

    /** `__eq__`: another comment object whose every field, node list included, is equal. */
    function Equals(other: Comment?<N>): (r: bool)
      reads this, other
      ensures r <==> other != null && Text() == other.Text() && StartLine() == other.StartLine()
                     && EndLine() == other.EndLine() && IsMultiline() == other.IsMultiline()
                     && NodeList() == other.NodeList()
    {
      other != null && Data() == other.Data()
    }
  }

  /** The field values of a list of comments, in order. */
  function Values<N(==)>(cs: seq<Comment<N>>): (vs: seq<CommentData<N>>)
    reads cs
    ensures |vs| == |cs|
    ensures forall i :: 0 <= i < |cs| ==> vs[i] == cs[i].Data()
  {
    if cs == [] then [] else Values(cs[..|cs| - 1]) + [cs[|cs| - 1].Data()]
  }

  lemma ValuesAppend<N>(cs: seq<Comment<N>>, c: Comment<N>)
    ensures Values(cs + [c]) == Values(cs) + [c.Data()]
  {
    assert (cs + [c])[..|cs|] == cs;
  }

  /** Every element of a prefix is an element of the list. */
  lemma PrefixMembers<T>(s: seq<T>, t: seq<T>)
    requires s <= t
    ensures forall x :: x in s ==> x in t
  {
    forall x | x in s ensures x in t {
      var i :| 0 <= i < |s| && s[i] == x;
      assert t[i] == x;
    }
  }

  /** No comment object occurs twice in the list. */
  predicate Distinct<T(==)>(s: seq<T>)
  {
    forall i, j :: 0 <= i < j < |s| ==> s[i] != s[j]
  }

  lemma DistinctAppend<T>(s: seq<T>, t: seq<T>, x: T)
    requires Distinct(s) && t <= s && x !in t
    ensures Distinct(t + [x])
  {
    assert forall i :: 0 <= i < |t| ==> t[i] == s[i];
  }

  lemma {:induction false} DistinctMultiplicity<T>(s: seq<T>, x: T)
    requires Distinct(s)
    ensures multiset(s)[x] <= 1
  {
    if s != [] {
      var init, last := s[..|s| - 1], s[|s| - 1];
      assert s == init + [last];
      DistinctMultiplicity(init, x);
      if x == last {
        assert x !in init;
      }
    }
  }

  /** Reordering a list of distinct objects keeps them distinct. */
  lemma DistinctPermutation<T>(a: seq<T>, b: seq<T>)
    requires Distinct(a) && multiset(a) == multiset(b)
    ensures Distinct(b)
  {
    forall i, j | 0 <= i < j < |b| ensures b[i] != b[j] {
      if b[i] == b[j] {
        var x := b[i];
        assert b == b[..j] + [x] + b[j + 1..];
        assert x in b[..j];
        assert multiset(b)[x] >= 2;
        DistinctMultiplicity(a, x);
        assert false;
      }
    }
  }
}
