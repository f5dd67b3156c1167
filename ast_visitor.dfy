/**
 * Python syntax trees as the visitor sees them, and the visitor's search
 * for the first node, in pre-order, that starts on a given line.
 */
module AstVisitor {
  import opened Wrappers

  /**
   * An `ast.AST` node: its class name, its `lineno` (absent for nodes such as
   * `Module` or operators), its fields in `ast.iter_fields` order, and the
   * code excerpt the tagging pass records for it (the node's source text
   * with its docstrings blanked, computed by the parser library). The kind
   * is the name of the class `isinstance` tests against, so a string constant
   * has kind "Str" whether it comes from `ast.Str` or, on Python 3.8 and
   * later, from an `ast.Constant` holding a `str`.
   */
  datatype PyNode = PyNode(kind: string, lineno: Option<int>, fields: seq<Field>, excerpt: string)

  datatype Field = Field(name: string, value: FieldValue)

  /** A field holds one node, a list, or something else (a string, a number, None). */
  datatype FieldValue = NodeValue(node: PyNode) | ListValue(items: seq<Item>) | OtherValue

  /** A list item is a node or something else. */
  datatype Item = NodeItem(node: PyNode) | OtherItem

  /** The nodes of the tree in pre-order: the node itself, then its fields in order, list items in order. */
  function PreOrder(n: PyNode): seq<PyNode>
  {
    [n] + FieldsPreOrder(n.fields)
  }

  function FieldsPreOrder(fs: seq<Field>): seq<PyNode>
  {
    if fs == [] then [] else FieldsPreOrder(fs[..|fs| - 1]) + ValuePreOrder(fs[|fs| - 1].value)
  }

  function ValuePreOrder(v: FieldValue): seq<PyNode>
  {
    match v
    case NodeValue(c) => PreOrder(c)
    case ListValue(items) => ItemsPreOrder(items)
    case OtherValue => []
  }

  function ItemsPreOrder(items: seq<Item>): seq<PyNode>
  {
    if items == [] then [] else ItemsPreOrder(items[..|items| - 1]) + ItemPreOrder(items[|items| - 1])
  }

  function ItemPreOrder(it: Item): seq<PyNode>
  {
    match it
    case NodeItem(c) => PreOrder(c)
    case OtherItem => []
  }

  /** The index of the first node of `ns` whose `lineno` is `line`. */
  function FirstIndexOnLine(ns: seq<PyNode>, line: int): (r: Option<nat>)
    ensures r.Some? ==> r.value < |ns| && ns[r.value].lineno == Some(line)
    ensures r.Some? ==> forall j :: 0 <= j < r.value ==> ns[j].lineno != Some(line)
    ensures r.None? ==> forall j :: 0 <= j < |ns| ==> ns[j].lineno != Some(line)
  {
    if ns == [] then None
    else if ns[0].lineno == Some(line) then Some(0)
    else match FirstIndexOnLine(ns[1..], line)
      case None => None
      case Some(i) => Some(i + 1)
  }

  /** The first index is determined by where the first match is. */
  lemma FirstIndexIs(ns: seq<PyNode>, line: int, k: nat)
    requires k < |ns| && ns[k].lineno == Some(line)
    requires forall j :: 0 <= j < k ==> ns[j].lineno != Some(line)
    ensures FirstIndexOnLine(ns, line) == Some(k)
  {
  }

  /** The first index in `a + b` comes from `a` if `a` has a match, and from `b` otherwise. */
  lemma {:induction false} FirstIndexConcat(a: seq<PyNode>, b: seq<PyNode>, line: int)
    ensures FirstIndexOnLine(a, line).Some? ==> FirstIndexOnLine(a + b, line) == FirstIndexOnLine(a, line)
    ensures FirstIndexOnLine(a, line).None? && FirstIndexOnLine(b, line).Some? ==>
              FirstIndexOnLine(a + b, line) == Some(|a| + FirstIndexOnLine(b, line).value)
    ensures FirstIndexOnLine(a, line).None? && FirstIndexOnLine(b, line).None? ==>
              FirstIndexOnLine(a + b, line).None?
  {
    var ab := a + b;
    match FirstIndexOnLine(a, line)
    case Some(i) =>
      assert ab[i] == a[i];
      assert forall j :: 0 <= j < i ==> ab[j] == a[j];
      FirstIndexIs(ab, line, i);
    case None =>
      assert forall j :: 0 <= j < |a| ==> ab[j] == a[j];
      match FirstIndexOnLine(b, line)
      case Some(i) =>
        assert ab[|a| + i] == b[i];
        assert forall j :: |a| <= j < |a| + i ==> ab[j] == b[j - |a|];
        FirstIndexIs(ab, line, |a| + i);
      case None =>
        assert forall j :: |a| <= j < |ab| ==> ab[j] == b[j - |a|];
  }

  /**
   * `visitor.get_node_at_line(root, line)` on a fresh visitor: the first node
   * of the tree, in pre-order, whose `lineno` is `line`, or None.
   */
  function FirstAt(root: PyNode, line: int): (r: Option<PyNode>)
    ensures r.Some? ==> r.value.lineno == Some(line) && r.value in PreOrder(root)
    ensures r.None? <==> forall n :: n in PreOrder(root) ==> n.lineno != Some(line)
  {
    var ns := PreOrder(root);
    match FirstIndexOnLine(ns, line)
    case None => None
    case Some(i) => Some(ns[i])
  }

  /**
   * What the visitor's `_found_node` and `_result` become once it has
   * looked at the nodes `ns` in turn: after the first match nothing changes.
   */
  function AfterVisiting(found: bool, result: Option<PyNode>, ns: seq<PyNode>, line: int): (bool, Option<PyNode>)
  {
    if found then (found, result)
    else match FirstIndexOnLine(ns, line)
      case None => (false, result)
      case Some(i) => (true, Some(ns[i]))
  }

  lemma AfterVisitingConcat(found: bool, result: Option<PyNode>, a: seq<PyNode>, b: seq<PyNode>, line: int)
    ensures var mid := AfterVisiting(found, result, a, line);
            AfterVisiting(mid.0, mid.1, b, line) == AfterVisiting(found, result, a + b, line)
  {
    FirstIndexConcat(a, b, line);
    if !found {
      if FirstIndexOnLine(a, line).Some? {
        var i := FirstIndexOnLine(a, line).value;
        assert (a + b)[i] == a[i];
      } else if FirstIndexOnLine(b, line).Some? {
        var i := FirstIndexOnLine(b, line).value;
        assert (a + b)[|a| + i] == b[i];
      }
    }
  }

  /**
   * Once a node is found, later nodes never overwrite the result, and a
   * fresh visitor (nothing found, result None) ends with `FirstAt`.
   */
  lemma {:induction false} FirstMatchWins(result: Option<PyNode>, root: PyNode, line: int)
    ensures AfterVisiting(true, result, PreOrder(root), line) == (true, result)
    ensures AfterVisiting(false, None, PreOrder(root), line) == (FirstAt(root, line).Some?, FirstAt(root, line))
  {
  }

  /** Every node of `fs[i]`'s value is visited as part of the fields `fs`. */
  lemma {:induction false} FieldsPreOrderContains(fs: seq<Field>, i: nat, x: PyNode)
    requires i < |fs| && x in ValuePreOrder(fs[i].value)
    ensures x in FieldsPreOrder(fs)
  {
    if i < |fs| - 1 {
      FieldsPreOrderContains(fs[..|fs| - 1], i, x);
    }
  }

  lemma {:induction false} ItemsPreOrderContains(items: seq<Item>, j: nat, x: PyNode)
    requires j < |items| && x in ItemPreOrder(items[j])
    ensures x in ItemsPreOrder(items)
  {
    if j < |items| - 1 {
      ItemsPreOrderContains(items[..|items| - 1], j, x);
    }
  }

  lemma FieldsPreOrderStep(fs: seq<Field>, i: nat)
    requires i < |fs|
    ensures FieldsPreOrder(fs[..i + 1]) == FieldsPreOrder(fs[..i]) + ValuePreOrder(fs[i].value)
  {
    assert fs[..i + 1][..i] == fs[..i];
  }

  lemma ItemsPreOrderStep(items: seq<Item>, j: nat)
    requires j < |items|
    ensures ItemsPreOrder(items[..j + 1]) == ItemsPreOrder(items[..j]) + ItemPreOrder(items[j])
  {
    assert items[..j + 1][..j] == items[..j];
  }

  /** `child` is held by a field of `parent`, directly or as a list item. */
  predicate IsChild(parent: PyNode, child: PyNode)
  {
    exists i :: 0 <= i < |parent.fields| &&
      (parent.fields[i].value == NodeValue(child) ||
       (parent.fields[i].value.ListValue? && NodeItem(child) in parent.fields[i].value.items))
  }

  /**
   * The search goes into every node child, whether or not the parent has a
   * `lineno`: a match below a child is a match below the parent.
   */
  lemma ChildrenAreSearched(parent: PyNode, child: PyNode, line: int)
    requires IsChild(parent, child)
    requires FirstAt(child, line).Some?
    ensures FirstAt(parent, line).Some?
  {
    var x := FirstAt(child, line).value;
    var i :| 0 <= i < |parent.fields| &&
      (parent.fields[i].value == NodeValue(child) ||
       (parent.fields[i].value.ListValue? && NodeItem(child) in parent.fields[i].value.items));
    if parent.fields[i].value != NodeValue(child) {
      var items := parent.fields[i].value.items;
      var j :| 0 <= j < |items| && items[j] == NodeItem(child);
      ItemsPreOrderContains(items, j, x);
    }
    FieldsPreOrderContains(parent.fields, i, x);
    assert x in PreOrder(parent);
  }

  /**
   * The visitor of `ast_visitor.py`. Its `_ast_tokens` is used only by the
   * printing `visit_*` methods, which are not modelled.
   */
  class Visitor {
    var result: Option<PyNode>
    var foundNode: bool

    constructor ()
      ensures result == None && !foundNode
    {
      result := None;
      foundNode := false;
    }

    /**
     * `get_node_at_line(root, line)`: walks the tree in pre-order; the first
     * node with `lineno == line` sets `_found_node` and `_result`, and the
     * method returns `_result`.
     */
    method GetNodeAtLine(root: PyNode, line: int) returns (r: Option<PyNode>)
      modifies this
      ensures (foundNode, result) == AfterVisiting(old(foundNode), old(result), PreOrder(root), line)
      ensures r == result
      decreases root
    {
      if root.lineno.Some? && !foundNode {
        if root.lineno.value == line {
          foundNode := true;
          result := Some(root);
        }
      }
      for i := 0 to |root.fields|
        invariant (foundNode, result) == AfterVisiting(old(foundNode), old(result), [root] + FieldsPreOrder(root.fields[..i]), line)
      {
        ghost var before := [root] + FieldsPreOrder(root.fields[..i]);
        FieldsPreOrderStep(root.fields, i);
        var value := root.fields[i].value;
        assert [root] + FieldsPreOrder(root.fields[..i + 1]) == before + ValuePreOrder(value);
        if value.NodeValue? {
          var ignored := GetNodeAtLine(value.node, line);
          AfterVisitingConcat(old(foundNode), old(result), before, PreOrder(value.node), line);
        } else if value.ListValue? {
          VisitItems(value, line);
          AfterVisitingConcat(old(foundNode), old(result), before, ValuePreOrder(value), line);
        } else {
          assert before + ValuePreOrder(value) == before;
        }
      }
      assert root.fields[..|root.fields|] == root.fields;
      r := result;
    }

    /** The inner loop of `get_node_at_line`, over the items of a list-valued field. */
    method VisitItems(value: FieldValue, line: int)
      requires value.ListValue?
      modifies this
      ensures (foundNode, result) == AfterVisiting(old(foundNode), old(result), ValuePreOrder(value), line)
      decreases value
    {
      var items := value.items;
      for j := 0 to |items|
        invariant (foundNode, result) == AfterVisiting(old(foundNode), old(result), ItemsPreOrder(items[..j]), line)
      {
        ghost var seen := ItemsPreOrder(items[..j]);
        ItemsPreOrderStep(items, j);
        if items[j].NodeItem? {
          var ignored := GetNodeAtLine(items[j].node, line);
          AfterVisitingConcat(old(foundNode), old(result), seen, PreOrder(items[j].node), line);
        } else {
          assert seen + ItemPreOrder(items[j]) == seen;
        }
      }
      assert items[..|items|] == items;
    }
  }
}
