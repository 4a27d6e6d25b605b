/** The records printed for a tree store (ux/grid/Printer.js:424-430): the
    root node's `cascadeBy` visits the tree in pre-order, and the callback
    pushes every visible node except a hidden root. */
module TreeRecords {

  /** A tree node: the record it carries, whether the framework reports it
      visible (`isVisible()`), and its children in order. */
  datatype Node = Node(record: nat, visible: bool, children: seq<Node>)

  /** The order in which `cascadeBy` calls its callback: a node, then each
      child's subtree in turn.  The callback never returns `false`, so no
      subtree is pruned, not even below a skipped node. */
  function PreOrder(n: Node): seq<Node>
    decreases n, 1
  {
    [n] + PreOrderAll(n.children)
  }

  function PreOrderAll(ns: seq<Node>): seq<Node>
    decreases ns, 0
  {
    if ns == [] then [] else PreOrder(ns[0]) + PreOrderAll(ns[1..])
  }

  /** The visible nodes of a list, in order. */
  function Visible(ns: seq<Node>): seq<Node>
    decreases |ns|
  {
    if ns == [] then []
    else (if ns[0].visible then [ns[0]] else []) + Visible(ns[1..])
  }

  /** The records list the walk builds: every visible node in pre-order, the
      root only when the grid shows it. */
  function Records(root: Node, rootVisible: bool): seq<Node>
  {
    (if rootVisible && root.visible then [root] else []) + Visible(PreOrderAll(root.children))
  }

  /** `Visible` keeps exactly the visible nodes. */
  lemma {:induction false} VisibleMembers(ns: seq<Node>)
    ensures forall n :: n in Visible(ns) <==> n in ns && n.visible
    decreases |ns|
  {
    if ns != [] {
      VisibleMembers(ns[1..]);
      assert forall n :: n in ns <==> n == ns[0] || n in ns[1..];
    }
  }

  lemma {:induction false} VisibleAppend(a: seq<Node>, b: seq<Node>)
    ensures Visible(a + b) == Visible(a) + Visible(b)
    decreases |a|
  {
    if a == [] {
      assert a + b == b;
    } else {
      var h := if a[0].visible then [a[0]] else [];
      assert (a + b)[0] == a[0];
      assert (a + b)[1..] == a[1..] + b;
      VisibleAppend(a[1..], b);
      assert Visible(a + b) == h + Visible(a[1..] + b);
      assert Visible(a) == h + Visible(a[1..]);
    }
  }

  /** The callback run on each node `cascadeBy` visits, for a node and the
      records collected so far. */
  method Visit(node: Node, isRoot: bool, rootVisible: bool, records: seq<Node>) returns (out: seq<Node>)
    ensures out == records + (if (isRoot && !rootVisible) || !node.visible then [] else [node])
  {
    out := records;
    if isRoot && !rootVisible {
      return;
    }
    if !node.visible {
      return;
    }
    out := out + [node];
  }

  /** `cascadeBy` on a subtree below the root: the callback on the node,
      then the walk of each child in turn. */
  method Cascade(node: Node, rootVisible: bool, records: seq<Node>) returns (out: seq<Node>)
    ensures out == records + Visible(PreOrder(node))
    decreases node
  {
    out := Visit(node, false, rootVisible, records);
    assert Visible([node]) == (if node.visible then [node] else []) + Visible([]);
    ghost var start := out;
    var cs := node.children;
    for i := 0 to |cs|
      invariant out == start + Visible(PreOrderAll(cs[..i]))
    {
      ghost var before := out;
      out := Cascade(cs[i], rootVisible, out);
      CascadeStep(cs, i);
      VisibleAppend(PreOrderAll(cs[..i]), PreOrder(cs[i]));
      assert out == start + (Visible(PreOrderAll(cs[..i])) + Visible(PreOrder(cs[i])));
    }
    assert cs[..|cs|] == cs;
    VisibleAppend([node], PreOrderAll(cs));
    assert PreOrder(node) == [node] + PreOrderAll(cs);
  }

  /** The walk at lines 425-430, started on the root node. */
  method CollectRecords(root: Node, rootVisible: bool) returns (records: seq<Node>)
    ensures records == Records(root, rootVisible)
  {
    records := Visit(root, true, rootVisible, []);
    ghost var start := records;
    var cs := root.children;
    for i := 0 to |cs|
      invariant records == start + Visible(PreOrderAll(cs[..i]))
    {
      records := Cascade(cs[i], rootVisible, records);
      CascadeStep(cs, i);
      VisibleAppend(PreOrderAll(cs[..i]), PreOrder(cs[i]));
    }
    assert cs[..|cs|] == cs;
  }

  /** Walking one more child extends the pre-order by that child's subtree. */
  lemma {:induction false} CascadeStep(cs: seq<Node>, i: nat)
    requires i < |cs|
    ensures PreOrderAll(cs[..i + 1]) == PreOrderAll(cs[..i]) + PreOrder(cs[i])
  {
    PreOrderAllAppend(cs[..i], [cs[i]]);
    assert cs[..i] + [cs[i]] == cs[..i + 1];
    assert PreOrderAll([cs[i]]) == PreOrder(cs[i]) + PreOrderAll([]);
  }

  lemma {:induction false} PreOrderAllAppend(a: seq<Node>, b: seq<Node>)
    ensures PreOrderAll(a + b) == PreOrderAll(a) + PreOrderAll(b)
    decreases |a|
  {
    if a == [] {
      assert a + b == b;
    } else {
      assert (a + b)[0] == a[0];
      assert (a + b)[1..] == a[1..] + b;
      PreOrderAllAppend(a[1..], b);
    }
  }

  /** The records are exactly the visible nodes of the whole pre-order walk,
      less the root when the grid hides it. */
  lemma RecordsAreVisiblePreOrder(root: Node, rootVisible: bool)
    ensures rootVisible ==> Records(root, rootVisible) == Visible(PreOrder(root))
    ensures !rootVisible ==> Records(root, rootVisible) == Visible(PreOrder(root)[1..])
  {
    VisibleAppend([root], PreOrderAll(root.children));
    assert PreOrder(root)[1..] == PreOrderAll(root.children);
  }

  /** A visible node below an invisible one is still printed: skipping a
      node does not skip its subtree. */
  lemma HiddenParentKeepsChild(child: Node, rootVisible: bool)
    requires child.visible
    ensures Records(Node(0, true, [Node(1, false, [child])]), rootVisible)
      == (if rootVisible then [Node(0, true, [Node(1, false, [child])])] else []) + Visible(PreOrder(child))
    ensures child in Records(Node(0, true, [Node(1, false, [child])]), rootVisible)
  {
    var hidden := Node(1, false, [child]);
    var root := Node(0, true, [hidden]);
    assert [hidden][1..] == [];
    assert PreOrderAll([]) == [];
    assert PreOrderAll([hidden]) == PreOrder(hidden) + PreOrderAll([]);
    assert PreOrderAll(root.children) == PreOrder(hidden);
    assert PreOrder(hidden) == [hidden] + PreOrderAll([child]);
    assert [child][1..] == [];
    assert PreOrderAll([child]) == PreOrder(child) + PreOrderAll([]);
    assert PreOrderAll([child]) == PreOrder(child);
    assert Visible([hidden]) == [] + Visible([]);
    VisibleAppend([hidden], PreOrder(child));
    assert Visible(PreOrder(child)) == [child] + Visible(PreOrderAll(child.children)) by {
      VisibleAppend([child], PreOrderAll(child.children));
      assert Visible([child]) == [child] + Visible([]);
    }
  }
}
