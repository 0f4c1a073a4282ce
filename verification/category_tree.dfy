/** The conversion of the category forest into the node shape of the tree
    widget (apps/frontend/src/components/CategoryTree.tsx). */
module CategoryTree {
  /** A node's `children`: absent (undefined or null), or an array, which
      counts as present even when empty. */
  datatype Children = Missing | Present(nodes: seq<InNode>)

  /** A node as received. */
  datatype InNode = InNode(id: int, name: string, children: Children)

  /** `{ title, key, children }`. */
  datatype TreeNode = TreeNode(title: string, key: int, children: seq<TreeNode>)

  /** `t` is the widget node of `n` at every depth: same title as the name,
      same key as the id, and children that mirror `n`'s children one for
      one (none when they are absent). */
  predicate Mirrors(n: InNode, t: TreeNode)
    decreases n
  {
    t.title == n.name && t.key == n.id &&
    match n.children
    case Missing => t.children == []
    case Present(kids) =>
      |t.children| == |kids| && forall i :: 0 <= i < |kids| ==> Mirrors(kids[i], t.children[i])
  }

  /** `convert`: one tree node per input node, in the same order, each one
      mirroring its input node at every depth. */
  function Convert(nodes: seq<InNode>): (r: seq<TreeNode>)
    decreases nodes, 1
    ensures |r| == |nodes|
    ensures forall i :: 0 <= i < |nodes| ==> Mirrors(nodes[i], r[i])
  {
    seq(|nodes|, i requires 0 <= i < |nodes| => ConvertNode(nodes[i]))
  }

  function ConvertNode(n: InNode): (r: TreeNode)
    decreases n, 0
    ensures Mirrors(n, r)
  {
    match n.children
    case Missing => TreeNode(n.name, n.id, [])
    case Present(kids) => TreeNode(n.name, n.id, Convert(kids))
  }

  /** `Mirrors` fixes the whole widget tree: a node has exactly one mirror. */
  lemma {:induction false} MirrorIsUnique(n: InNode, t: TreeNode, u: TreeNode)
    requires Mirrors(n, t) && Mirrors(n, u)
    decreases n
    ensures t == u
  {
    match n.children
    case Missing =>
    case Present(kids) =>
      forall i | 0 <= i < |kids|
        ensures t.children[i] == u.children[i]
      {
        MirrorIsUnique(kids[i], t.children[i], u.children[i]);
      }
      assert t.children == u.children;
  }

  /** The number of nodes in a forest, counting every level. */
  function InCount(nodes: seq<InNode>): nat
    decreases nodes, 1
  {
    if nodes == [] then 0 else InNodeCount(nodes[0]) + InCount(nodes[1..])
  }

  function InNodeCount(n: InNode): nat
    decreases n, 0
  {
    match n.children
    case Missing => 1
    case Present(kids) => 1 + InCount(kids)
  }

  function TreeCount(nodes: seq<TreeNode>): nat
    decreases nodes, 1
  {
    if nodes == [] then 0 else TreeNodeCount(nodes[0]) + TreeCount(nodes[1..])
  }

  function TreeNodeCount(n: TreeNode): nat
    decreases n, 0
  {
    1 + TreeCount(n.children)
  }

  /** The conversion keeps the shape: as many nodes come out, at every
      level, as go in. */
  lemma {:induction false} ConvertKeepsCount(nodes: seq<InNode>)
    decreases nodes, 1
    ensures TreeCount(Convert(nodes)) == InCount(nodes)
  {
    if nodes != [] {
      var r := Convert(nodes);
      assert r[1..] == Convert(nodes[1..]);
      ConvertNodeKeepsCount(nodes[0]);
      ConvertKeepsCount(nodes[1..]);
    }
  }

  lemma {:induction false} ConvertNodeKeepsCount(n: InNode)
    decreases n, 0
    ensures TreeNodeCount(ConvertNode(n)) == InNodeCount(n)
  {
    match n.children
    case Missing =>
    case Present(kids) => ConvertKeepsCount(kids);
  }

  /** The conversion works node by node: converting two forests one after
      the other is converting their concatenation. */
  lemma ConvertAppend(a: seq<InNode>, b: seq<InNode>)
    ensures Convert(a + b) == Convert(a) + Convert(b)
  {
    assert forall i :: 0 <= i < |a + b| ==> Convert(a + b)[i] == (Convert(a) + Convert(b))[i];
  }
}
