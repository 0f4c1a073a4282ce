/** The category forest builder (`findAllTree`,
    apps/backend/src/categories/categories.service.ts).

    The source fills a `Map` from id to node and then pushes every node into
    the `children` array of its parent, or into `tree` when it has no parent;
    the nodes are shared objects, so a child pushed into a parent is seen
    through every reference to that parent. Here the map is an id-indexed
    `map` of nodes whose `children` hold child ids, and `tree` holds the ids
    of the roots: following ids from `tree` through `nodes` gives the object
    graph the source builds. */
module CategoriesService {
  import opened Wrappers

  /** The columns `findAllTree` selects. */
  datatype CategoryRow = CategoryRow(id: int, name: string, superCategoryId: Nullable<int>)

  /** A node of the result: the row with `superCategoryId ?? undefined` and
      the ids of its children. */
  datatype CategoryNode = CategoryNode(id: int, name: string, superCategoryId: Option<int>, children: seq<int>)

  /** The parent a row names: its `superCategoryId` when truthy (not null, not 0). */
  function ParentId(c: CategoryRow): (r: Option<int>)
    ensures r.Some? <==> c.superCategoryId.NonNull? && c.superCategoryId.value != 0
    ensures r.Some? ==> r.value == c.superCategoryId.value
  {
    if c.superCategoryId.NonNull? && c.superCategoryId.value != 0 then Some(c.superCategoryId.value) else None
  }

  /** The ids of the rows that become roots, in input order. */
  function RootIds(cats: seq<CategoryRow>): seq<int>
  {
    if cats == [] then []
    else RootIds(cats[..|cats| - 1]) + (if ParentId(cats[|cats| - 1]).None? then [cats[|cats| - 1].id] else [])
  }

  /** The ids of the rows that name `p` as their parent, in input order. */
  function ChildIds(cats: seq<CategoryRow>, p: int): seq<int>
  {
    if cats == [] then []
    else ChildIds(cats[..|cats| - 1], p) + (if ParentId(cats[|cats| - 1]) == Some(p) then [cats[|cats| - 1].id] else [])
  }

  /** The ids of all rows. */
  function Ids(cats: seq<CategoryRow>): set<int> {
    set c | c in cats :: c.id
  }

  /** The node of row `c` with the given children. */
  function NodeOf(c: CategoryRow, children: seq<int>): CategoryNode {
    CategoryNode(c.id, c.name, c.superCategoryId.OrUndefined(), children)
  }

  /** The rows come ordered by ascending id, and ids are unique. */
  predicate AscendingIds(cats: seq<CategoryRow>) {
    forall i, j :: 0 <= i < j < |cats| ==> cats[i].id < cats[j].id
  }

  /** `findAllTree`. Every root row, in input order, is in `tree`; every row
      has a node, whose `children` are the rows naming it as parent, in
      input order. */
  method FindAllTree(cats: seq<CategoryRow>) returns (tree: seq<int>, nodes: map<int, CategoryNode>)
    requires AscendingIds(cats)
    ensures tree == RootIds(cats)
    ensures nodes.Keys == Ids(cats)
    ensures forall c :: c in cats ==> nodes[c.id] == NodeOf(c, ChildIds(cats, c.id))
  {
    nodes := InitialNodes(cats);
    assert NodesAfter(cats, 0, nodes);
    tree := [];
    var i := 0;
    while i < |cats|
      invariant 0 <= i <= |cats|
      invariant tree == RootIds(cats[..i])
      invariant NodesAfter(cats, i, nodes)
    {
      var c := cats[i];
      assert cats[..i + 1][..i] == cats[..i];
      var parent := ParentId(c);
      if parent.Some? {
        if parent.value in nodes {
          var p := nodes[parent.value];
          PushChildStep(cats, i, nodes);
          nodes := nodes[parent.value := p.(children := p.children + [c.id])];
        } else {
          OrphanStep(cats, i, nodes);
        }
      } else {
        RootStep(cats, i, nodes);
        tree := tree + [c.id];
      }
      i := i + 1;
    }
    assert cats[..i] == cats;
  }

  /** The first loop of `findAllTree`: a node without children for every
      row, under its id. */
  method InitialNodes(cats: seq<CategoryRow>) returns (nodes: map<int, CategoryNode>)
    requires AscendingIds(cats)
    ensures nodes.Keys == Ids(cats)
    ensures forall j :: 0 <= j < |cats| ==> nodes[cats[j].id] == NodeOf(cats[j], [])
  {
    nodes := map[];
    var i := 0;
    while i < |cats|
      invariant 0 <= i <= |cats|
      invariant nodes.Keys == Ids(cats[..i])
      invariant forall j :: 0 <= j < i ==> nodes[cats[j].id] == NodeOf(cats[j], [])
    {
      nodes := nodes[cats[i].id := NodeOf(cats[i], [])];
      assert cats[..i + 1] == cats[..i] + [cats[i]];
      i := i + 1;
    }
    assert cats[..i] == cats;
  }

  /** The node map after the second loop has handled the first `i` rows. */
  ghost predicate NodesAfter(cats: seq<CategoryRow>, i: int, nodes: map<int, CategoryNode>)
    requires 0 <= i <= |cats|
  {
    nodes.Keys == Ids(cats) &&
    forall j :: 0 <= j < |cats| ==> nodes[cats[j].id] == NodeOf(cats[j], ChildIds(cats[..i], cats[j].id))
  }

  /** Pushing row `i` into the children of its parent, which has a node. */
  lemma PushChildStep(cats: seq<CategoryRow>, i: int, nodes: map<int, CategoryNode>)
    requires 0 <= i < |cats| && NodesAfter(cats, i, nodes)
    requires ParentId(cats[i]).Some? && ParentId(cats[i]).value in nodes
    ensures var p := nodes[ParentId(cats[i]).value];
      NodesAfter(cats, i + 1, nodes[ParentId(cats[i]).value := p.(children := p.children + [cats[i].id])])
  {
    var k := ParentId(cats[i]).value;
    var p := nodes[k];
    var nodes' := nodes[k := p.(children := p.children + [cats[i].id])];
    forall j | 0 <= j < |cats|
      ensures nodes'[cats[j].id] == NodeOf(cats[j], ChildIds(cats[..i + 1], cats[j].id))
    {
      ChildIdsSnoc(cats, i, cats[j].id);
    }
  }

  /** Row `i` names a parent without a node: nothing changes. */
  lemma OrphanStep(cats: seq<CategoryRow>, i: int, nodes: map<int, CategoryNode>)
    requires 0 <= i < |cats| && NodesAfter(cats, i, nodes)
    requires ParentId(cats[i]).Some? && ParentId(cats[i]).value !in nodes
    ensures NodesAfter(cats, i + 1, nodes)
  {
    forall j | 0 <= j < |cats|
      ensures nodes[cats[j].id] == NodeOf(cats[j], ChildIds(cats[..i + 1], cats[j].id))
    {
      ChildIdsSnoc(cats, i, cats[j].id);
      assert cats[j].id in Ids(cats);
    }
  }

  /** Row `i` is a root: no node's children change. */
  lemma RootStep(cats: seq<CategoryRow>, i: int, nodes: map<int, CategoryNode>)
    requires 0 <= i < |cats| && NodesAfter(cats, i, nodes)
    requires ParentId(cats[i]).None?
    ensures NodesAfter(cats, i + 1, nodes)
  {
    forall j | 0 <= j < |cats|
      ensures nodes[cats[j].id] == NodeOf(cats[j], ChildIds(cats[..i + 1], cats[j].id))
    {
      ChildIdsSnoc(cats, i, cats[j].id);
    }
  }

  /** Extending the prefix by one row extends only the children of that row's parent. */
  lemma ChildIdsSnoc(cats: seq<CategoryRow>, i: int, k: int)
    requires 0 <= i < |cats|
    ensures ChildIds(cats[..i + 1], k) ==
      ChildIds(cats[..i], k) + (if ParentId(cats[i]) == Some(k) then [cats[i].id] else [])
  {
    assert cats[..i + 1][..i] == cats[..i];
  }

  /** An id is a root id exactly when some row with that id has no parent. */
  lemma {:induction false} RootIdsIff(cats: seq<CategoryRow>, x: int)
    ensures x in RootIds(cats) <==> exists c :: c in cats && c.id == x && ParentId(c).None?
  {
    if cats != [] {
      var init := cats[..|cats| - 1];
      RootIdsIff(init, x);
      assert cats == init + [cats[|cats| - 1]];
    }
  }

  /** An id is among `p`'s children exactly when some row with that id names `p`. */
  lemma {:induction false} ChildIdsIff(cats: seq<CategoryRow>, p: int, x: int)
    ensures x in ChildIds(cats, p) <==> exists c :: c in cats && c.id == x && ParentId(c) == Some(p)
  {
    if cats != [] {
      var init := cats[..|cats| - 1];
      ChildIdsIff(init, p, x);
      assert cats == init + [cats[|cats| - 1]];
    }
  }

  /** With ascending input, the roots come out in ascending id order. */
  lemma {:induction false} RootIdsAscending(cats: seq<CategoryRow>)
    requires AscendingIds(cats)
    ensures forall i, j :: 0 <= i < j < |RootIds(cats)| ==> RootIds(cats)[i] < RootIds(cats)[j]
  {
    if cats != [] {
      var init := cats[..|cats| - 1];
      var last := cats[|cats| - 1];
      RootIdsAscending(init);
      var r := RootIds(init);
      forall k | 0 <= k < |r| ensures r[k] < last.id {
        RootIdsIff(init, r[k]);
        var c :| c in init && c.id == r[k] && ParentId(c).None?;
        var m :| 0 <= m < |init| && init[m] == c;
      }
    }
  }

  /** A row whose parent id names no row of the input is dropped: it is
      neither a root nor anybody's child. */
  lemma OrphanIsDropped(cats: seq<CategoryRow>, c: CategoryRow)
    requires AscendingIds(cats)
    requires c in cats && ParentId(c).Some? && ParentId(c).value !in Ids(cats)
    ensures c.id !in RootIds(cats)
    ensures forall p :: p in Ids(cats) ==> c.id !in ChildIds(cats, p)
  {
    RootIdsIff(cats, c.id);
    forall p | p in Ids(cats) ensures c.id !in ChildIds(cats, p) {
      ChildIdsIff(cats, p, c.id);
      if c.id in ChildIds(cats, p) {
        var d :| d in cats && d.id == c.id && ParentId(d) == Some(p);
        SameIdSameRow(cats, c, d);
      }
    }
  }

  /** A row with a parent in the input is one of exactly that parent's children. */
  lemma ChildOfItsParentOnly(cats: seq<CategoryRow>, c: CategoryRow)
    requires AscendingIds(cats)
    requires c in cats && ParentId(c).Some?
    ensures c.id in ChildIds(cats, ParentId(c).value)
    ensures forall p :: p != ParentId(c).value ==> c.id !in ChildIds(cats, p)
    ensures c.id !in RootIds(cats)
  {
    ChildIdsIff(cats, ParentId(c).value, c.id);
    RootIdsIff(cats, c.id);
    if exists d :: d in cats && d.id == c.id && ParentId(d).None? {
      var d :| d in cats && d.id == c.id && ParentId(d).None?;
      SameIdSameRow(cats, c, d);
    }
    forall p | p != ParentId(c).value ensures c.id !in ChildIds(cats, p) {
      ChildIdsIff(cats, p, c.id);
      if c.id in ChildIds(cats, p) {
        var d :| d in cats && d.id == c.id && ParentId(d) == Some(p);
        SameIdSameRow(cats, c, d);
      }
    }
  }

  /** Each row is placed at most once: a root is nobody's child. */
  lemma RootIsNobodysChild(cats: seq<CategoryRow>, c: CategoryRow)
    requires AscendingIds(cats)
    requires c in cats && ParentId(c).None?
    ensures c.id in RootIds(cats)
    ensures forall p :: c.id !in ChildIds(cats, p)
  {
    RootIdsIff(cats, c.id);
    forall p ensures c.id !in ChildIds(cats, p) {
      ChildIdsIff(cats, p, c.id);
      if c.id in ChildIds(cats, p) {
        var d :| d in cats && d.id == c.id && ParentId(d) == Some(p);
        SameIdSameRow(cats, c, d);
      }
    }
  }

  /** Ids identify rows. */
  lemma SameIdSameRow(cats: seq<CategoryRow>, c: CategoryRow, d: CategoryRow)
    requires AscendingIds(cats)
    requires c in cats && d in cats && c.id == d.id
    ensures c == d
  {
    var i :| 0 <= i < |cats| && cats[i] == c;
    var j :| 0 <= j < |cats| && cats[j] == d;
    assert i == j;
  }
}
