/** `getCategoryPath` of the transactions-with-details service
    (apps/backend/src/transactions_details/transactions_details.service.ts):
    the names from the root of a category's ancestor chain down to the
    category, joined by '/'. Each parent is looked up by its id and by the
    agent of the category being extended.

    The source recursion has no bound of its own; it ends because category
    chains end. Here the number of lookups a chain takes is an explicit
    `fuel`, and `ChainWithin` says that the chain ends within that many. */
module CategoryPaths {
  import opened Wrappers
  import opened JsText
  import opened Store

  /** The category names a parent: its `superCategoryId` is truthy. */
  predicate HasParent(c: Category) {
    c.superCategoryId.NonNull? && c.superCategoryId.value != 0
  }

  /** `category.findUnique({ where: { id: superCategoryId, agentId } })`. */
  function ParentOf(categories: seq<Category>, c: Category): (r: Option<Category>)
    requires HasParent(c)
    ensures r.Some? ==> r.value in categories && r.value.id == c.superCategoryId.value && r.value.agentId == c.agentId
    ensures r.None? <==> forall d :: d in categories ==> !(d.id == c.superCategoryId.value && d.agentId == c.agentId)
  {
    FindCategory(categories, c.superCategoryId.value, c.agentId)
  }

  /** The chain from `c` ends (at a root or at a parent that is not found)
      after at most `fuel` successful lookups. */
  predicate ChainWithin(categories: seq<Category>, c: Option<Category>, fuel: nat)
    decreases fuel
  {
    c.None? || !HasParent(c.value) || ParentOf(categories, c.value).None? ||
    (fuel > 0 && ChainWithin(categories, ParentOf(categories, c.value), fuel - 1))
  }

  /** Every stored category's chain ends within as many steps as there are
      categories: the parent links have no cycle. */
  predicate Acyclic(categories: seq<Category>) {
    forall c :: c in categories ==> ChainWithin(categories, Some(c), |categories|)
  }

  predicate EndsWith(s: string, suffix: string) {
    |suffix| <= |s| && s[|s| - |suffix|..] == suffix
  }

  /** A parent's path extended by a name: `parentPath + '/' + name`, or the
      name alone when the parent's path is empty. */
  function Extend(parentPath: string, name: string): (r: string)
    ensures parentPath == "" ==> r == name
    ensures parentPath != "" ==> |r| == |parentPath| + 1 + |name| && EndsWith(r, "/" + name) && r[..|parentPath|] == parentPath
  {
    if parentPath != "" then
      assert (parentPath + "/" + name)[|parentPath| + 1 - 1..] == "/" + name;
      parentPath + "/" + name
    else name
  }

  /** `getCategoryPath`. */
  function CategoryPath(categories: seq<Category>, c: Option<Category>, fuel: nat): (r: string)
    requires ChainWithin(categories, c, fuel)
    decreases fuel
    ensures c.None? ==> r == ""
    ensures c.Some? && !HasParent(c.value) ==> r == c.value.name
    ensures c.Some? && HasParent(c.value) && ParentOf(categories, c.value).None? ==> r == c.value.name
    ensures c.Some? ==> r == c.value.name || EndsWith(r, "/" + c.value.name)
  {
    if c.None? then ""
    else if !HasParent(c.value) then c.value.name
    else
      var parent := ParentOf(categories, c.value);
      var parentPath := if parent.None? then "" else CategoryPath(categories, parent, fuel - 1);
      Extend(parentPath, c.value.name)
  }

  /** A chain that ends within some fuel ends within any larger fuel. */
  lemma {:induction false} ChainWithinMonotone(categories: seq<Category>, c: Option<Category>, fuel: nat, more: nat)
    requires ChainWithin(categories, c, fuel) && fuel <= more
    decreases fuel
    ensures ChainWithin(categories, c, more)
  {
    if c.Some? && HasParent(c.value) && ParentOf(categories, c.value).Some? {
      ChainWithinMonotone(categories, ParentOf(categories, c.value), fuel - 1, more - 1);
    }
  }

  /** The path does not depend on the fuel, once the chain fits in it. */
  lemma {:induction false} CategoryPathFuelIrrelevant(categories: seq<Category>, c: Option<Category>, fuel: nat, more: nat)
    requires ChainWithin(categories, c, fuel) && fuel <= more
    decreases fuel
    ensures ChainWithin(categories, c, more)
    ensures CategoryPath(categories, c, fuel) == CategoryPath(categories, c, more)
  {
    ChainWithinMonotone(categories, c, fuel, more);
    if c.Some? && HasParent(c.value) && ParentOf(categories, c.value).Some? {
      var parent := ParentOf(categories, c.value);
      assert fuel > 0 && ChainWithin(categories, parent, fuel - 1);
      CategoryPathFuelIrrelevant(categories, parent, fuel - 1, more - 1);
      assert CategoryPath(categories, c, fuel) == Extend(CategoryPath(categories, parent, fuel - 1), c.value.name);
      assert CategoryPath(categories, c, more) == Extend(CategoryPath(categories, parent, more - 1), c.value.name);
    }
  }

  /** The names along the chain, root first, ending with `c`'s own name. */
  function ChainNames(categories: seq<Category>, c: Category, fuel: nat): (r: seq<string>)
    requires ChainWithin(categories, Some(c), fuel)
    decreases fuel
    ensures |r| > 0 && r[|r| - 1] == c.name
  {
    if !HasParent(c) || ParentOf(categories, c).None? then [c.name]
    else ChainNames(categories, ParentOf(categories, c).value, fuel - 1) + [c.name]
  }

  /** When no name on the chain is empty, the path is the chain's names
      joined by '/'. */
  lemma {:induction false} CategoryPathIsJoinedChain(categories: seq<Category>, c: Category, fuel: nat)
    requires ChainWithin(categories, Some(c), fuel)
    requires forall d :: d in categories ==> d.name != ""
    requires c.name != ""
    decreases fuel
    ensures CategoryPath(categories, Some(c), fuel) == Join(ChainNames(categories, c, fuel), "/")
  {
    if HasParent(c) && ParentOf(categories, c).Some? {
      var p := ParentOf(categories, c).value;
      CategoryPathIsJoinedChain(categories, p, fuel - 1);
      JoinSnoc(ChainNames(categories, p, fuel - 1), c.name, "/");
    }
  }

  /** In a store without cycles, a category whose agent is overridden with
      the caller's (`{ ...category, agentId }`) has a chain within one more
      step than there are categories: its first lookup lands on a stored
      row, whose own chain ends within |categories|. */
  lemma OverriddenAgentChainEnds(categories: seq<Category>, c: Category, agentId: int)
    requires Acyclic(categories)
    ensures ChainWithin(categories, Some(c.(agentId := agentId)), |categories| + 1)
  {
    var c' := c.(agentId := agentId);
    if HasParent(c') && ParentOf(categories, c').Some? {
      assert ChainWithin(categories, ParentOf(categories, c'), |categories|);
    }
  }
}
