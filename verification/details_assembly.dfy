/** The per-request category-path cache and the DTO assembly of the
    transactions-with-details query (`findAll`,
    apps/backend/src/transactions_details/transactions_details.service.ts),
    and `findAll` itself: build the `where` object, let the store select,
    post-filter, cache the categories, assemble the DTOs. */
module DetailsAssembly {
  import opened Wrappers
  import opened Store
  import opened PrismaDto
  import opened CategoryPaths
  import opened DetailsQuery
  import opened DetailsPostFilter

  /** The non-null categories of some details' products, in order. */
  function CategoriesOf(details: seq<FetchedDetail>): (r: seq<Category>)
    ensures forall c :: c in r <==> exists d :: d in details && d.productOrService.category == NonNull(c)
  {
    if details == [] then []
    else
      (if details[0].productOrService.category.NonNull? then [details[0].productOrService.category.value] else [])
      + CategoriesOf(details[1..])
  }

  /** `flatMap(tx => tx.details).map(d => d.productOrService?.category).filter(cat => !!cat)`. */
  function DetailCategories(txs: seq<FetchedTransaction>): (r: seq<Category>)
    ensures forall c :: c in r <==> exists t, d :: t in txs && d in t.details && d.productOrService.category == NonNull(c)
  {
    if txs == [] then [] else CategoriesOf(txs[0].details) + DetailCategories(txs[1..])
  }

  function IdsOf(cats: seq<Category>): set<int> {
    set c | c in cats :: c.id
  }

  /** The first category in `cats` with the given id. */
  function FirstWithId(cats: seq<Category>, id: int): Option<Category> {
    First(cats, (c: Category) => c.id == id)
  }

  /** A cache entry once its path is filled in: the path is computed for the
      category with the caller's agent (`{ ...category, agentId }`), and
      `categoryId` is the category's id. */
  function PathedEntry(c: Category, categories: seq<Category>, agentId: int): (r: CategoryDto)
    requires Acyclic(categories)
    ensures r.category == c && r.categoryId == Some(c.id)
    ensures r.categoryPath == Some(CategoryPath(categories, Some(c.(agentId := agentId)), |categories| + 1))
  {
    OverriddenAgentChainEnds(categories, c, agentId);
    CategoryDto(c, Some(CategoryPath(categories, Some(c.(agentId := agentId)), |categories| + 1)), Some(c.id))
  }

  /** The cache the request builds: one entry per distinct category id met,
      holding the first category with that id. */
  function CategoryCache(txs: seq<FetchedTransaction>, categories: seq<Category>, agentId: int): (r: map<int, CategoryDto>)
    requires Acyclic(categories)
    ensures r.Keys == IdsOf(DetailCategories(txs))
  {
    var cats := DetailCategories(txs);
    map id | id in IdsOf(cats) :: PathedEntry(FirstWithId(cats, id).value, categories, agentId)
  }

  /** The categories map: the `reduce` keeping the first category per id,
      then the loop filling in each entry's path and id. */
  method BuildCategoryCache(txs: seq<FetchedTransaction>, categories: seq<Category>, agentId: int)
    returns (cache: map<int, CategoryDto>)
    requires Acyclic(categories)
    ensures cache == CategoryCache(txs, categories, agentId)
  {
    var flat := DetailCategories(txs);
    var acc, order := CollectFirsts(flat);
    cache := FillPaths(acc, order, categories, agentId);
    FirstsGiveCache(flat, acc, cache, categories, agentId);
  }

  /** Filling in the paths of the first categories per id gives the cache. */
  lemma FirstsGiveCache(flat: seq<Category>, acc: map<int, CategoryDto>,
                        cache: map<int, CategoryDto>, categories: seq<Category>, agentId: int)
    requires Acyclic(categories)
    requires acc.Keys == IdsOf(flat)
    requires forall k :: k in acc ==> FirstWithId(flat, k).Some? && acc[k].category == FirstWithId(flat, k).value
    requires cache.Keys == acc.Keys
    requires forall k :: k in acc ==> cache[k] == PathedEntry(acc[k].category, categories, agentId)
    ensures cache == map id | id in IdsOf(flat) :: PathedEntry(FirstWithId(flat, id).value, categories, agentId)
  {
  }

  /** `reduce((acc, cat) => { if (!acc[cat.id]) acc[cat.id] = toCategoryDto(cat); ... })`,
      also listing the ids in the order they were first met. */
  method CollectFirsts(flat: seq<Category>) returns (acc: map<int, CategoryDto>, order: seq<int>)
    ensures acc.Keys == IdsOf(flat)
    ensures forall k :: k in acc ==> FirstWithId(flat, k).Some? && acc[k].category == FirstWithId(flat, k).value
    ensures forall k :: k in acc <==> k in order
    ensures forall a, b :: 0 <= a < b < |order| ==> order[a] != order[b]
  {
    acc := map[];
    order := [];
    var i := 0;
    while i < |flat|
      invariant 0 <= i <= |flat|
      invariant FirstsUpTo(flat, i, acc, order)
    {
      FirstsStep(flat, i, acc, order);
      if flat[i].id !in acc {
        acc := acc[flat[i].id := ToCategoryDto(flat[i])];
        order := order + [flat[i].id];
      }
      i := i + 1;
    }
    assert flat[..|flat|] == flat;
  }

  /** The loop over the entries setting `categoryPath` and `categoryId`. */
  method FillPaths(acc: map<int, CategoryDto>, order: seq<int>, categories: seq<Category>, agentId: int)
    returns (cache: map<int, CategoryDto>)
    requires Acyclic(categories)
    requires forall k :: k in acc <==> k in order
    requires forall a, b :: 0 <= a < b < |order| ==> order[a] != order[b]
    ensures cache.Keys == acc.Keys
    ensures forall k :: k in acc ==> cache[k] == PathedEntry(acc[k].category, categories, agentId)
  {
    assert forall m :: 0 <= m < |order| ==> order[m] in order;
    cache := acc;
    var j := 0;
    while j < |order|
      invariant 0 <= j <= |order|
      invariant cache.Keys == acc.Keys
      invariant forall m :: 0 <= m < j ==> cache[order[m]] == PathedEntry(acc[order[m]].category, categories, agentId)
      invariant forall m :: j <= m < |order| ==> cache[order[m]] == acc[order[m]]
    {
      var k := order[j];
      var entry := cache[k];
      OverriddenAgentChainEnds(categories, entry.category, agentId);
      var path := CategoryPath(categories, Some(entry.category.(agentId := agentId)), |categories| + 1);
      cache := cache[k := entry.(categoryPath := Some(path), categoryId := Some(entry.category.id))];
      j := j + 1;
    }
    forall k | k in acc ensures cache[k] == PathedEntry(acc[k].category, categories, agentId) {
      var m :| 0 <= m < |order| && order[m] == k;
    }
  }

  /** After the first `i` categories: `acc` holds, for every id met, the
      DTO of the first category with that id, and `order` lists those ids
      once each. */
  ghost predicate FirstsUpTo(flat: seq<Category>, i: int, acc: map<int, CategoryDto>, order: seq<int>)
    requires 0 <= i <= |flat|
  {
    acc.Keys == IdsOf(flat[..i]) &&
    (forall k :: k in acc ==> FirstWithId(flat[..i], k).Some? && acc[k] == ToCategoryDto(FirstWithId(flat[..i], k).value)) &&
    (forall k :: k in acc <==> k in order) &&
    (forall a, b :: 0 <= a < b < |order| ==> order[a] != order[b])
  }

  lemma FirstsStep(flat: seq<Category>, i: int, acc: map<int, CategoryDto>, order: seq<int>)
    requires 0 <= i < |flat| && FirstsUpTo(flat, i, acc, order)
    ensures flat[i].id in acc ==> FirstsUpTo(flat, i + 1, acc, order)
    ensures flat[i].id !in acc ==>
      FirstsUpTo(flat, i + 1, acc[flat[i].id := ToCategoryDto(flat[i])], order + [flat[i].id])
  {
    IdsSnoc(flat, i);
    if flat[i].id in acc {
      FirstsStepSeen(flat, i, acc, order);
    } else {
      FirstsStepNew(flat, i, acc, order);
    }
  }

  /** A category whose id was met before changes nothing. */
  lemma FirstsStepSeen(flat: seq<Category>, i: int, acc: map<int, CategoryDto>, order: seq<int>)
    requires 0 <= i < |flat| && FirstsUpTo(flat, i, acc, order)
    requires flat[i].id in acc
    requires IdsOf(flat[..i + 1]) == IdsOf(flat[..i]) + {flat[i].id}
    ensures FirstsUpTo(flat, i + 1, acc, order)
  {
    assert acc.Keys == IdsOf(flat[..i + 1]);
    forall k | k in acc
      ensures FirstWithId(flat[..i + 1], k).Some? && acc[k] == ToCategoryDto(FirstWithId(flat[..i + 1], k).value)
    {
      assert FirstWithId(flat[..i], k).Some?;
      FirstWithIdSnoc(flat, i, k);
    }
  }

  /** A category with a new id is recorded, and its id appended to the order. */
  lemma FirstsStepNew(flat: seq<Category>, i: int, acc: map<int, CategoryDto>, order: seq<int>)
    requires 0 <= i < |flat| && FirstsUpTo(flat, i, acc, order)
    requires flat[i].id !in acc
    requires IdsOf(flat[..i + 1]) == IdsOf(flat[..i]) + {flat[i].id}
    ensures FirstsUpTo(flat, i + 1, acc[flat[i].id := ToCategoryDto(flat[i])], order + [flat[i].id])
  {
    var c := flat[i];
    var acc' := acc[c.id := ToCategoryDto(c)];
    var order' := order + [c.id];
    forall k | k in acc' ensures FirstWithId(flat[..i + 1], k).Some? && acc'[k] == ToCategoryDto(FirstWithId(flat[..i + 1], k).value) {
      FirstWithIdSnoc(flat, i, k);
      if k == c.id {
        assert FirstWithId(flat[..i], k).None?;
      }
    }
    assert forall k :: k in acc' <==> k in order';
    assert forall a, b :: 0 <= a < b < |order'| ==> order'[a] != order'[b];
  }

  lemma IdsSnoc(flat: seq<Category>, i: int)
    requires 0 <= i < |flat|
    ensures IdsOf(flat[..i + 1]) == IdsOf(flat[..i]) + {flat[i].id}
  {
    assert flat[..i + 1] == flat[..i] + [flat[i]];
  }

  lemma FirstWithIdSnoc(flat: seq<Category>, i: int, k: int)
    requires 0 <= i < |flat|
    ensures FirstWithId(flat[..i + 1], k) ==
      if FirstWithId(flat[..i], k).Some? then FirstWithId(flat[..i], k) else if flat[i].id == k then Some(flat[i]) else None
  {
    assert flat[..i + 1] == flat[..i] + [flat[i]];
    FirstSnoc(flat[..i], flat[i], (x: Category) => x.id == k);
  }

  /** The DTO of one detail: the product's `categoryId`, when truthy, picks
      the cached category; the DTO gets that entry's path, and its product
      DTO is built by the one-argument `toProductOrServiceDto`. */
  function DetailDto(d: FetchedDetail, cache: map<int, CategoryDto>): TransactionDetailDto {
    var p := d.productOrService;
    var categoryId := p.product.categoryId;
    var category := if categoryId.NonNull? && categoryId.value != 0 && categoryId.value in cache
                    then Some(cache[categoryId.value]) else None;
    ToTransactionDetailDto(
      d.detail,
      Some(ToProductOrServiceDto(ProductOrServiceDto(p.product, category, p.unit, p.pieceSizeUnit), None)),
      if category.Some? then category.value.categoryPath else None)
  }

  function DetailDtos(details: seq<FetchedDetail>, cache: map<int, CategoryDto>): seq<TransactionDetailDto> {
    seq(|details|, i requires 0 <= i < |details| => DetailDto(details[i], cache))
  }

  function TransactionDtoOf(t: FetchedTransaction, cache: map<int, CategoryDto>): TransactionDto {
    ToTransactionDto(t, Some(DetailDtos(t.details, cache)))
  }

  /** The loop pushing one DTO per transaction. */
  method AssembleDtos(txs: seq<FetchedTransaction>, cache: map<int, CategoryDto>) returns (dtos: seq<TransactionDto>)
    ensures |dtos| == |txs|
    ensures forall i :: 0 <= i < |txs| ==> dtos[i] == TransactionDtoOf(txs[i], cache)
  {
    dtos := [];
    var i := 0;
    while i < |txs|
      invariant 0 <= i <= |txs|
      invariant |dtos| == i
      invariant forall j :: 0 <= j < i ==> dtos[j] == TransactionDtoOf(txs[j], cache)
    {
      var details := DetailDtos(txs[i].details, cache);
      dtos := dtos + [ToTransactionDto(txs[i], Some(details))];
      i := i + 1;
    }
  }

  /** The transactions the query returns, before DTO assembly, or the
      store's refusal. */
  function Selected(q: Query, agentId: int, parseDate: string -> Option<Timestamp>,
                    rows: seq<FetchedTransaction>): Fetch<FetchedTransaction> {
    match Select(rows, WhereOf(q, agentId, parseDate))
    case Rows(selected) => Rows(PostFilter(q, selected))
    case Refused => Refused
  }

  /** `findAll`. `rows` are the transactions of the store with their
      includes, ordered by date descending; `categories` is the category
      table the path lookups read. A refused query fails the request. */
  method FindAll(q: Query, agentId: int, parseDate: string -> Option<Timestamp>,
                 rows: seq<FetchedTransaction>, categories: seq<Category>) returns (r: Fetch<TransactionDto>)
    requires Acyclic(categories)
    ensures r.Refused? <==> !StoreAccepts(WhereOf(q, agentId, parseDate))
    ensures r.Rows? ==> Selected(q, agentId, parseDate, rows).Rows?
    ensures r.Rows? ==>
              (var txs := Selected(q, agentId, parseDate, rows).rows;
               |r.rows| == |txs| &&
               forall i :: 0 <= i < |txs| ==> r.rows[i] == TransactionDtoOf(txs[i], CategoryCache(txs, categories, agentId)))
  {
    var w := BuildWhere(q, agentId, parseDate);
    var fetched := Select(rows, w);
    if fetched.Refused? {
      return Refused;
    }
    var filtered := PostFilter(q, fetched.rows);
    var cache := BuildCategoryCache(filtered, categories, agentId);
    var dtos := AssembleDtos(filtered, cache);
    r := Rows(dtos);
  }

  // ---------------------------------------------------------------------
  // Properties
  // ---------------------------------------------------------------------

  /** Every cache entry holds the first category met with its id, with the
      path of that category and `categoryId` set to the id. */
  lemma CacheHoldsFirstOccurrence(txs: seq<FetchedTransaction>, categories: seq<Category>, agentId: int, k: int)
    requires Acyclic(categories)
    requires k in CategoryCache(txs, categories, agentId)
    ensures FirstWithId(DetailCategories(txs), k).Some?
    ensures var c := FirstWithId(DetailCategories(txs), k).value;
      c.id == k && c in DetailCategories(txs) &&
      CategoryCache(txs, categories, agentId)[k] == PathedEntry(c, categories, agentId)
  {
  }

  /** A detail whose product has a truthy `categoryId`, and whose included
      category is that row, gets the cached path of that id. */
  lemma DetailPathComesFromCache(txs: seq<FetchedTransaction>, categories: seq<Category>, agentId: int,
                                 t: FetchedTransaction, d: FetchedDetail)
    requires Acyclic(categories)
    requires t in txs && d in t.details
    requires d.productOrService.category.NonNull?
    requires d.productOrService.product.categoryId == NonNull(d.productOrService.category.value.id)
    requires d.productOrService.category.value.id != 0
    ensures var cats := DetailCategories(txs);
      var id := d.productOrService.category.value.id;
      FirstWithId(cats, id).Some? &&
      DetailDto(d, CategoryCache(txs, categories, agentId)).categoryPath ==
        Some(CategoryPath(categories, Some(FirstWithId(cats, id).value.(agentId := agentId)), |categories| + 1))
  {
    var c := d.productOrService.category.value;
    assert c in DetailCategories(txs);
    assert c.id in IdsOf(DetailCategories(txs));
  }

  /** A detail whose product has no (or a 0) `categoryId` has no path. */
  lemma UncategorizedDetailHasNoPath(d: FetchedDetail, cache: map<int, CategoryDto>)
    requires d.productOrService.product.categoryId.Null? || d.productOrService.product.categoryId == NonNull(0)
    ensures DetailDto(d, cache).categoryPath.None?
  {
  }

  /** The product DTO of a detail never carries the pathed category: the
      one-argument call overwrites it. */
  lemma ProductDtoCategoryIsDropped(d: FetchedDetail, cache: map<int, CategoryDto>)
    ensures DetailDto(d, cache).productOrService.Some?
    ensures DetailDto(d, cache).productOrService.value.category.None?
    ensures DetailDto(d, cache).productOrService.value.product == d.productOrService.product
    ensures DetailDto(d, cache).detail == d.detail
  {
  }
}
