/** Product queries and category reassignment
    (apps/backend/src/products/products.service.ts). The products table is
    taken in the order the store returns it (`orderBy: { name: 'asc' }`);
    the collation itself is the store's. */
module ProductsService {
  import opened Wrappers
  import opened JsText
  import opened Store

  /** `{ id, label }` for a choice list (`label` is a reserved word here, hence `labelText`). */
  datatype SelectItem = SelectItem(id: int, labelText: string)

  /** The columns `{ id, name, categoryId }` the category queries select. */
  datatype ProductSummary = ProductSummary(id: int, name: string, categoryId: Nullable<int>)

  datatype ProductError = ProductNotFound | CategoryNotFound

  datatype UpdateResult = Updated(product: ProductSummary) | Failed(error: ProductError)

  function Summary(p: Product): ProductSummary {
    ProductSummary(p.id, p.name, p.categoryId)
  }

  /** The agent's products, in store order (`where: { agentId }`). */
  function AgentProducts(products: seq<Product>, agentId: int): (r: seq<Product>)
    ensures forall p :: p in r <==> p in products && p.agentId == agentId
    ensures |r| <= |products|
  {
    if products == [] then []
    else (if products[0].agentId == agentId then [products[0]] else []) + AgentProducts(products[1..], agentId)
  }

  /** `findSelectItems`: one `{ id, label: name }` per product of the
      agent, in store order. */
  function FindSelectItems(products: seq<Product>, agentId: int): (r: seq<SelectItem>)
    ensures |r| == |AgentProducts(products, agentId)|
  {
    if products == [] then []
    else if products[0].agentId == agentId then
      [SelectItem(products[0].id, products[0].name)] + FindSelectItems(products[1..], agentId)
    else FindSelectItems(products[1..], agentId)
  }

  /** The i-th choice is the i-th product of the agent. */
  lemma {:induction false} SelectItemsFollowAgentProducts(products: seq<Product>, agentId: int, i: int)
    requires 0 <= i < |AgentProducts(products, agentId)|
    ensures FindSelectItems(products, agentId)[i] ==
            SelectItem(AgentProducts(products, agentId)[i].id, AgentProducts(products, agentId)[i].name)
  {
    var rest := AgentProducts(products[1..], agentId);
    if products[0].agentId == agentId {
      assert AgentProducts(products, agentId) == [products[0]] + rest;
      if i > 0 {
        SelectItemsFollowAgentProducts(products[1..], agentId, i - 1);
      }
    } else {
      assert AgentProducts(products, agentId) == rest;
      SelectItemsFollowAgentProducts(products[1..], agentId, i);
    }
  }

  /** `categoryId || null` for the optional `categoryId` argument: undefined,
      0 and NaN all select the uncategorized (null) products. */
  function CategoryFilter(categoryId: Option<JsNumber>): (r: Nullable<int>)
    ensures r.Null? <==> categoryId.None? || !categoryId.value.Truthy()
    ensures r.NonNull? ==> r.value == categoryId.value.value
  {
    if categoryId.Some? && categoryId.value.Truthy() then NonNull(categoryId.value.value) else Null
  }

  /** `findProductsByCategory`: the agent's products whose `categoryId` is
      the filter value, in store order. */
  function FindProductsByCategory(products: seq<Product>, agentId: int, categoryId: Option<JsNumber>): (r: seq<ProductSummary>)
    ensures forall s :: s in r <==> exists p :: p in products && p.agentId == agentId &&
                                               p.categoryId == CategoryFilter(categoryId) && s == Summary(p)
    ensures |r| <= |products|
  {
    if products == [] then []
    else
      var p := products[0];
      (if p.agentId == agentId && p.categoryId == CategoryFilter(categoryId) then [Summary(p)] else [])
      + FindProductsByCategory(products[1..], agentId, categoryId)
  }

  /** `findProductsNotInCategory`: the agent's products whose `categoryId`
      is not the filter value, in store order (`NOT` read in two-valued logic). */
  function FindProductsNotInCategory(products: seq<Product>, agentId: int, categoryId: Option<JsNumber>): (r: seq<ProductSummary>)
    ensures forall s :: s in r <==> exists p :: p in products && p.agentId == agentId &&
                                               p.categoryId != CategoryFilter(categoryId) && s == Summary(p)
    ensures |r| <= |products|
  {
    if products == [] then []
    else
      var p := products[0];
      (if p.agentId == agentId && p.categoryId != CategoryFilter(categoryId) then [Summary(p)] else [])
      + FindProductsNotInCategory(products[1..], agentId, categoryId)
  }

  /** With a 0 or absent `categoryId`, the by-category query selects exactly
      the agent's uncategorized products. */
  lemma ByCategoryOfNothingIsUncategorized(products: seq<Product>, agentId: int, categoryId: Option<JsNumber>, p: Product)
    requires categoryId == None || categoryId == Some(Int(0))
    requires p in products && p.agentId == agentId
    ensures Summary(p) in FindProductsByCategory(products, agentId, categoryId) <==> p.categoryId.Null?
  {
  }

  /** The two queries for the same `categoryId` split the agent's products:
      no product is in both, every product of the agent is in one, and the
      two result sizes add up to the number of the agent's products. */
  lemma {:induction false} ByAndNotInCategoryPartition(products: seq<Product>, agentId: int, categoryId: Option<JsNumber>)
    ensures forall s :: s in FindProductsByCategory(products, agentId, categoryId) ==>
                        s !in FindProductsNotInCategory(products, agentId, categoryId)
    ensures forall p :: p in products && p.agentId == agentId ==>
              Summary(p) in FindProductsByCategory(products, agentId, categoryId) + FindProductsNotInCategory(products, agentId, categoryId)
    ensures |FindProductsByCategory(products, agentId, categoryId)| + |FindProductsNotInCategory(products, agentId, categoryId)|
            == |AgentProducts(products, agentId)|
  {
    if products != [] {
      ByAndNotInCategoryPartition(products[1..], agentId, categoryId);
    }
  }

  lemma SameIdSameProduct(products: seq<Product>, p: Product, q: Product)
    requires UniqueIds(products, (r: Product) => r.id)
    requires p in products && q in products && p.id == q.id
    ensures p == q
  {
    var i :| 0 <= i < |products| && products[i] == p;
    var j :| 0 <= j < |products| && products[j] == q;
    if i < j {
      assert (((r: Product) => r.id)(products[i])) != ((r: Product) => r.id)(products[j]);
    } else if j < i {
      assert (((r: Product) => r.id)(products[j])) != ((r: Product) => r.id)(products[i]);
    }
  }

  // ---------------------------------------------------------------------
  // Bulk move
  // ---------------------------------------------------------------------

  /** The ids of the agent's products in the source category (the first `findMany`). */
  function SourceProductIds(products: seq<Product>, agentId: int, sourceCategoryId: int): (ids: seq<int>)
    ensures forall x :: x in ids <==> exists p :: p in products && p.agentId == agentId &&
                                                p.categoryId == NonNull(sourceCategoryId) && p.id == x
    ensures |ids| <= |products|
  {
    if products == [] then []
    else
      var p := products[0];
      (if p.agentId == agentId && p.categoryId == NonNull(sourceCategoryId) then [p.id] else [])
      + SourceProductIds(products[1..], agentId, sourceCategoryId)
  }

  /** `updateMany({ where: { id: { in: ids } }, data: { categoryId } })`. */
  function UpdateCategoryOf(products: seq<Product>, ids: seq<int>, categoryId: Nullable<int>): (r: seq<Product>)
    ensures |r| == |products|
    ensures forall i :: 0 <= i < |r| ==> r[i].id == products[i].id
    ensures forall i :: 0 <= i < |r| && products[i].id in ids ==> r[i] == products[i].(categoryId := categoryId)
    ensures forall i :: 0 <= i < |r| && products[i].id !in ids ==> r[i] == products[i]
  {
    seq(|products|, i requires 0 <= i < |products| =>
      if products[i].id in ids then products[i].(categoryId := categoryId) else products[i])
  }

  /** Number of the agent's products in the source category. */
  function CountInCategory(products: seq<Product>, agentId: int, sourceCategoryId: int): nat {
    if products == [] then 0
    else (if products[0].agentId == agentId && products[0].categoryId == NonNull(sourceCategoryId) then 1 else 0)
         + CountInCategory(products[1..], agentId, sourceCategoryId)
  }

  /** `moveProductsToCategory`: looks up the agent's products in the source
      category, reassigns them to the target (which may be null and is not
      checked) when there is at least one, and reports how many. */
  method MoveProductsToCategory(db: Db, agentId: int, sourceCategoryId: int, targetCategoryId: Nullable<int>)
    returns (moved: nat)
    modifies db`products
    ensures moved == |SourceProductIds(old(db.products), agentId, sourceCategoryId)|
    ensures db.products == UpdateCategoryOf(old(db.products), SourceProductIds(old(db.products), agentId, sourceCategoryId), targetCategoryId)
    ensures moved == 0 ==> db.products == old(db.products)
  {
    var productIds := SourceProductIds(db.products, agentId, sourceCategoryId);
    if |productIds| > 0 {
      db.products := UpdateCategoryOf(db.products, productIds, targetCategoryId);
    } else {
      assert db.products == UpdateCategoryOf(db.products, productIds, targetCategoryId);
    }
    moved := |productIds|;
  }

  /** With unique product ids, the move changes exactly the agent's products
      in the source category, and only their `categoryId`; every other row
      stays as it was. */
  lemma MoveChangesExactlySourceProducts(products: seq<Product>, agentId: int, sourceCategoryId: int,
                                         targetCategoryId: Nullable<int>, i: int)
    requires UniqueIds(products, (q: Product) => q.id)
    requires 0 <= i < |products|
    ensures var r := UpdateCategoryOf(products, SourceProductIds(products, agentId, sourceCategoryId), targetCategoryId);
      var p := products[i];
      r[i] == if p.agentId == agentId && p.categoryId == NonNull(sourceCategoryId)
              then p.(categoryId := targetCategoryId) else p
  {
    var p := products[i];
    var ids := SourceProductIds(products, agentId, sourceCategoryId);
    if p.id in ids {
      var q :| q in products && q.agentId == agentId && q.categoryId == NonNull(sourceCategoryId) && q.id == p.id;
      SameIdSameProduct(products, p, q);
    }
  }

  /** The number reported equals the number of products in the source category. */
  lemma {:induction false} MovedCountIsCategorySize(products: seq<Product>, agentId: int, sourceCategoryId: int)
    ensures |SourceProductIds(products, agentId, sourceCategoryId)| == CountInCategory(products, agentId, sourceCategoryId)
  {
    if products != [] {
      MovedCountIsCategorySize(products[1..], agentId, sourceCategoryId);
    }
  }

  // ---------------------------------------------------------------------
  // Single update
  // ---------------------------------------------------------------------

  /** `update({ where: { id }, data: { categoryId } })`. */
  function SetCategory(products: seq<Product>, productId: int, categoryId: Nullable<int>): (r: seq<Product>)
    ensures |r| == |products|
    ensures forall i :: 0 <= i < |r| ==> r[i].id == products[i].id && r[i].name == products[i].name
  {
    UpdateCategoryOf(products, [productId], categoryId)
  }

  /** `updateProductCategory`: fails, changing nothing, when the product is
      not the agent's or a non-null `categoryId` is not one of the agent's
      categories (0 included); otherwise sets that product's `categoryId`
      and returns `{ id, name, categoryId }`. */
  method UpdateProductCategory(db: Db, agentId: int, productId: int, categoryId: Nullable<int>)
    returns (r: UpdateResult)
    modifies db`products
    ensures FindProduct(old(db.products), productId, agentId).None? ==>
              r == Failed(ProductNotFound) && db.products == old(db.products)
    ensures FindProduct(old(db.products), productId, agentId).Some? && categoryId.NonNull? &&
            FindCategory(db.categories, categoryId.value, agentId).None? ==>
              r == Failed(CategoryNotFound) && db.products == old(db.products)
    ensures r.Updated? <==> FindProduct(old(db.products), productId, agentId).Some? &&
                            (categoryId.NonNull? ==> FindCategory(db.categories, categoryId.value, agentId).Some?)
    ensures r.Updated? ==>
              db.products == SetCategory(old(db.products), productId, categoryId) &&
              r.product == ProductSummary(productId, FindProduct(old(db.products), productId, agentId).value.name, categoryId)
  {
    var product := FindProduct(db.products, productId, agentId);
    if product.None? {
      return Failed(ProductNotFound);
    }
    if categoryId.NonNull? {
      var category := FindCategory(db.categories, categoryId.value, agentId);
      if category.None? {
        return Failed(CategoryNotFound);
      }
    }
    db.products := SetCategory(db.products, productId, categoryId);
    r := Updated(ProductSummary(productId, product.value.name, categoryId));
  }

  /** With unique ids, a successful update changes only the row of that
      product, and only its `categoryId`. */
  lemma SetCategoryChangesOnlyThatProduct(products: seq<Product>, productId: int, categoryId: Nullable<int>, i: int)
    requires 0 <= i < |products|
    ensures SetCategory(products, productId, categoryId)[i] ==
      if products[i].id == productId then products[i].(categoryId := categoryId) else products[i]
  {
  }
}
