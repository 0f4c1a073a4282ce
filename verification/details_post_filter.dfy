/** The in-memory post-filter of the transactions-with-details query
    (`findAll`, apps/backend/src/transactions_details/transactions_details.service.ts):
    after the store has selected the transactions, the details of each one
    are pruned to those meeting the category and product-name constraints,
    and transactions left without details are dropped. */
module DetailsPostFilter {
  import opened JsText
  import opened Wrappers
  import opened Store
  import opened DetailsQuery

  /** `categoryIds || productNames`: some detail-level parameter is truthy. */
  predicate DetailFiltersGiven(q: Query) {
    MultiGiven(q.categoryIds) || MultiGiven(q.productNames)
  }

  /** The product-name constraint: the array of the parameter, not trimmed,
      when the parameter is truthy and the array is not empty. */
  function NameConstraint(productNames: Option<Multi>): (r: Option<seq<Param>>)
    ensures r.Some? <==> NameClause(productNames).Some?
  {
    if MultiGiven(productNames) && |AsArray(productNames.value)| > 0 then Some(AsArray(productNames.value)) else None
  }

  /** Whether a detail passes every active constraint: its product's
      `categoryId` is truthy and among the numeric ids, and its product's
      name is not empty and is (as a string) one of the given names. */
  predicate DetailKept(q: Query, d: FetchedDetail) {
    var p := d.productOrService.product;
    (CategoryClause(q.categoryIds).Some? ==>
       p.categoryId.NonNull? && p.categoryId.value != 0 && p.categoryId.value in CategoryClause(q.categoryIds).value) &&
    (NameConstraint(q.productNames).Some? ==>
       p.name != "" && Str(p.name) in NameConstraint(q.productNames).value)
  }

  /** `{ ...transaction }` with its details filtered when a detail-level
      parameter is given. */
  function PruneDetails(q: Query, t: FetchedTransaction): (r: FetchedTransaction)
    ensures r.transaction == t.transaction && r.account == t.account && r.counterparty == t.counterparty
    ensures forall d :: d in r.details <==> d in t.details && (DetailFiltersGiven(q) ==> DetailKept(q, d))
    ensures !DetailFiltersGiven(q) ==> r == t
    ensures DetailFiltersGiven(q) ==> r.details == Filter(t.details, (d: FetchedDetail) => DetailKept(q, d))
  {
    if DetailFiltersGiven(q) then t.(details := Filter(t.details, (d: FetchedDetail) => DetailKept(q, d))) else t
  }

  /** Pruning keeps the order of the details and adds no repetition: the
      details kept from `a + b` are those kept from `a`, then those kept
      from `b`. */
  lemma PruneDetailsKeepsOrder(q: Query, t: FetchedTransaction, a: seq<FetchedDetail>, b: seq<FetchedDetail>)
    requires t.details == a + b
    ensures PruneDetails(q, t).details == PruneDetails(q, t.(details := a)).details + PruneDetails(q, t.(details := b)).details
    ensures Distinct(t.details) ==> Distinct(PruneDetails(q, t).details)
  {
    var keep := (d: FetchedDetail) => DetailKept(q, d);
    if DetailFiltersGiven(q) {
      FilterAppend(a, b, keep);
      if Distinct(t.details) {
        FilterDistinct(t.details, keep);
      }
    }
  }

  function PruneAll(q: Query, txs: seq<FetchedTransaction>): (r: seq<FetchedTransaction>)
    ensures |r| == |txs|
    ensures forall i :: 0 <= i < |r| ==> r[i] == PruneDetails(q, txs[i])
  {
    if txs == [] then [] else [PruneDetails(q, txs[0])] + PruneAll(q, txs[1..])
  }

  predicate HasDetails(t: FetchedTransaction) {
    |t.details| > 0
  }

  /** The post-filter. */
  function PostFilter(q: Query, txs: seq<FetchedTransaction>): seq<FetchedTransaction> {
    if DetailFiltersGiven(q) then Filter(PruneAll(q, txs), HasDetails) else PruneAll(q, txs)
  }

  /** Everything the post-filter returns is a pruned input transaction; when
      a detail-level parameter is given it has at least one detail, and each
      of its details passes every active constraint. */
  lemma PostFilterSound(q: Query, txs: seq<FetchedTransaction>, t: FetchedTransaction)
    requires t in PostFilter(q, txs)
    ensures exists u :: u in txs && t == PruneDetails(q, u)
    ensures DetailFiltersGiven(q) ==> |t.details| > 0 && forall d :: d in t.details ==> DetailKept(q, d)
  {
    var i :| 0 <= i < |PruneAll(q, txs)| && PruneAll(q, txs)[i] == t;
    assert txs[i] in txs;
  }

  /** A transaction is kept (pruned) exactly when it has a detail passing
      every constraint, or no detail-level parameter is given. */
  lemma PostFilterComplete(q: Query, txs: seq<FetchedTransaction>, u: FetchedTransaction)
    requires u in txs
    ensures PruneDetails(q, u) in PostFilter(q, txs) <==>
            !DetailFiltersGiven(q) || exists d :: d in u.details && DetailKept(q, d)
  {
    var i :| 0 <= i < |txs| && txs[i] == u;
    var t := PruneDetails(q, u);
    assert PruneAll(q, txs)[i] == t;
    if DetailFiltersGiven(q) {
      if exists d :: d in u.details && DetailKept(q, d) {
        var d :| d in u.details && DetailKept(q, d);
        assert d in t.details;
        assert HasDetails(t);
      }
      if t in PostFilter(q, txs) {
        assert HasDetails(t);
        assert t.details[0] in t.details;
      }
    }
  }

  /** The post-filter keeps the store's order: it distributes over
      concatenation. */
  lemma {:induction false} PostFilterAppend(q: Query, a: seq<FetchedTransaction>, b: seq<FetchedTransaction>)
    ensures PostFilter(q, a + b) == PostFilter(q, a) + PostFilter(q, b)
  {
    PruneAllAppend(q, a, b);
    FilterAppend(PruneAll(q, a), PruneAll(q, b), HasDetails);
  }

  lemma {:induction false} PruneAllAppend(q: Query, a: seq<FetchedTransaction>, b: seq<FetchedTransaction>)
    ensures PruneAll(q, a + b) == PruneAll(q, a) + PruneAll(q, b)
  {
    if a == [] {
      assert a + b == b;
    } else {
      assert (a + b)[1..] == a[1..] + b;
      PruneAllAppend(q, a[1..], b);
    }
  }

  /** Without a detail-level parameter the transactions come back as they were. */
  lemma NoDetailFiltersNoChange(q: Query, txs: seq<FetchedTransaction>)
    requires !DetailFiltersGiven(q)
    ensures PostFilter(q, txs) == txs
  {
  }

  /** `categoryIds: []` is truthy but constrains no detail: every
      transaction keeps all its details, yet those without any are dropped. */
  lemma EmptyCategoryArrayDropsEmptyTransactions(q: Query, txs: seq<FetchedTransaction>)
    requires q.categoryIds == Some(Many([])) && q.productNames.None?
    ensures PostFilter(q, txs) == Filter(txs, HasDetails)
  {
    assert forall d :: DetailKept(q, d);
    forall i | 0 <= i < |txs| ensures PruneAll(q, txs)[i] == txs[i] {
      FilterKeepsAll(txs[i].details, (d: FetchedDetail) => DetailKept(q, d));
    }
    assert PruneAll(q, txs) == txs;
  }

  /** The store compares trimmed names but the post-filter compares the
      names as given: a name given with a surrounding space selects a
      transaction whose detail then fails the post-filter. */
  lemma UntrimmedNameFailsPostFilter(q: Query, d: FetchedDetail)
    requires q.categoryIds.None? && q.productNames == Some(One(Str(" tea")))
    requires d.productOrService.product.name == "tea"
    ensures DetailsClause(q.categoryIds, q.productNames) == Some(ProductFilter(None, Some(["tea"])))
    ensures ProductMatches(DetailsClause(q.categoryIds, q.productNames).value, d.productOrService.product)
    ensures !DetailKept(q, d)
  {
    assert IsWhiteSpace(' ');
    assert TrimStart(" tea") == "tea" by {
      assert !IsWhiteSpace('t');
      assert " tea"[1..] == "tea";
    }
    assert TrimEnd("tea") == "tea" by {
      assert !IsWhiteSpace('a');
    }
    assert Trim(" tea") == "tea";
    assert TrimmedNames([Str(" tea")]) == ["tea"];
  }
}
