/** The filter normaliser of the transactions-with-details query
    (`findAll`, apps/backend/src/transactions_details/transactions_details.service.ts):
    the query parameters become a store `where` object, which the store then
    evaluates with `Matches`.

    Query parameters arrive as strings, or as numbers where the framework
    converted them; a repeatable parameter is a scalar or an array. `new
    Date(s)` is the abstract `parseDate`, None for an invalid date. */
module DetailsQuery {
  import opened Wrappers
  import opened JsText
  import opened Store

  /** A query value: a string, or a number. */
  datatype Param = Str(s: string) | Num(n: JsNumber)

  /** A repeatable parameter: one value, or an array of them. */
  datatype Multi = One(p: Param) | Many(ps: seq<Param>)

  /** A date bound: a string, or a `Date` (always valid here). */
  datatype DateParam = DateStr(text: string) | DateObj(time: Timestamp)

  /** The query; None is an absent (undefined) parameter. */
  datatype Query = Query(
    accountId: Option<Param>, categoryIds: Option<Multi>, productNames: Option<Multi>,
    startDate: Option<DateParam>, endDate: Option<DateParam>, counterpartyId: Option<Param>,
    searchText: Option<string>, minAmount: Option<Param>, maxAmount: Option<Param>)

  /** JavaScript truthiness of a value: "" and 0 and NaN are falsy. */
  predicate ParamTruthy(p: Param) {
    match p
    case Str(s) => s != ""
    case Num(n) => n.Truthy()
  }

  predicate Given(o: Option<Param>) {
    o.Some? && ParamTruthy(o.value)
  }

  /** An array is truthy even when empty; a scalar only when it is. */
  predicate MultiGiven(m: Option<Multi>) {
    m.Some? && (m.value.Many? || ParamTruthy(m.value.p))
  }

  /** A `Date` object is truthy; a string only when it is not empty. */
  predicate DateGiven(d: Option<DateParam>) {
    d.Some? && (d.value.DateObj? || d.value.text != "")
  }

  predicate TextGiven(s: Option<string>) {
    s.Some? && s.value != ""
  }

  /** `typeof v === 'string' ? parseInt(v, 10) : v`. */
  function ToNumber(p: Param): JsNumber {
    match p
    case Str(s) => ParseInt(s, 10)
    case Num(n) => n
  }

  /** `Array.isArray(v) ? v : [v]`. */
  function AsArray(m: Multi): seq<Param> {
    match m
    case One(p) => [p]
    case Many(ps) => ps
  }

  /** `.map(toNumber).filter(id => !isNaN(id))`: the numeric ids, in order. */
  function NumericIds(ps: seq<Param>): (ids: seq<int>)
    ensures forall k :: k in ids <==> exists p :: p in ps && ToNumber(p) == Int(k)
    ensures |ids| <= |ps|
  {
    if ps == [] then []
    else (if ToNumber(ps[0]).Int? then [ToNumber(ps[0]).value] else []) + NumericIds(ps[1..])
  }

  /** `typeof name === 'string' ? name.trim() : String(name)`. */
  function TrimmedName(p: Param): string {
    match p
    case Str(s) => Trim(s)
    case Num(n) => NumberToString(n)
  }

  function TrimmedNames(ps: seq<Param>): seq<string> {
    seq(|ps|, i requires 0 <= i < |ps| => TrimmedName(ps[i]))
  }

  /** `{ gte?, lte? }`. */
  datatype Range<T> = Range(gte: Option<T>, lte: Option<T>)

  /** `details.some.productOrService`: `categoryId: { in }` and `name: { in }`. */
  datatype ProductFilter = ProductFilter(categoryIn: Option<seq<int>>, nameIn: Option<seq<string>>)

  /** The `where` object of `transaction.findMany`. */
  datatype Where = Where(
    agentId: int, accountId: Option<JsNumber>, counterpartyId: Option<JsNumber>,
    nameContains: Option<string>, date: Option<Range<Timestamp>>,
    amount: Option<Range<JsNumber>>, details: Option<ProductFilter>)

  /** The category part: present when the parameter is truthy and at least
      one id is numeric. */
  function CategoryClause(categoryIds: Option<Multi>): (r: Option<seq<int>>)
    ensures r.Some? <==> MultiGiven(categoryIds) && |NumericIds(AsArray(categoryIds.value))| > 0
    ensures r.Some? ==> forall k :: k in r.value <==> exists p :: p in AsArray(categoryIds.value) && ToNumber(p) == Int(k)
  {
    if MultiGiven(categoryIds) && |NumericIds(AsArray(categoryIds.value))| > 0
    then Some(NumericIds(AsArray(categoryIds.value))) else None
  }

  /** The product-name part: present when the parameter is truthy and the
      array is not empty; the names are trimmed. */
  function NameClause(productNames: Option<Multi>): (r: Option<seq<string>>)
    ensures r.Some? <==> MultiGiven(productNames) && |AsArray(productNames.value)| > 0
    ensures r.Some? ==> (|r.value| == |AsArray(productNames.value)| &&
              forall i :: 0 <= i < |r.value| ==> r.value[i] == TrimmedName(AsArray(productNames.value)[i]))
  {
    if MultiGiven(productNames) && |AsArray(productNames.value)| > 0
    then Some(TrimmedNames(AsArray(productNames.value))) else None
  }

  /** Both parts go into the one `details.some` clause. */
  function DetailsClause(categoryIds: Option<Multi>, productNames: Option<Multi>): (r: Option<ProductFilter>)
    ensures r.Some? <==> CategoryClause(categoryIds).Some? || NameClause(productNames).Some?
    ensures r.Some? ==> r.value.categoryIn == CategoryClause(categoryIds) && r.value.nameIn == NameClause(productNames)
  {
    if CategoryClause(categoryIds).Some? || NameClause(productNames).Some?
    then Some(ProductFilter(CategoryClause(categoryIds), NameClause(productNames))) else None
  }

  /** A date bound: set from a truthy parameter when its string parses. */
  function DateBound(d: Option<DateParam>, parseDate: string -> Option<Timestamp>): Option<Timestamp> {
    if !DateGiven(d) then None
    else match d.value
      case DateStr(s) => parseDate(s)
      case DateObj(t) => Some(t)
  }

  /** An amount bound: set whenever the parameter is present, NaN included. */
  function AmountBound(a: Option<Param>): Option<JsNumber> {
    if a.Some? then Some(ToNumber(a.value)) else None
  }

  /** `date: {}` with the bounds that were given and parse. */
  function DateClause(startDate: Option<DateParam>, endDate: Option<DateParam>,
                      parseDate: string -> Option<Timestamp>): Option<Range<Timestamp>> {
    if DateGiven(startDate) || DateGiven(endDate)
    then Some(Range(DateBound(startDate, parseDate), DateBound(endDate, parseDate))) else None
  }

  /** `amount: {}` with the bounds that are present. */
  function AmountClause(minAmount: Option<Param>, maxAmount: Option<Param>): Option<Range<JsNumber>> {
    if minAmount.Some? || maxAmount.Some?
    then Some(Range(AmountBound(minAmount), AmountBound(maxAmount))) else None
  }

  /** The `where` object a query yields. */
  function WhereOf(q: Query, agentId: int, parseDate: string -> Option<Timestamp>): Where {
    Where(
      agentId,
      if Given(q.accountId) then Some(ToNumber(q.accountId.value)) else None,
      if Given(q.counterpartyId) then Some(ToNumber(q.counterpartyId.value)) else None,
      if TextGiven(q.searchText) then q.searchText else None,
      DateClause(q.startDate, q.endDate, parseDate),
      AmountClause(q.minAmount, q.maxAmount),
      DetailsClause(q.categoryIds, q.productNames))
  }

  /** The `whereClause` construction, field by field. */
  method BuildWhere(q: Query, agentId: int, parseDate: string -> Option<Timestamp>) returns (w: Where)
    ensures w == WhereOf(q, agentId, parseDate)
  {
    w := Where(agentId, None, None, None, None, None, None);
    if Given(q.accountId) {
      w := w.(accountId := Some(ToNumber(q.accountId.value)));
    }
    if Given(q.counterpartyId) {
      w := w.(counterpartyId := Some(ToNumber(q.counterpartyId.value)));
    }
    if TextGiven(q.searchText) {
      w := w.(nameContains := q.searchText);
    }
    if DateGiven(q.startDate) || DateGiven(q.endDate) {
      var date := BuildDateRange(q.startDate, q.endDate, parseDate);
      w := w.(date := Some(date));
    }
    if q.minAmount.Some? || q.maxAmount.Some? {
      var amount := Range(None, None);
      if q.minAmount.Some? {
        amount := amount.(gte := Some(ToNumber(q.minAmount.value)));
      }
      if q.maxAmount.Some? {
        amount := amount.(lte := Some(ToNumber(q.maxAmount.value)));
      }
      w := w.(amount := Some(amount));
    }
    var nested := BuildNestedFilters(q.categoryIds, q.productNames);
    if nested.Some? {
      w := w.(details := nested);
    }
  }

  /** The bounds of `whereClause.date`, set one after the other. */
  method BuildDateRange(startDate: Option<DateParam>, endDate: Option<DateParam>,
                        parseDate: string -> Option<Timestamp>) returns (date: Range<Timestamp>)
    ensures date == Range(DateBound(startDate, parseDate), DateBound(endDate, parseDate))
  {
    date := Range(None, None);
    if DateGiven(startDate) {
      match startDate.value
      case DateStr(s) =>
        var t := parseDate(s);
        if t.Some? {
          date := date.(gte := t);
        }
      case DateObj(t) =>
        date := date.(gte := Some(t));
    }
    if DateGiven(endDate) {
      match endDate.value
      case DateStr(s) =>
        var t := parseDate(s);
        if t.Some? {
          date := date.(lte := t);
        }
      case DateObj(t) =>
        date := date.(lte := Some(t));
    }
  }

  /** `nestedFilters`: the category clause first, then the product names
      added into the same `details.some.productOrService`. */
  method BuildNestedFilters(categoryIds: Option<Multi>, productNames: Option<Multi>) returns (nested: Option<ProductFilter>)
    ensures nested == DetailsClause(categoryIds, productNames)
  {
    nested := None;
    if MultiGiven(categoryIds) {
      var numbers := NumericIds(AsArray(categoryIds.value));
      if |numbers| > 0 {
        nested := Some(ProductFilter(Some(numbers), None));
      }
    }
    if MultiGiven(productNames) {
      var names := AsArray(productNames.value);
      if |names| > 0 {
        if nested.None? {
          nested := Some(ProductFilter(None, None));
        }
        nested := Some(nested.value.(nameIn := Some(TrimmedNames(names))));
      }
    }
  }

  // ---------------------------------------------------------------------
  // Evaluation by the store
  // ---------------------------------------------------------------------

  /** A number the store's validation admits for a numeric column: NaN is
      refused. */
  predicate StoreNumber(n: JsNumber) {
    n.Int?
  }

  predicate StoreBound(b: Option<JsNumber>) {
    b.Some? ==> StoreNumber(b.value)
  }

  /** Whether the store accepts a `where` object: every number it carries
      for `accountId`, `counterpartyId` and `amount` is one. The dates were
      converted by `toISOString()` and are always admitted. */
  predicate StoreAccepts(w: Where) {
    (w.accountId.Some? ==> StoreNumber(w.accountId.value)) &&
    (w.counterpartyId.Some? ==> StoreNumber(w.counterpartyId.value)) &&
    (w.amount.Some? ==> StoreBound(w.amount.value.gte) && StoreBound(w.amount.value.lte))
  }

  /** Equality with a numeric filter value (an admitted one is an integer). */
  predicate EqualsNumber(n: JsNumber, x: int) {
    n == Int(x)
  }

  predicate DateInRange(r: Range<Timestamp>, t: Timestamp) {
    (r.gte.Some? ==> r.gte.value <= t) && (r.lte.Some? ==> t <= r.lte.value)
  }

  /** An amount range with admitted (integer) bounds. */
  predicate AmountInRange(r: Range<JsNumber>, x: real) {
    (r.gte.Some? ==> r.gte.value.Int? && r.gte.value.value as real <= x) &&
    (r.lte.Some? ==> r.lte.value.Int? && x <= r.lte.value.value as real)
  }

  predicate ProductMatches(f: ProductFilter, p: Product) {
    (f.categoryIn.Some? ==> p.categoryId.NonNull? && p.categoryId.value in f.categoryIn.value) &&
    (f.nameIn.Some? ==> p.name in f.nameIn.value)
  }

  /** The store's reading of a `where` object. */
  predicate Matches(w: Where, t: FetchedTransaction) {
    var tx := t.transaction;
    tx.agentId == w.agentId &&
    (w.accountId.Some? ==> EqualsNumber(w.accountId.value, tx.accountId)) &&
    (w.counterpartyId.Some? ==> EqualsNumber(w.counterpartyId.value, tx.counterpartyId)) &&
    (w.nameContains.Some? ==> ContainsInsensitive(tx.name, w.nameContains.value)) &&
    (w.date.Some? ==> DateInRange(w.date.value, tx.date)) &&
    (w.amount.Some? ==> AmountInRange(w.amount.value, tx.amount)) &&
    (w.details.Some? ==> exists d :: d in t.details && ProductMatches(w.details.value, d.productOrService.product))
  }

  /** `transaction.findMany({ where })` over the rows in store order: the
      matching rows, or a refusal when the store does not accept `w`. */
  function Select(rows: seq<FetchedTransaction>, w: Where): (r: Fetch<FetchedTransaction>)
    ensures r.Refused? <==> !StoreAccepts(w)
    ensures r.Rows? ==> forall t :: t in r.rows <==> t in rows && Matches(w, t)
  {
    if StoreAccepts(w) then Rows(Filter(rows, (t: FetchedTransaction) => Matches(w, t))) else Refused
  }

  // ---------------------------------------------------------------------
  // Properties
  // ---------------------------------------------------------------------

  /** Without any parameter, the query selects every transaction of the agent. */
  lemma EmptyQueryMatchesAgent(agentId: int, parseDate: string -> Option<Timestamp>, t: FetchedTransaction)
    ensures Matches(WhereOf(Query(None, None, None, None, None, None, None, None, None), agentId, parseDate), t)
            <==> t.transaction.agentId == agentId
  {
  }

  /** An account id given as the decimal string of an id selects exactly
      the agent's transactions on that account (with no other parameter). */
  lemma AccountIdStringSelectsAccount(agentId: int, parseDate: string -> Option<Timestamp>, k: int, t: FetchedTransaction)
    requires k != 0
    ensures StoreAccepts(WhereOf(Query(Some(Str(IntToString(k))), None, None, None, None, None, None, None, None), agentId, parseDate))
    ensures Matches(WhereOf(Query(Some(Str(IntToString(k))), None, None, None, None, None, None, None, None), agentId, parseDate), t)
            <==> t.transaction.agentId == agentId && t.transaction.accountId == k
  {
    ParseIntOfIntToString(k, 10);
    assert IntToString(k) != "" by {
      if k < 0 { } else { assert |NatToString(k)| > 0; }
    }
  }

  /** An account id of 0 (falsy) adds no condition at all. */
  lemma ZeroAccountIdIgnored(q: Query, agentId: int, parseDate: string -> Option<Timestamp>)
    requires q.accountId == Some(Num(Int(0))) || q.accountId == Some(Str(""))
    ensures WhereOf(q, agentId, parseDate).accountId.None?
  {
  }

  /** A non-numeric amount bound is not dropped: it reaches the `where`
      object as NaN, and the store refuses the query. */
  lemma NaNAmountBoundRefused(q: Query, agentId: int, parseDate: string -> Option<Timestamp>,
                              rows: seq<FetchedTransaction>)
    requires q.minAmount.Some? && ToNumber(q.minAmount.value).NaN?
    ensures WhereOf(q, agentId, parseDate).amount.Some?
    ensures WhereOf(q, agentId, parseDate).amount.value.gte == Some(NaN)
    ensures Select(rows, WhereOf(q, agentId, parseDate)) == Refused
  {
  }

  /** Likewise a truthy account id that does not parse: `parseInt` gives
      NaN, which goes into the `where` object, and the store refuses it. */
  lemma NonNumericAccountIdRefused(q: Query, agentId: int, parseDate: string -> Option<Timestamp>,
                                   rows: seq<FetchedTransaction>)
    requires q.accountId.Some? && ParamTruthy(q.accountId.value) && ToNumber(q.accountId.value).NaN?
    ensures WhereOf(q, agentId, parseDate).accountId == Some(NaN)
    ensures Select(rows, WhereOf(q, agentId, parseDate)) == Refused
  {
  }

  /** Numeric parameters that parse, and any date and detail-level
      parameters, give a query the store accepts. */
  lemma ParsedNumbersAccepted(q: Query, agentId: int, parseDate: string -> Option<Timestamp>)
    requires q.accountId.Some? ==> !ParamTruthy(q.accountId.value) || ToNumber(q.accountId.value).Int?
    requires q.counterpartyId.Some? ==> !ParamTruthy(q.counterpartyId.value) || ToNumber(q.counterpartyId.value).Int?
    requires q.minAmount.Some? ==> ToNumber(q.minAmount.value).Int?
    requires q.maxAmount.Some? ==> ToNumber(q.maxAmount.value).Int?
    ensures StoreAccepts(WhereOf(q, agentId, parseDate))
  {
  }

  /** `date: {}` is present whenever a bound was given, even if neither
      parses; it then constrains nothing. */
  lemma UnparsableDatesGiveEmptyRange(q: Query, agentId: int, parseDate: string -> Option<Timestamp>, t: FetchedTransaction)
    requires q.startDate.Some? && q.startDate.value.DateStr? && q.startDate.value.text != ""
    requires parseDate(q.startDate.value.text).None?
    requires q.endDate.None?
    ensures WhereOf(q, agentId, parseDate).date == Some(Range(None, None))
    ensures DateInRange(WhereOf(q, agentId, parseDate).date.value, t.transaction.date)
  {
  }

  /** A truthy scalar `categoryIds` gives the same clause as the
      one-element array. */
  lemma ScalarCategoryIdLikeArray(p: Param, productNames: Option<Multi>)
    requires ParamTruthy(p)
    ensures DetailsClause(Some(One(p)), productNames) == DetailsClause(Some(Many([p])), productNames)
  {
  }

  /** But a scalar 0 is falsy and adds nothing, while `[0]` filters on
      category 0. */
  lemma ScalarZeroCategoryIdIgnored(productNames: Option<Multi>)
    ensures DetailsClause(Some(One(Num(Int(0)))), productNames) == DetailsClause(None, productNames)
    ensures CategoryClause(Some(Many([Num(Int(0))]))) == Some([0])
  {
    assert NumericIds([Num(Int(0))]) == [0] by {
      assert NumericIds([Num(Int(0))][1..]) == [];
    }
  }

  /** Category ids given as decimal strings survive the conversion: the
      clause holds exactly those ids. */
  lemma {:induction false} DecimalIdsSurvive(ids: seq<int>)
    ensures NumericIds(DecimalParams(ids)) == ids
  {
    if ids != [] {
      DecimalIdsSurvive(ids[1..]);
      DecimalIdHead(ids[0], DecimalParams(ids[1..]));
      assert ids == [ids[0]] + ids[1..];
    }
  }

  /** The ids as the decimal strings a query string carries. */
  function DecimalParams(ids: seq<int>): seq<Param> {
    if ids == [] then [] else [Str(IntToString(ids[0]))] + DecimalParams(ids[1..])
  }

  /** One decimal id in front of the others. */
  lemma DecimalIdHead(k: int, rest: seq<Param>)
    ensures NumericIds([Str(IntToString(k))] + rest) == [k] + NumericIds(rest)
  {
    ParseIntOfIntToString(k, 10);
    NumericIdsCons(Str(IntToString(k)), rest);
  }

  lemma NumericIdsCons(p: Param, rest: seq<Param>)
    ensures NumericIds([p] + rest) == (if ToNumber(p).Int? then [ToNumber(p).value] else []) + NumericIds(rest)
  {
    assert ([p] + rest)[1..] == rest;
  }

  /** The category and product-name conditions must hold of the same
      detail: a transaction with one detail in the category and another with
      the name does not match. */
  lemma SameDetailMustMatchBoth(w: Where, t: FetchedTransaction, a: FetchedDetail, b: FetchedDetail)
    requires w.details.Some? && w.details.value.categoryIn.Some? && w.details.value.nameIn.Some?
    requires t.details == [a, b]
    requires a.productOrService.product.name !in w.details.value.nameIn.value
    requires b.productOrService.product.categoryId.Null?
    ensures !Matches(w, t)
  {
  }
}
