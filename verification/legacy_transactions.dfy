/** The legacy transaction service (apps/backend/src/transactions/transactions.service.ts):
    the same creation checks over the older schema, where rows belong to a
    `userId` and a transaction names its `userAccountId`, and a simpler
    query that passes its parameters to the store unconverted and applies
    no post-filter.

    The service reads `userAccountId` from the creation request and
    `userAccountId`, `categoryId` and `productName` from the query, names
    the request classes of the same directory do not declare; the model
    takes them as the optional values the service reads. An absent
    `userAccountId` puts `id: undefined` into the account lookup, which the
    store ignores, so any account of the user is found. */
module LegacyTransactions {
  import opened Wrappers
  import opened JsText
  import opened Store
  import opened DetailsSum
  import opened DetailsQuery

  datatype LegacyAccount = LegacyAccount(id: int, userId: int, name: string)

  datatype LegacyTransaction = LegacyTransaction(
    id: int, userId: int, name: string, description: Nullable<string>, amount: real,
    date: Timestamp, userAccountId: Option<int>, counterpartyId: int)

  /** A detail row of the older schema: no owner column. */
  datatype LegacyDetail = LegacyDetail(
    id: int, transactionId: int, productOrServiceId: int, quantity: real, pricePerUnit: real)

  datatype LegacyRequest = LegacyRequest(
    userAccountId: Option<int>, counterpartyId: int, amount: real, date: Timestamp,
    name: string, description: Option<string>, details: seq<DetailInput>)

  datatype LegacyError = BadRequest | NotFound

  datatype LegacyResult = Created(transaction: LegacyTransaction) | Rejected(error: LegacyError)

  /** The tables of the older schema. */
  class LegacyDb {
    var accounts: seq<LegacyAccount>
    var transactions: seq<LegacyTransaction>
    var details: seq<LegacyDetail>
    var nextTransactionId: int
    var nextDetailId: int

    ghost predicate Valid()
      reads this
    {
      (forall t :: t in transactions ==> t.id < nextTransactionId) &&
      (forall d :: d in details ==> d.id < nextDetailId)
    }

    constructor (accounts: seq<LegacyAccount>)
      ensures Valid()
      ensures this.accounts == accounts && transactions == [] && details == []
    {
      this.accounts := accounts;
      transactions := [];
      details := [];
      nextTransactionId := 1;
      nextDetailId := 1;
    }
  }

  /** `account.findFirst({ where: { id, userId } })`; an undefined id is no condition. */
  function FindUserAccount(accounts: seq<LegacyAccount>, id: Option<int>, userId: int): (r: Option<LegacyAccount>)
    ensures r.Some? ==> r.value in accounts && r.value.userId == userId && (id.Some? ==> r.value.id == id.value)
    ensures r.None? <==> forall a :: a in accounts ==> !(a.userId == userId && (id.Some? ==> a.id == id.value))
  {
    First(accounts, (a: LegacyAccount) => (id.None? || a.id == id.value) && a.userId == userId)
  }

  function NewLegacyTransaction(req: LegacyRequest, userId: int, id: int): (t: LegacyTransaction)
    ensures t.id == id && t.userId == userId && t.name == req.name && t.amount == req.amount
    ensures t.date == req.date && t.userAccountId == req.userAccountId && t.counterpartyId == req.counterpartyId
    ensures t.description.NonNull? <==> req.description.Some?
    ensures req.description.Some? ==> t.description.value == req.description.value
  {
    LegacyTransaction(id, userId, req.name,
                      if req.description.Some? then NonNull(req.description.value) else Null,
                      req.amount, req.date, req.userAccountId, req.counterpartyId)
  }

  /** `details.map(detail => ({ ...detail, transactionId }))`, with store ids from `firstId`. */
  function StampLegacyDetails(inputs: seq<DetailInput>, transactionId: int, firstId: int): (r: seq<LegacyDetail>)
    ensures |r| == |inputs|
    ensures forall i :: 0 <= i < |r| ==>
      r[i].id == firstId + i && r[i].transactionId == transactionId &&
      r[i].productOrServiceId == inputs[i].productOrServiceId &&
      r[i].quantity == inputs[i].quantity && r[i].pricePerUnit == inputs[i].pricePerUnit
  {
    if inputs == [] then []
    else
      [LegacyDetail(firstId, transactionId, inputs[0].productOrServiceId, inputs[0].quantity, inputs[0].pricePerUnit)]
      + StampLegacyDetails(inputs[1..], transactionId, firstId + 1)
  }

  /** Legacy `create`: amount check, then both accounts must be the user's,
      then the transaction and its details are written together. */
  method Create(db: LegacyDb, req: LegacyRequest, userId: int) returns (r: LegacyResult)
    requires db.Valid()
    modifies db`transactions, db`details, db`nextTransactionId, db`nextDetailId
    ensures db.Valid()
    ensures r == Rejected(BadRequest) <==> AmountMismatch(req.details, req.amount)
    ensures r == Rejected(NotFound) <==>
              !AmountMismatch(req.details, req.amount) &&
              (FindUserAccount(db.accounts, req.userAccountId, userId).None? ||
               FindUserAccount(db.accounts, Some(req.counterpartyId), userId).None?)
    ensures r.Rejected? ==> unchanged(db)
    ensures r.Created? ==>
              r.transaction == NewLegacyTransaction(req, userId, old(db.nextTransactionId)) &&
              db.transactions == old(db.transactions) + [r.transaction] &&
              db.details == old(db.details) + StampLegacyDetails(req.details, r.transaction.id, old(db.nextDetailId)) &&
              db.nextTransactionId == old(db.nextTransactionId) + 1 &&
              db.nextDetailId == old(db.nextDetailId) + |req.details|
  {
    if AmountMismatch(req.details, req.amount) {
      return Rejected(BadRequest);
    }
    var userAccount := FindUserAccount(db.accounts, req.userAccountId, userId);
    var counterpartyAccount := FindUserAccount(db.accounts, Some(req.counterpartyId), userId);
    if userAccount.None? || counterpartyAccount.None? {
      return Rejected(NotFound);
    }
    var transaction := NewLegacyTransaction(req, userId, db.nextTransactionId);
    var rows := StampLegacyDetails(req.details, transaction.id, db.nextDetailId);
    db.transactions := db.transactions + [transaction];
    db.nextTransactionId := db.nextTransactionId + 1;
    db.details := db.details + rows;
    db.nextDetailId := db.nextDetailId + |rows|;
    r := Created(transaction);
  }

  // ---------------------------------------------------------------------
  // Query
  // ---------------------------------------------------------------------

  /** The parameters the legacy query reads. */
  datatype LegacyQuery = LegacyQuery(
    userAccountId: Option<Param>, categoryId: Option<Param>, productName: Option<string>,
    startDate: Option<DateParam>, endDate: Option<DateParam>)

  /** `details.some.productOrService`: `categoryId` and a case-insensitive `name: { contains }`. */
  datatype LegacyProductFilter = LegacyProductFilter(categoryId: Option<Param>, nameContains: Option<string>)

  /** The legacy `where` object; values are passed through as given. */
  datatype LegacyWhere = LegacyWhere(
    userId: int, userAccountId: Option<Param>, date: Option<Range<DateParam>>,
    details: Option<LegacyProductFilter>)

  /** A given (truthy) date bound, unconverted. */
  function PassDate(d: Option<DateParam>): Option<DateParam> {
    if DateGiven(d) then d else None
  }

  function LegacyWhereOf(q: LegacyQuery, userId: int): LegacyWhere {
    LegacyWhere(
      userId,
      if Given(q.userAccountId) then q.userAccountId else None,
      if DateGiven(q.startDate) || DateGiven(q.endDate) then Some(Range(PassDate(q.startDate), PassDate(q.endDate))) else None,
      if Given(q.categoryId) || TextGiven(q.productName)
      then Some(LegacyProductFilter(if Given(q.categoryId) then q.categoryId else None,
                                    if TextGiven(q.productName) then q.productName else None))
      else None)
  }

  /** Legacy `findAll`'s `whereClause`, field by field. */
  method BuildLegacyWhere(q: LegacyQuery, userId: int) returns (w: LegacyWhere)
    ensures w == LegacyWhereOf(q, userId)
  {
    w := LegacyWhere(userId, None, None, None);
    if Given(q.userAccountId) {
      w := w.(userAccountId := q.userAccountId);
    }
    if DateGiven(q.startDate) || DateGiven(q.endDate) {
      var date := Range(None, None);
      if DateGiven(q.startDate) {
        date := date.(gte := q.startDate);
      }
      if DateGiven(q.endDate) {
        date := date.(lte := q.endDate);
      }
      w := w.(date := Some(date));
    }
    if Given(q.categoryId) || TextGiven(q.productName) {
      var filter := LegacyProductFilter(None, None);
      if Given(q.categoryId) {
        filter := filter.(categoryId := q.categoryId);
      }
      if TextGiven(q.productName) {
        filter := filter.(nameContains := q.productName);
      }
      w := w.(details := Some(filter));
    }
  }

  /** A legacy transaction with its detail rows and their products. */
  datatype LegacyFetched = LegacyFetched(
    transaction: LegacyTransaction, account: LegacyAccount, counterparty: LegacyAccount,
    details: seq<(LegacyDetail, Product)>)

  /** A value the store admits for an integer column: a number that is an
      integer. A string, even "5", is refused. */
  predicate IntValue(v: Param) {
    v.Num? && v.n.Int?
  }

  /** A date bound the store admits: a `Date`, or a string in the
      store's own date-time format (`storeDate` reads it; None when the
      store refuses the text). */
  predicate DateAccepted(b: Option<DateParam>, storeDate: string -> Option<Timestamp>) {
    b.None? || b.value.DateObj? || storeDate(b.value.text).Some?
  }

  /** Whether the store accepts the legacy `where` object. */
  predicate LegacyAccepts(w: LegacyWhere, storeDate: string -> Option<Timestamp>) {
    (w.userAccountId.Some? ==> IntValue(w.userAccountId.value)) &&
    (w.date.Some? ==> DateAccepted(w.date.value.gte, storeDate) && DateAccepted(w.date.value.lte, storeDate)) &&
    (w.details.Some? && w.details.value.categoryId.Some? ==> IntValue(w.details.value.categoryId.value))
  }

  /** Equality of an admitted value with an integer column. */
  predicate ValueEquals(v: Param, x: int) {
    v == Num(Int(x))
  }

  /** A date bound as the store reads it: a `Date` as is, a string in the
      store's format. */
  predicate DateBoundHolds(b: Option<DateParam>, t: Timestamp, storeDate: string -> Option<Timestamp>, lower: bool) {
    b.None? ||
    match b.value
    case DateObj(x) => if lower then x <= t else t <= x
    case DateStr(s) => storeDate(s).Some? && (if lower then storeDate(s).value <= t else t <= storeDate(s).value)
  }

  predicate LegacyProductMatches(f: LegacyProductFilter, p: Product) {
    (f.categoryId.Some? ==> p.categoryId.NonNull? && ValueEquals(f.categoryId.value, p.categoryId.value)) &&
    (f.nameContains.Some? ==> ContainsInsensitive(p.name, f.nameContains.value))
  }

  predicate LegacyMatches(w: LegacyWhere, t: LegacyFetched, storeDate: string -> Option<Timestamp>) {
    t.transaction.userId == w.userId &&
    (w.userAccountId.Some? ==> t.transaction.userAccountId.Some? &&
                               ValueEquals(w.userAccountId.value, t.transaction.userAccountId.value)) &&
    (w.date.Some? ==> DateBoundHolds(w.date.value.gte, t.transaction.date, storeDate, true) &&
                      DateBoundHolds(w.date.value.lte, t.transaction.date, storeDate, false)) &&
    (w.details.Some? ==> exists d :: d in t.details && LegacyProductMatches(w.details.value, d.1))
  }

  /** Legacy `findAll`: the store's selection, ordered by date descending
      (the order of `rows`), with every detail included and no post-filter;
      or the store's refusal of the `where` object. */
  method FindAll(q: LegacyQuery, userId: int, storeDate: string -> Option<Timestamp>, rows: seq<LegacyFetched>)
    returns (r: Fetch<LegacyFetched>)
    ensures r.Refused? <==> !LegacyAccepts(LegacyWhereOf(q, userId), storeDate)
    ensures r.Rows? ==> r.rows == Filter(rows, (t: LegacyFetched) => LegacyMatches(LegacyWhereOf(q, userId), t, storeDate))
  {
    var w := BuildLegacyWhere(q, userId);
    if !LegacyAccepts(w, storeDate) {
      return Refused;
    }
    r := Rows(Filter(rows, (t: LegacyFetched) => LegacyMatches(w, t, storeDate)));
  }

  /** The query string delivers `userAccountId` and `categoryId` as
      strings, and the service passes them on unconverted: the store
      refuses every such query. */
  lemma StringIdsRefused(q: LegacyQuery, userId: int, storeDate: string -> Option<Timestamp>)
    requires (Given(q.userAccountId) && q.userAccountId.value.Str?) || (Given(q.categoryId) && q.categoryId.value.Str?)
    ensures !LegacyAccepts(LegacyWhereOf(q, userId), storeDate)
  {
  }

  /** Results come back whole: each returned transaction is an input row,
      with all of its details. */
  lemma FindAllReturnsWholeRows(q: LegacyQuery, userId: int, storeDate: string -> Option<Timestamp>,
                                rows: seq<LegacyFetched>, t: LegacyFetched)
    requires t in Filter(rows, (u: LegacyFetched) => LegacyMatches(LegacyWhereOf(q, userId), u, storeDate))
    ensures t in rows && t.transaction.userId == userId
  {
  }

  /** The product-name condition is a case-insensitive substring test: a
      product named like the parameter up to ASCII case, with text around
      it, matches. */
  lemma {:induction false} ProductNameMatchesIgnoringCase(prefix: string, name: string, suffix: string, param: string)
    requires ToLower(name) == ToLower(param)
    ensures ContainsInsensitive(prefix + name + suffix, param)
  {
    var s := ToLower(prefix + name + suffix);
    ToLowerAppend(prefix, name);
    ToLowerAppend(prefix + name, suffix);
    assert s == ToLower(prefix) + ToLower(name) + ToLower(suffix);
    assert s[|prefix|..|prefix| + |name|] == ToLower(name);
    assert OccursAt(s, ToLower(param), |prefix|);
    ContainsAt(s, ToLower(param));
  }

  /** The category and name conditions share one `details.some`: a
      transaction whose only category match and only name match are
      different details is not selected. */
  lemma SameDetailMustMatchBoth(q: LegacyQuery, userId: int, storeDate: string -> Option<Timestamp>,
                                t: LegacyFetched, a: (LegacyDetail, Product), b: (LegacyDetail, Product))
    requires Given(q.categoryId) && TextGiven(q.productName)
    requires t.details == [a, b]
    requires !ContainsInsensitive(a.1.name, q.productName.value)
    requires b.1.categoryId.Null?
    ensures !LegacyMatches(LegacyWhereOf(q, userId), t, storeDate)
  {
  }

  /** Dates are handed to the store unconverted: a string bound stays a string. */
  lemma DatesPassUnparsed(q: LegacyQuery, userId: int, s: string)
    requires q.startDate == Some(DateStr(s)) && s != ""
    ensures LegacyWhereOf(q, userId).date.Some?
    ensures LegacyWhereOf(q, userId).date.value.gte == Some(DateStr(s))
  {
  }
}
