/** The records of the ledger's data store, and the store itself.

    The relational store is abstract here: each table is a sequence of rows
    in the order the store returns them, `findFirst` is `First`, and a
    `$transaction` block is all-or-nothing because a method either assigns
    the tables or leaves them untouched. */
module Store {
  import opened Wrappers

  /** A point in time, in milliseconds since the epoch. A `Date` and its
      `toISOString()` are both represented by this number. */
  type Timestamp = int

  datatype AccountType = Own | Counterparty

  datatype Currency = Currency(
    id: int, name: string, code: string, symbol: string,
    fractionalPartName: string, partFraction: int)

  datatype Account = Account(
    id: int, agentId: int, name: string, accountType: AccountType,
    description: Nullable<string>, currencyId: int)

  /** An account with its currency included (`include: { currency: true }`). */
  datatype AccountWithCurrency = AccountWithCurrency(account: Account, currency: Currency)

  /** A category; a null `superCategoryId` (or 0) makes it a root. */
  datatype Category = Category(id: int, agentId: int, name: string, superCategoryId: Nullable<int>)

  datatype MeasureUnit = MeasureUnit(id: int, shortName: string)

  /** A product or service; a null `categoryId` means "uncategorized". */
  datatype Product = Product(
    id: int, agentId: int, name: string, categoryId: Nullable<int>,
    unitId: Nullable<int>, pieceSizeUnitId: Nullable<int>)

  datatype Transaction = Transaction(
    id: int, agentId: int, name: string, description: Nullable<string>,
    amount: real, date: Timestamp, accountId: int, counterpartyId: int,
    transferLinkedTransactionId: Nullable<int>)

  /** One line item of a transaction. */
  datatype TransactionDetail = TransactionDetail(
    id: int, transactionId: int, productOrServiceId: int,
    quantity: real, pricePerUnit: real, agentId: int)

  /** A product with `category`, `unit` and `pieceSizeUnit` included. */
  datatype ProductWithRelations = ProductWithRelations(
    product: Product, category: Nullable<Category>,
    unit: Nullable<MeasureUnit>, pieceSizeUnit: Nullable<MeasureUnit>)

  /** A detail with its product included. */
  datatype FetchedDetail = FetchedDetail(detail: TransactionDetail, productOrService: ProductWithRelations)

  /** A transaction as `findMany` returns it with the includes of the query
      service: account and counterparty with currencies, details with products. */
  datatype FetchedTransaction = FetchedTransaction(
    transaction: Transaction, account: AccountWithCurrency,
    counterparty: AccountWithCurrency, details: seq<FetchedDetail>)

  /** What a `findMany` call yields: the selected rows, or the client's
      refusal of a `where` object holding a value the column type does not
      admit (a validation error the services do not catch, so the request
      fails). */
  datatype Fetch<T> = Rows(rows: seq<T>) | Refused

  /** `findFirst`: the first row of `rows` satisfying `p`. */
  function First<T>(rows: seq<T>, p: T -> bool): (r: Option<T>)
    ensures r.Some? ==> r.value in rows && p(r.value)
    ensures r.None? <==> forall x :: x in rows ==> !p(x)
  {
    if rows == [] then None
    else if p(rows[0]) then Some(rows[0])
    else First(rows[1..], p)
  }

  /** The first match in a longer sequence is the first match in the
      shorter one, if there is one, and otherwise the new last row if it
      matches. */
  lemma {:induction false} FirstSnoc<T>(rows: seq<T>, x: T, p: T -> bool)
    ensures First(rows + [x], p) == if First(rows, p).Some? then First(rows, p) else if p(x) then Some(x) else None
  {
    if rows == [] {
      assert rows + [x] == [x];
    } else {
      assert (rows + [x])[1..] == rows[1..] + [x];
      FirstSnoc(rows[1..], x, p);
    }
  }

  /** `findMany` with a condition, and `Array.prototype.filter`: the rows
      satisfying `p`, in their order. */
  function Filter<T(!new)>(rows: seq<T>, p: T -> bool): (r: seq<T>)
    ensures forall x :: x in r <==> x in rows && p(x)
    ensures |r| <= |rows|
  {
    if rows == [] then []
    else (if p(rows[0]) then [rows[0]] else []) + Filter(rows[1..], p)
  }

  /** Filtering commutes with concatenation, so the kept rows keep their
      relative order. */
  lemma {:induction false} FilterAppend<T(!new)>(a: seq<T>, b: seq<T>, p: T -> bool)
    ensures Filter(a + b, p) == Filter(a, p) + Filter(b, p)
  {
    if a != [] {
      assert (a + b)[1..] == a[1..] + b;
      FilterAppend(a[1..], b, p);
    } else {
      assert a + b == b;
    }
  }

  /** No element occurs twice. */
  predicate Distinct<T(==)>(s: seq<T>) {
    forall i, j :: 0 <= i < j < |s| ==> s[i] != s[j]
  }

  /** Filtering introduces no repetition. */
  lemma {:induction false} FilterDistinct<T(!new)>(rows: seq<T>, p: T -> bool)
    requires Distinct(rows)
    ensures Distinct(Filter(rows, p))
  {
    if rows != [] {
      assert Distinct(rows[1..]);
      FilterDistinct(rows[1..], p);
      assert rows[0] !in rows[1..];
    }
  }

  /** A filter every row passes changes nothing. */
  lemma {:induction false} FilterKeepsAll<T(!new)>(rows: seq<T>, p: T -> bool)
    requires forall x :: x in rows ==> p(x)
    ensures Filter(rows, p) == rows
  {
    if rows != [] {
      assert forall x :: x in rows[1..] ==> x in rows;
      FilterKeepsAll(rows[1..], p);
    }
  }

  /** `account.findFirst({ where: { id, agentId } })`. */
  function FindAccount(accounts: seq<Account>, id: int, agentId: int): Option<Account> {
    First(accounts, (a: Account) => a.id == id && a.agentId == agentId)
  }

  /** `category.findFirst({ where: { id, agentId } })` (also `findUnique` on the same keys). */
  function FindCategory(categories: seq<Category>, id: int, agentId: int): Option<Category> {
    First(categories, (c: Category) => c.id == id && c.agentId == agentId)
  }

  /** `productOrService.findFirst({ where: { id, agentId } })`. */
  function FindProduct(products: seq<Product>, id: int, agentId: int): Option<Product> {
    First(products, (p: Product) => p.id == id && p.agentId == agentId)
  }

  /** Row ids are primary keys: no two rows of a table share one. */
  ghost predicate UniqueIds<T>(rows: seq<T>, id: T -> int) {
    forall i, j :: 0 <= i < j < |rows| ==> id(rows[i]) != id(rows[j])
  }

  /** The data store: one sequence per table, and the next value of the
      transaction and detail id sequences. */
  class Db {
    var categories: seq<Category>
    var products: seq<Product>
    var accounts: seq<Account>
    var transactions: seq<Transaction>
    var details: seq<TransactionDetail>
    var nextTransactionId: int
    var nextDetailId: int

    /** The id sequences are ahead of every id already used. */
    ghost predicate Valid()
      reads this
    {
      (forall t :: t in transactions ==> t.id < nextTransactionId) &&
      (forall d :: d in details ==> d.id < nextDetailId)
    }

    constructor (categories: seq<Category>, products: seq<Product>, accounts: seq<Account>)
      ensures Valid()
      ensures this.categories == categories && this.products == products && this.accounts == accounts
      ensures transactions == [] && details == []
    {
      this.categories := categories;
      this.products := products;
      this.accounts := accounts;
      transactions := [];
      details := [];
      nextTransactionId := 1;
      nextDetailId := 1;
    }
  }
}
