/** The plain transactions table
    (apps/frontend/src/components/TransactionsTable.tsx): how a row's type is
    named, and the handlers that produce the next filter state handed to
    `onFilterChange`. */
module TransactionsTable {
  import opened Wrappers
  import Store
  import opened FilterIds

  /** The label a row gets. */
  datatype TransactionType = Transfer | Expense | Income

  /** `if (transaction.transferLinkedTransactionId)`: a link other than null
      and 0. */
  predicate IsLinked(t: Store.Transaction) {
    t.transferLinkedTransactionId.NonNull? && t.transferLinkedTransactionId.value != 0
  }

  /** `getTransactionType`: a linked transaction is a transfer whatever its
      amount; otherwise a negative amount is an expense, and any other amount
      (zero included) an income. */
  function GetTransactionType(t: Store.Transaction): (r: TransactionType)
    ensures r == Transfer <==> IsLinked(t)
    ensures r == Expense <==> !IsLinked(t) && t.amount < 0.0
    ensures r == Income <==> !IsLinked(t) && t.amount >= 0.0
  {
    if IsLinked(t) then Transfer
    else if t.amount < 0.0 then Expense
    else Income
  }

  /** The type of a transfer does not depend on its amount, and that of an
      unlinked transaction depends on nothing but its sign. */
  lemma TypeDependsOnLinkAndSign(t: Store.Transaction, u: Store.Transaction)
    requires IsLinked(t) == IsLinked(u)
    requires IsLinked(t) || (t.amount < 0.0 <==> u.amount < 0.0)
    ensures GetTransactionType(t) == GetTransactionType(u)
  {
  }

  datatype FilterState = FilterState(
    dateFrom: string,
    dateTo: string,
    searchText: string,
    category: seq<string>,
    account: seq<string>,
    counterparty: seq<string>,
    productName: seq<string>)

  /** The keys of the filter state. */
  datatype FieldName = DateFrom | DateTo | SearchText | Category | Account | Counterparty | ProductName

  datatype FieldValue = Text(text: string) | List(items: seq<string>)

  /** `filters[name]`. */
  function Field(f: FilterState, n: FieldName): FieldValue {
    match n
    case DateFrom => Text(f.dateFrom)
    case DateTo => Text(f.dateTo)
    case SearchText => Text(f.searchText)
    case Category => List(f.category)
    case Account => List(f.account)
    case Counterparty => List(f.counterparty)
    case ProductName => List(f.productName)
  }

  /** `f` and `g` agree on every key but `n`. */
  predicate SameExcept(f: FilterState, g: FilterState, n: FieldName) {
    forall m :: m != n ==> Field(f, m) == Field(g, m)
  }

  /** The keys of the table's text inputs. */
  predicate IsTextKey(n: FieldName) {
    n == DateFrom || n == DateTo || n == SearchText
  }

  /** `handleFilterChange` from a text input: `{ ...currentFilters, [name]: value }`. */
  function HandleFilterChange(f: FilterState, name: FieldName, value: string): (r: FilterState)
    requires IsTextKey(name)
    ensures Field(r, name) == Text(value)
    ensures SameExcept(f, r, name)
  {
    match name
    case DateFrom => f.(dateFrom := value)
    case DateTo => f.(dateTo := value)
    case SearchText => f.(searchText := value)
  }

  function SelectedAccountIds(f: FilterState): seq<int> {
    ParseIds(f.account)
  }

  function SelectedCounterpartyIds(f: FilterState): seq<int> {
    ParseIds(f.counterparty)
  }

  /** `handleAccountChange`: the chosen ids as decimal strings, and nothing
      else; the dropdown then shows exactly those ids. */
  function HandleAccountChange(f: FilterState, selectedIds: seq<int>): (r: FilterState)
    ensures SameExcept(f, r, Account)
    ensures SelectedAccountIds(r) == selectedIds
  {
    ParseIdsOfToStrings(selectedIds);
    f.(account := ToStrings(selectedIds))
  }

  /** `handleCounterpartyChange`. */
  function HandleCounterpartyChange(f: FilterState, selectedIds: seq<int>): (r: FilterState)
    ensures SameExcept(f, r, Counterparty)
    ensures SelectedCounterpartyIds(r) == selectedIds
  {
    ParseIdsOfToStrings(selectedIds);
    f.(counterparty := ToStrings(selectedIds))
  }

  /** The two dropdowns do not interfere: choosing counterparties leaves the
      chosen accounts as they were, and the other way round. */
  lemma DropdownsIndependent(f: FilterState, accounts: seq<int>, counterparties: seq<int>)
    ensures SelectedAccountIds(HandleCounterpartyChange(HandleAccountChange(f, accounts), counterparties)) == accounts
    ensures SelectedCounterpartyIds(HandleAccountChange(HandleCounterpartyChange(f, counterparties), accounts)) == counterparties
  {
    assert Field(HandleCounterpartyChange(HandleAccountChange(f, accounts), counterparties), Account)
        == Field(HandleAccountChange(f, accounts), Account);
    assert Field(HandleAccountChange(HandleCounterpartyChange(f, counterparties), accounts), Counterparty)
        == Field(HandleCounterpartyChange(f, counterparties), Counterparty);
  }
}
