/** The filter state of the transactions-with-details table
    (apps/frontend/src/components/TransactionsDetailsTable.tsx) and the
    handlers that produce the next state handed to `onFilterChange`. The
    component never edits `currentFilters` itself: each handler returns the
    updated copy, and only the pending amount inputs are the component's
    own state (the class `AmountInputs`). */
module TransactionsDetailsTable {
  import opened Wrappers
  import opened ProductsService
  import opened FilterIds
  import Store

  datatype FilterState = FilterState(
    dateFrom: string,
    dateTo: string,
    searchText: string,
    category: seq<string>,
    account: seq<string>,
    counterparty: seq<string>,
    productName: seq<string>,
    minAmount: string,
    maxAmount: string)

  /** The keys of the filter state. */
  datatype FieldName =
    DateFrom | DateTo | SearchText | Category | Account | Counterparty | ProductName | MinAmount | MaxAmount

  datatype FieldValue = Text(text: string) | List(items: seq<string>)

  /** `filters[name]`. */
  function Field(f: FilterState, n: FieldName): FieldValue {
    match n
    case DateFrom => Text(f.dateFrom)
    case DateTo => Text(f.dateTo)
    case SearchText => Text(f.searchText)
    case Category => List(f.category)
    case Account => List(f.account)
    case Counterparty => List(f.counterparty)
    case ProductName => List(f.productName)
    case MinAmount => Text(f.minAmount)
    case MaxAmount => Text(f.maxAmount)
  }

  /** `f` and `g` agree on every key but `n`. */
  predicate SameExcept(f: FilterState, g: FilterState, n: FieldName) {
    forall m :: m != n ==> Field(f, m) == Field(g, m)
  }

  /** The ids the category dropdown shows as chosen. */
  function SelectedCategoryIds(f: FilterState): seq<int> {
    ParseIds(f.category)
  }

  function SelectedAccountIds(f: FilterState): seq<int> {
    ParseIds(f.account)
  }

  function SelectedCounterpartyIds(f: FilterState): seq<int> {
    ParseIds(f.counterparty)
  }

  /** The ids the product dropdown shows as chosen: every option whose label
      is one of the chosen names. */
  function SelectedProductIds(f: FilterState, productOptions: seq<SelectItem>): seq<int> {
    IdsWithLabels(productOptions, f.productName)
  }

  /** `handleCategoryChange`: the chosen category ids, as decimal strings,
      and nothing else; the dropdown then shows exactly those ids. */
  function HandleCategoryChange(f: FilterState, selectedIds: seq<int>): (r: FilterState)
    ensures SameExcept(f, r, Category)
    ensures SelectedCategoryIds(r) == selectedIds
  {
    ParseIdsOfToStrings(selectedIds);
    f.(category := ToStrings(selectedIds))
  }

  /** `handleAccountChange`. */
  function HandleAccountChange(f: FilterState, selectedIds: seq<int>): (r: FilterState)
    ensures SameExcept(f, r, Account)
    ensures SelectedAccountIds(r) == selectedIds
  {
    ParseIdsOfToStrings(selectedIds);
    f.(account := ToStrings(selectedIds))
  }

  /** `handleCounterpartyChange`. */
  function HandleCounterpartyChange(f: FilterState, selectedIds: seq<int>): (r: FilterState)
    ensures SameExcept(f, r, Counterparty)
    ensures SelectedCounterpartyIds(r) == selectedIds
  {
    ParseIdsOfToStrings(selectedIds);
    f.(counterparty := ToStrings(selectedIds))
  }

  /** `handleProductChange`: the labels of the product options whose id is
      chosen, in the options' order, and nothing else. */
  function HandleProductChange(f: FilterState, productOptions: seq<SelectItem>, selectedIds: seq<int>): (r: FilterState)
    ensures SameExcept(f, r, ProductName)
    ensures r.productName == Labels(Store.Filter(productOptions, (it: SelectItem) => it.id in selectedIds))
    ensures forall x :: x in r.productName <==>
              exists it :: it in productOptions && it.id in selectedIds && it.labelText == x
  {
    f.(productName := LabelsOfSelected(productOptions, selectedIds))
  }

  /** After `handleProductChange` the product dropdown shows every chosen
      option as chosen (and, when labels repeat, possibly more). */
  lemma ChosenProductsStayChosen(f: FilterState, productOptions: seq<SelectItem>, selectedIds: seq<int>, it: SelectItem)
    requires it in productOptions && it.id in selectedIds
    ensures it.id in SelectedProductIds(HandleProductChange(f, productOptions, selectedIds), productOptions)
  {
    ChosenIdsSurviveLabels(productOptions, selectedIds, it);
  }

  /** What `handleFilterChange` reads from its event: the element's `name`,
      its `value`, and the values of its selected options. */
  datatype ChangeEvent = ChangeEvent(name: FieldName, value: string, selectedOptions: seq<string>)

  /** `handleFilterChange`: nothing for the amount inputs; the selected
      option values for `category` and `productName`; the value for the
      other (text) keys. The account and counterparty keys are set by their
      dropdowns only, never by this handler. */
  function HandleFilterChange(f: FilterState, e: ChangeEvent): (r: Option<FilterState>)
    requires e.name != Account && e.name != Counterparty
    ensures r.None? <==> e.name == MinAmount || e.name == MaxAmount
    ensures r.Some? ==> SameExcept(f, r.value, e.name)
    ensures r.Some? && (e.name == Category || e.name == ProductName) ==> Field(r.value, e.name) == List(e.selectedOptions)
    ensures r.Some? && (e.name == DateFrom || e.name == DateTo || e.name == SearchText) ==> Field(r.value, e.name) == Text(e.value)
  {
    match e.name
    case MinAmount => None
    case MaxAmount => None
    case Category => Some(f.(category := e.selectedOptions))
    case ProductName => Some(f.(productName := e.selectedOptions))
    case DateFrom => Some(f.(dateFrom := e.value))
    case DateTo => Some(f.(dateTo := e.value))
    case SearchText => Some(f.(searchText := e.value))
  }

  /** The two amount inputs. */
  datatype AmountField = MinField | MaxField

  function AmountKey(a: AmountField): FieldName {
    if a == MinField then MinAmount else MaxAmount
  }

  /** `{ ...currentFilters }` with one amount key set to `value`. */
  function WithAmount(f: FilterState, a: AmountField, value: string): (r: FilterState)
    ensures Field(r, AmountKey(a)) == Text(value)
    ensures SameExcept(f, r, AmountKey(a))
  {
    if a == MinField then f.(minAmount := value) else f.(maxAmount := value)
  }

  /** `filteredData`: the data as received, since the store already filtered it. */
  function FilteredData<T>(data: seq<T>): (r: seq<T>)
    ensures |r| == |data| && forall i :: 0 <= i < |data| ==> r[i] == data[i]
  {
    data
  }

  /** The amounts being typed, which reach the filter state only on blur,
      on Enter, or when cleared. */
  class AmountInputs {
    var tempMinAmount: string
    var tempMaxAmount: string

    function Temp(a: AmountField): string
      reads this
    {
      if a == MinField then tempMinAmount else tempMaxAmount
    }

    /** `useState(currentFilters.minAmount)`, `useState(currentFilters.maxAmount)`. */
    constructor (current: FilterState)
      ensures tempMinAmount == current.minAmount && tempMaxAmount == current.maxAmount
    {
      tempMinAmount := current.minAmount;
      tempMaxAmount := current.maxAmount;
    }

    /** The effect that follows the filter state's amounts. */
    method Sync(current: FilterState)
      modifies this
      ensures tempMinAmount == current.minAmount && tempMaxAmount == current.maxAmount
    {
      tempMinAmount := current.minAmount;
      tempMaxAmount := current.maxAmount;
    }

    /** `handleAmountInputChange`: only the typed-in input's pending amount. */
    method InputChange(a: AmountField, value: string)
      modifies this
      ensures Temp(a) == value
      ensures a == MinField ==> tempMaxAmount == old(tempMaxAmount)
      ensures a == MaxField ==> tempMinAmount == old(tempMinAmount)
    {
      if a == MinField {
        tempMinAmount := value;
      } else {
        tempMaxAmount := value;
      }
    }

    /** `handleAmountInputBlur`: the filter state with that input's pending
      amount; every other key as it was. */
    method Blur(current: FilterState, a: AmountField) returns (emitted: FilterState)
      ensures Field(emitted, AmountKey(a)) == Text(Temp(a))
      ensures SameExcept(current, emitted, AmountKey(a))
      ensures emitted == WithAmount(current, a, Temp(a))
    {
      emitted := WithAmount(current, a, Temp(a));
    }

    /** `handleAmountInputKeyPress`: as `Blur` for the Enter key, nothing for
      any other key. */
    method KeyPress(current: FilterState, a: AmountField, key: string) returns (emitted: Option<FilterState>)
      ensures emitted.Some? <==> key == "Enter"
      ensures emitted.Some? ==> emitted.value == WithAmount(current, a, Temp(a))
    {
      if key == "Enter" {
        emitted := Some(WithAmount(current, a, Temp(a)));
      } else {
        emitted := None;
      }
    }

    /** `handleClearMinAmount` / `handleClearMaxAmount`: both the pending
      amount and the filter key become empty. */
    method Clear(current: FilterState, a: AmountField) returns (emitted: FilterState)
      modifies this
      ensures Temp(a) == ""
      ensures a == MinField ==> tempMaxAmount == old(tempMaxAmount)
      ensures a == MaxField ==> tempMinAmount == old(tempMinAmount)
      ensures emitted == WithAmount(current, a, "")
    {
      if a == MinField {
        tempMinAmount := "";
      } else {
        tempMaxAmount := "";
      }
      emitted := WithAmount(current, a, "");
    }
  }

  /** Typing an amount and leaving the input puts exactly what was typed
      into that key, and changes no other key. */
  method TypeThenBlur(inputs: AmountInputs, current: FilterState, a: AmountField, value: string)
    returns (emitted: FilterState)
    modifies inputs
    ensures Field(emitted, AmountKey(a)) == Text(value)
    ensures SameExcept(current, emitted, AmountKey(a))
  {
    inputs.InputChange(a, value);
    emitted := inputs.Blur(current, a);
  }

  /** Once the pending amounts have followed the filter state, leaving an
      input without typing emits the filter state unchanged. */
  method SyncThenBlur(inputs: AmountInputs, current: FilterState, a: AmountField)
    returns (emitted: FilterState)
    modifies inputs
    ensures emitted == current
    ensures inputs.tempMinAmount == current.minAmount && inputs.tempMaxAmount == current.maxAmount
  {
    inputs.Sync(current);
    emitted := inputs.Blur(current, a);
  }
}
