/** The searchable multi-choice dropdown over `{ id, label }` items
    (apps/frontend/src/components/UniversalSelectDropdown.tsx). The chosen
    ids are a prop: each handler computes the list handed to `onChange`.
    Whether the dropdown is open and the search term are the component's own
    state (the class `Dropdown`). */
module UniversalSelectDropdown {
  import opened JsText
  import opened Store
  import opened ProductsService
  import opened FilterIds

  /** `ids.filter(x => x !== id)`. */
  function Without(ids: seq<int>, id: int): (r: seq<int>)
    ensures id !in r
    ensures forall x :: x != id ==> (x in r <==> x in ids)
  {
    Filter(ids, (x: int) => x != id)
  }

  /** `handleCheckboxChange`: a chosen id is unchosen (every occurrence of
      it goes), any other id is appended at the end. */
  function Toggle(selectedIds: seq<int>, id: int): (r: seq<int>)
    ensures id in selectedIds ==> r == Without(selectedIds, id)
    ensures id !in selectedIds ==> r == selectedIds + [id]
    ensures id in r <==> id !in selectedIds
    ensures forall x :: x != id ==> (x in r <==> x in selectedIds)
  {
    if id in selectedIds then Without(selectedIds, id) else selectedIds + [id]
  }

  /** Toggling the same id twice gives back the same set of chosen ids. */
  lemma ToggleTwiceSameSet(selectedIds: seq<int>, id: int)
    ensures forall x :: x in Toggle(Toggle(selectedIds, id), id) <==> x in selectedIds
  {
  }

  /** When the id was not chosen, toggling it twice gives back the very
      same list. */
  lemma {:induction false} ToggleTwiceRestores(selectedIds: seq<int>, id: int)
    requires id !in selectedIds
    ensures Toggle(Toggle(selectedIds, id), id) == selectedIds
  {
    var p := (x: int) => x != id;
    FilterAppend(selectedIds, [id], p);
    FilterKeepsAll(selectedIds, p);
    assert Filter([id], p) == [];
  }

  /** `filteredItems`: the items whose label contains the search term,
      ignoring case, in the items' order. */
  function FilteredItems(items: seq<SelectItem>, searchTerm: string): (r: seq<SelectItem>)
    ensures forall it :: it in r <==> it in items && ContainsInsensitive(it.labelText, searchTerm)
    ensures |r| <= |items|
  {
    Filter(items, (it: SelectItem) => ContainsInsensitive(it.labelText, searchTerm))
  }

  /** An empty search term keeps every item. */
  lemma EmptyTermKeepsAll(items: seq<SelectItem>)
    ensures FilteredItems(items, "") == items
  {
    forall it | it in items
      ensures ContainsInsensitive(it.labelText, "")
    {
      ContainsEmpty(ToLower(it.labelText));
    }
    FilterKeepsAll(items, (it: SelectItem) => ContainsInsensitive(it.labelText, ""));
  }

  /** `items.map(item => item.id)`. */
  function Ids(items: seq<SelectItem>): (r: seq<int>)
    ensures |r| == |items|
    ensures forall i :: 0 <= i < |items| ==> r[i] == items[i].id
  {
    if items == [] then [] else [items[0].id] + Ids(items[1..])
  }

  /** `handleSelectAll`: exactly the ids of the items the search shows. */
  function SelectAll(items: seq<SelectItem>, searchTerm: string): (r: seq<int>)
    ensures forall k :: k in r <==> exists it :: it in items && ContainsInsensitive(it.labelText, searchTerm) && it.id == k
  {
    var shown := FilteredItems(items, searchTerm);
    assert forall k :: k in Ids(shown) ==> exists i :: 0 <= i < |shown| && shown[i].id == k;
    Ids(shown)
  }

  /** With no search term, Select All chooses every item, in order. */
  lemma SelectAllWithoutTerm(items: seq<SelectItem>)
    ensures SelectAll(items, "") == Ids(items)
  {
    EmptyTermKeepsAll(items);
  }

  /** `handleClearAll`. */
  function ClearAll(): (r: seq<int>)
    ensures |r| == 0
  {
    []
  }

  /** `displayText`: the labels of the chosen items, in the items' order,
      joined by ", "; the placeholder when no item is chosen. */
  function DisplayText(items: seq<SelectItem>, selectedIds: seq<int>, placeholder: string): (r: string)
    ensures (forall it :: it in items ==> it.id !in selectedIds) ==> r == placeholder
    ensures (exists it :: it in items && it.id in selectedIds) ==> r == Join(LabelsOfSelected(items, selectedIds), ", ")
  {
    var labels := LabelsOfSelected(items, selectedIds);
    if |labels| > 0 then
      assert labels[0] in labels;
      Join(labels, ", ")
    else
      assert forall it :: it in items && it.id in selectedIds ==> it.labelText in labels;
      placeholder
  }

  /** With one item chosen the text is its label. */
  lemma DisplayTextOfOne(items: seq<SelectItem>, selectedIds: seq<int>, placeholder: string, it: SelectItem)
    requires it in items && it.id in selectedIds
    requires forall other :: other in items && other != it ==> other.id !in selectedIds
    requires |LabelsOfSelected(items, selectedIds)| == 1
    ensures DisplayText(items, selectedIds, placeholder) == it.labelText
  {
    var labels := LabelsOfSelected(items, selectedIds);
    assert labels[0] in labels;
  }

  /** Ids no item has make no difference to the text. */
  lemma {:induction false} UnknownIdsIgnored(items: seq<SelectItem>, selectedIds: seq<int>, extra: seq<int>)
    requires forall k :: k in extra ==> forall it :: it in items ==> it.id != k
    ensures LabelsOfSelected(items, selectedIds + extra) == LabelsOfSelected(items, selectedIds)
  {
    if items != [] {
      assert forall it :: it in items[1..] ==> it in items;
      UnknownIdsIgnored(items[1..], selectedIds, extra);
      assert items[0].id in selectedIds + extra <==> items[0].id in selectedIds;
    }
  }

  /** Whether the list is showing, and what is typed in its search box. */
  class Dropdown {
    var isOpen: bool
    var searchTerm: string

    /** `useState(false)`, `useState('')`. */
    constructor ()
      ensures !isOpen && searchTerm == ""
    {
      isOpen := false;
      searchTerm := "";
    }

    /** `toggleDropdown`: nothing when disabled; otherwise the list opens or
      closes, and closing it clears the search term. */
    method ToggleDropdown(disabled: bool)
      modifies this
      ensures disabled ==> isOpen == old(isOpen) && searchTerm == old(searchTerm)
      ensures !disabled ==> isOpen == !old(isOpen)
      ensures !disabled && old(isOpen) ==> searchTerm == ""
      ensures !disabled && !old(isOpen) ==> searchTerm == old(searchTerm)
    {
      if !disabled {
        if isOpen {
          searchTerm := "";
        }
        isOpen := !isOpen;
      }
    }

    /** `handleClickOutside`: a press outside the dropdown closes it and
      clears the search term; one inside changes nothing. */
    method ClickOutside(insideDropdown: bool)
      modifies this
      ensures !insideDropdown ==> !isOpen && searchTerm == ""
      ensures insideDropdown ==> isOpen == old(isOpen) && searchTerm == old(searchTerm)
    {
      if !insideDropdown {
        isOpen := false;
        searchTerm := "";
      }
    }

    /** `handleSearchChange`. */
    method SearchChange(value: string)
      modifies this
      ensures searchTerm == value && isOpen == old(isOpen)
    {
      searchTerm := value;
    }

    /** The items the open list shows. */
    function Shown(items: seq<SelectItem>): (r: seq<SelectItem>)
      reads this
      ensures forall it :: it in r <==> it in items && ContainsInsensitive(it.labelText, searchTerm)
    {
      FilteredItems(items, searchTerm)
    }
  }

  /** Opening and then closing an enabled dropdown leaves it closed with an
      empty search term, whatever was typed meanwhile. */
  method OpenSearchClose(d: Dropdown, typed: string)
    requires !d.isOpen
    modifies d
    ensures !d.isOpen && d.searchTerm == ""
  {
    d.ToggleDropdown(false);
    d.SearchChange(typed);
    d.ToggleDropdown(false);
  }
}
