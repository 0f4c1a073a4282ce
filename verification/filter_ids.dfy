/** The conversions the transaction tables
    (apps/frontend/src/components/TransactionsDetailsTable.tsx and
    apps/frontend/src/components/TransactionsTable.tsx) make between what a
    dropdown reports — numeric ids of `{ id, label }` choices — and what the
    filter state keeps: ids as decimal strings, and products by label. */
module FilterIds {
  import opened JsText
  import opened ProductsService
  import opened Store

  /** `selectedIds.map(id => id.toString())`. */
  function ToStrings(ids: seq<int>): (r: seq<string>)
    ensures |r| == |ids|
  {
    if ids == [] then [] else [IntToString(ids[0])] + ToStrings(ids[1..])
  }

  /** `strings.map(id => parseInt(id)).filter(id => !isNaN(id))`: the strings
      that parse, as the integers they parse to, in order. */
  function ParseIds(strings: seq<string>): (r: seq<int>)
    ensures |r| <= |strings|
    ensures forall k :: k in r <==> exists s :: s in strings && ParseInt(s, 0) == Int(k)
  {
    if strings == [] then []
    else
      var rest := ParseIds(strings[1..]);
      assert forall s :: s in strings[1..] ==> s in strings;
      match ParseInt(strings[0], 0)
      case NaN => rest
      case Int(k) => [k] + rest
  }

  /** The ids a dropdown reported come back unchanged, in the same order,
      from the strings the handler stored. */
  lemma {:induction false} ParseIdsOfToStrings(ids: seq<int>)
    ensures ParseIds(ToStrings(ids)) == ids
  {
    if ids != [] {
      assert ToStrings(ids) == [IntToString(ids[0])] + ToStrings(ids[1..]);
      ParseIdsOfToStrings(ids[1..]);
      ParsedIdHead(ids[0], ToStrings(ids[1..]));
    }
  }

  /** One id's string in front of other strings. */
  lemma ParsedIdHead(k: int, rest: seq<string>)
    ensures ParseIds([IntToString(k)] + rest) == [k] + ParseIds(rest)
  {
    ParseIntOfIntToString(k, 0);
    ParseIdsCons(IntToString(k), rest);
  }

  lemma ParseIdsCons(s: string, rest: seq<string>)
    ensures ParseIds([s] + rest) == (if ParseInt(s, 0).Int? then [ParseInt(s, 0).value] else []) + ParseIds(rest)
  {
    assert ([s] + rest)[1..] == rest;
  }

  /** `items.filter(item => ids.includes(item.id)).map(item => item.label)`:
      the labels of the chosen items, in the items' order; an id no item
      has contributes nothing. */
  function LabelsOfSelected(items: seq<SelectItem>, ids: seq<int>): (r: seq<string>)
    ensures r == Labels(Filter(items, (it: SelectItem) => it.id in ids))
    ensures |r| <= |items|
    ensures forall x :: x in r <==> exists it :: it in items && it.id in ids && it.labelText == x
  {
    if items == [] then []
    else
      var rest := LabelsOfSelected(items[1..], ids);
      assert forall it :: it in items[1..] ==> it in items;
      var head := if items[0].id in ids then [items[0]] else [];
      LabelsAppend(head, Filter(items[1..], (it: SelectItem) => it.id in ids));
      (if items[0].id in ids then [items[0].labelText] else []) + rest
  }

  /** `items.map(item => item.label)`. */
  function Labels(items: seq<SelectItem>): (r: seq<string>)
    ensures |r| == |items|
    ensures forall i :: 0 <= i < |items| ==> r[i] == items[i].labelText
  {
    if items == [] then [] else [items[0].labelText] + Labels(items[1..])
  }

  /** Mapping to labels distributes over concatenation. */
  lemma LabelsAppend(a: seq<SelectItem>, b: seq<SelectItem>)
    ensures Labels(a + b) == Labels(a) + Labels(b)
  {
    assert forall i :: 0 <= i < |a + b| ==> Labels(a + b)[i] == (Labels(a) + Labels(b))[i];
  }

  /** With every item chosen, the labels are all the labels, in order. */
  lemma {:induction false} LabelsOfAllSelected(items: seq<SelectItem>, ids: seq<int>)
    requires forall it :: it in items ==> it.id in ids
    ensures LabelsOfSelected(items, ids) == Labels(items)
  {
    if items != [] {
      assert forall it :: it in items[1..] ==> it in items;
      LabelsOfAllSelected(items[1..], ids);
    }
  }

  /** `items.filter(item => labels.includes(item.label)).map(item => item.id)`:
      the ids of the items whose label is listed, in the items' order. */
  function IdsWithLabels(items: seq<SelectItem>, labels: seq<string>): (r: seq<int>)
    ensures |r| <= |items|
    ensures forall k :: k in r <==> exists it :: it in items && it.labelText in labels && it.id == k
  {
    if items == [] then []
    else
      var rest := IdsWithLabels(items[1..], labels);
      assert forall it :: it in items[1..] ==> it in items;
      (if items[0].labelText in labels then [items[0].id] else []) + rest
  }

  /** Going from chosen ids to labels and back keeps every chosen id that
      some item has. */
  lemma ChosenIdsSurviveLabels(items: seq<SelectItem>, ids: seq<int>, it: SelectItem)
    requires it in items && it.id in ids
    ensures it.id in IdsWithLabels(items, LabelsOfSelected(items, ids))
  {
    assert it.labelText in LabelsOfSelected(items, ids);
  }

  /** When no two items with different ids share a label, the round trip
      gives back exactly the chosen ids that some item has. */
  lemma UniqueLabelsRoundTrip(items: seq<SelectItem>, ids: seq<int>, k: int)
    requires forall a, b :: a in items && b in items && a.labelText == b.labelText ==> a.id == b.id
    ensures k in IdsWithLabels(items, LabelsOfSelected(items, ids)) <==>
            k in ids && exists it :: it in items && it.id == k
  {
    var labels := LabelsOfSelected(items, ids);
    if k in IdsWithLabels(items, labels) {
      var it :| it in items && it.labelText in labels && it.id == k;
      var chosen :| chosen in items && chosen.id in ids && chosen.labelText == it.labelText;
      assert chosen.id == it.id;
    }
    if k in ids && exists it :: it in items && it.id == k {
      var it :| it in items && it.id == k;
      ChosenIdsSurviveLabels(items, ids, it);
    }
  }

  /** Two products sharing a label: choosing one of them selects both once
      the choice has gone through the labels. */
  lemma SharedLabelSelectsBoth()
    ensures IdsWithLabels([SelectItem(1, "tea"), SelectItem(2, "tea")],
                          LabelsOfSelected([SelectItem(1, "tea"), SelectItem(2, "tea")], [1])) == [1, 2]
  {
    var items := [SelectItem(1, "tea"), SelectItem(2, "tea")];
    assert items[1..] == [SelectItem(2, "tea")];
    assert LabelsOfSelected(items, [1]) == ["tea"];
  }
}
