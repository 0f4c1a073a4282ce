/** The checkbox dropdown over `{ value, label }` options
    (apps/frontend/src/components/MultiSelectDropdown.tsx). The chosen
    values are a prop: a checkbox change computes the call made to
    `onChange`. Whether the list is open is the component's own state (the
    class `Dropdown`). */
module MultiSelectDropdown {
  import opened JsText
  import opened Store

  datatype SelectOption = SelectOption(value: string, labelText: string)

  /** The arguments of `onChange(name, newSelectedValues)`. */
  datatype ChangeCall = ChangeCall(name: string, selectedValues: seq<string>)

  /** `values.filter(val => val !== value)`. */
  function WithoutValue(values: seq<string>, value: string): (r: seq<string>)
    ensures value !in r
    ensures forall v :: v != value ==> (v in r <==> v in values)
    ensures |r| <= |values|
  {
    Filter(values, (v: string) => v != value)
  }

  /** `handleOptionChange`: a checked box appends its value (even one already
      chosen); an unchecked box removes every occurrence of its value. The
      component's own `name` goes along unchanged. */
  function HandleOptionChange(name: string, selectedValues: seq<string>, value: string, checked: bool): (r: ChangeCall)
    ensures r.name == name
    ensures checked ==> r.selectedValues == selectedValues + [value]
    ensures !checked ==> r.selectedValues == WithoutValue(selectedValues, value)
  {
    if checked then ChangeCall(name, selectedValues + [value])
    else ChangeCall(name, WithoutValue(selectedValues, value))
  }

  /** Checking a value that was already chosen leaves it chosen twice;
      unchecking it afterwards removes both occurrences. */
  lemma CheckThenUncheckRemovesAll(name: string, selectedValues: seq<string>, value: string)
    ensures |HandleOptionChange(name, selectedValues, value, true).selectedValues| == |selectedValues| + 1
    ensures value !in HandleOptionChange(name, HandleOptionChange(name, selectedValues, value, true).selectedValues, value, false).selectedValues
  {
  }

  /** Checking and then unchecking a value that was not chosen gives back
      the same list. */
  lemma {:induction false} CheckThenUncheckRestores(name: string, selectedValues: seq<string>, value: string)
    requires value !in selectedValues
    ensures HandleOptionChange(name, HandleOptionChange(name, selectedValues, value, true).selectedValues, value, false)
            == ChangeCall(name, selectedValues)
  {
    var p := (v: string) => v != value;
    FilterAppend(selectedValues, [value], p);
    FilterKeepsAll(selectedValues, p);
    assert Filter([value], p) == [];
  }

  /** `options.map(option => option.label)`. */
  function OptionLabels(options: seq<SelectOption>): (r: seq<string>)
    ensures |r| == |options|
    ensures forall i :: 0 <= i < |options| ==> r[i] == options[i].labelText
  {
    if options == [] then [] else [options[0].labelText] + OptionLabels(options[1..])
  }

  lemma OptionLabelsAppend(a: seq<SelectOption>, b: seq<SelectOption>)
    ensures OptionLabels(a + b) == OptionLabels(a) + OptionLabels(b)
  {
    assert forall i :: 0 <= i < |a + b| ==> OptionLabels(a + b)[i] == (OptionLabels(a) + OptionLabels(b))[i];
  }

  /** `options.filter(option => selectedValues.includes(option.value)).map(option => option.label)`:
      the labels of the options whose value is chosen, in the options' order. */
  function ChosenLabels(options: seq<SelectOption>, selectedValues: seq<string>): (r: seq<string>)
    ensures r == OptionLabels(Filter(options, (o: SelectOption) => o.value in selectedValues))
    ensures forall x :: x in r <==> exists o :: o in options && o.value in selectedValues && o.labelText == x
    ensures (forall o :: o in options ==> o.value !in selectedValues) ==> r == []
  {
    if options == [] then []
    else
      var rest := ChosenLabels(options[1..], selectedValues);
      assert forall o :: o in options[1..] ==> o in options;
      var head := if options[0].value in selectedValues then [options[0]] else [];
      OptionLabelsAppend(head, Filter(options[1..], (o: SelectOption) => o.value in selectedValues));
      (if options[0].value in selectedValues then [options[0].labelText] else []) + rest
  }

  /** `displayText`: empty when nothing is chosen, and otherwise the chosen
      options' labels joined by ", " (empty again when no option has a chosen
      value). */
  function DisplayText(options: seq<SelectOption>, selectedValues: seq<string>): (r: string)
    ensures selectedValues == [] ==> r == ""
    ensures selectedValues != [] ==> r == Join(ChosenLabels(options, selectedValues), ", ")
  {
    if |selectedValues| > 0 then Join(ChosenLabels(options, selectedValues), ", ") else ""
  }

  /** The text is empty exactly when no option has a chosen value, as long
      as no chosen option has an empty label. */
  lemma DisplayTextEmptyIff(options: seq<SelectOption>, selectedValues: seq<string>)
    requires forall o :: o in options ==> o.labelText != ""
    ensures DisplayText(options, selectedValues) == "" <==>
            forall o :: o in options ==> o.value !in selectedValues
  {
    var labels := ChosenLabels(options, selectedValues);
    if exists o :: o in options && o.value in selectedValues {
      var o :| o in options && o.value in selectedValues;
      assert o.labelText in labels;
      JoinOfNonEmptyNotEmpty(labels, ", ");
    }
  }

  /** A join of parts that are not empty is not empty. */
  lemma {:induction false} JoinOfNonEmptyNotEmpty(parts: seq<string>, sep: string)
    requires parts != [] && forall p :: p in parts ==> p != ""
    ensures Join(parts, sep) != ""
  {
    assert parts[0] in parts;
    if |parts| > 1 {
      assert |Join(parts, sep)| >= |parts[0]|;
    }
  }

  /** Whether the list is showing. */
  class Dropdown {
    var isOpen: bool

    /** `useState(false)`. */
    constructor ()
      ensures !isOpen
    {
      isOpen := false;
    }

    /** `handleToggle`. */
    method HandleToggle()
      modifies this
      ensures isOpen == !old(isOpen)
    {
      isOpen := !isOpen;
    }

    /** `handleClickOutside`: a press outside closes the list; one inside
      changes nothing. */
    method ClickOutside(insideDropdown: bool)
      modifies this
      ensures !insideDropdown ==> !isOpen
      ensures insideDropdown ==> isOpen == old(isOpen)
    {
      if !insideDropdown {
        isOpen := false;
      }
    }
  }
}
