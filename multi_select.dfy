/**
 * `MultiSelect` (`package-build/src/MultiSelect.tsx`). The selected list
 * `value` belongs to the parent: the handlers compute a new list and emit it
 * through `onChange`. The component's own state is `isOpen` and `searchTerm`.
 */
module MultiSelect {
  import opened Seqs
  import opened OptionLists

  /** `selectedOptions`: the options whose value is in `value`, in the order of `options`. */
  function SelectedOptions<V(==,!new)>(options: seq<Choice<V>>, value: seq<V>): (r: seq<Choice<V>>)
    ensures forall o :: o in r <==> o in options && o.value in value
    ensures forall o :: Count(r, o) == if o.value in value then Count(options, o) else 0
    ensures Subsequence(r, options)
  {
    Filter(options, (o: Choice<V>) => o.value in value)
  }

  /** `value.filter((v) => v !== optionValue)`: the list `removeOption` emits. */
  function RemoveOption<V(==,!new)>(value: seq<V>, optionValue: V): (r: seq<V>)
    ensures optionValue !in r
    ensures forall v :: v != optionValue ==> Count(r, v) == Count(value, v)
    ensures Subsequence(r, value)
    ensures |r| == |value| - Count(value, optionValue)
  {
    var r := Filter(value, v => v != optionValue);
    FilterLength(value, v => v != optionValue, optionValue);
    r
  }

  /** Filtering out exactly one value shortens the list by that value's occurrences. */
  lemma {:induction false} FilterLength<V(!new)>(s: seq<V>, p: V -> bool, x: V)
    requires forall v :: p(v) <==> v != x
    ensures |Filter(s, p)| == |s| - Count(s, x)
  {
    if s != [] {
      FilterLength(s[1..], p, x);
    }
  }

  /** The list `handleSelect` emits: an absent value is appended, a present one is removed. */
  function HandleSelect<V(==,!new)>(value: seq<V>, optionValue: V): (newValue: seq<V>)
    ensures optionValue !in value ==> newValue == value + [optionValue] && |newValue| == |value| + 1
    ensures optionValue in value ==> newValue == RemoveOption(value, optionValue)
  {
    if optionValue in value then Filter(value, v => v != optionValue) else value + [optionValue]
  }

  /** Selecting an absent value and then selecting it again gives back the original list. */
  lemma SelectTwiceRestores<V(!new)>(value: seq<V>, optionValue: V)
    requires optionValue !in value
    ensures HandleSelect(HandleSelect(value, optionValue), optionValue) == value
  {
    var p := (v: V) => v != optionValue;
    FilterAppend(value, [optionValue], p);
    FilterKeepsAll(value, p);
    assert Filter([optionValue], p) == [] by {
      assert [optionValue][1..] == [];
    }
  }

  /** The component's own state. */
  class MultiSelectBox {
    var isOpen: bool
    var searchTerm: string

    constructor ()
      ensures !isOpen && searchTerm == ""
    {
      isOpen := false;
      searchTerm := "";
    }

    /** A click on the control: `!disabled && setIsOpen(!isOpen)`. */
    method Click(disabled: bool)
      modifies this
      ensures isOpen == (if disabled then old(isOpen) else !old(isOpen))
      ensures searchTerm == old(searchTerm)
    {
      if !disabled {
        isOpen := !isOpen;
      }
    }

    /** Typing in the search box. */
    method SearchChanged(text: string)
      modifies this
      ensures searchTerm == text && isOpen == old(isOpen)
    {
      searchTerm := text;
    }

    /** `isOpen && !disabled`: whether the dropdown is rendered. */
    predicate DropdownShown(disabled: bool)
      reads this
      ensures disabled ==> !DropdownShown(disabled)
      ensures !disabled ==> (DropdownShown(disabled) <==> isOpen)
    {
      isOpen && !disabled
    }

    /** The options listed in the dropdown. */
    function Listed<V(==,!new)>(options: seq<Choice<V>>): (r: seq<Choice<V>>)
      reads this
      ensures forall o :: o in r <==> o in options && LabelMatches(o, searchTerm)
      ensures forall o :: Count(r, o) == if LabelMatches(o, searchTerm) then Count(options, o) else 0
      ensures Subsequence(r, options)
    {
      FilterByLabel(options, searchTerm)
    }
  }
}
