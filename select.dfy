/**
 * `Select` (`package-build/src/Select.tsx`): a searchable single-choice box.
 * The chosen `value` belongs to the parent; the component keeps `isOpen`,
 * `searchTerm` and `isFocused`. The 150 ms blur delay is a timer, so the
 * blur is modelled by the state its callback produces.
 */
module Select {
  import opened Optional
  import opened OptionLists

  /** `options[i].value === value` (an `undefined` value matches nothing). */
  predicate MatchesAt<V(==)>(options: seq<Choice<V>>, value: Option<V>, i: int)
  {
    0 <= i < |options| && value == Some(options[i].value)
  }

  /** `options.find((option) => option.value === value)`. */
  function FindSelected<V(==)>(options: seq<Choice<V>>, value: Option<V>): (r: Option<Choice<V>>)
    ensures r.None? <==> forall i :: 0 <= i < |options| ==> !MatchesAt(options, value, i)
    ensures r.Some? ==> exists i :: MatchesAt(options, value, i) && options[i] == r.value
                          && forall j :: 0 <= j < i ==> !MatchesAt(options, value, j)
  {
    if options == [] then None
    else if value == Some(options[0].value) then
      assert MatchesAt(options, value, 0);
      Some(options[0])
    else
      var r := FindSelected(options[1..], value);
      assert forall i :: 1 <= i < |options| ==> (MatchesAt(options, value, i) <==> MatchesAt(options[1..], value, i - 1));
      if r.Some? then
        var i :| MatchesAt(options[1..], value, i) && options[1..][i] == r.value
                 && forall j :: 0 <= j < i ==> !MatchesAt(options[1..], value, j);
        assert MatchesAt(options, value, i + 1);
        r
      else r
  }

  /** `displayValue`: the selected option's label, or "" when nothing matches. */
  function DisplayValue<V(==)>(options: seq<Choice<V>>, value: Option<V>): (d: string)
    ensures FindSelected(options, value).Some? ==> d == FindSelected(options, value).value.caption
    ensures FindSelected(options, value).None? ==> d == ""
  {
    match FindSelected(options, value)
    case Some(o) => o.caption
    case None => ""
  }

  /** The first option carrying a value supplies the label shown for it. */
  lemma DisplayOfListedValue<V>(options: seq<Choice<V>>, i: nat)
    requires i < |options|
    requires forall j :: 0 <= j < i ==> options[j].value != options[i].value
    ensures DisplayValue(options, Some(options[i].value)) == options[i].caption
  {
    var v := Some(options[i].value);
    assert MatchesAt(options, v, i);
    var r := FindSelected(options, v);
    var k :| MatchesAt(options, v, k) && options[k] == r.value
             && forall j :: 0 <= j < k ==> !MatchesAt(options, v, j);
    assert k == i;
  }

  /** The component's own state. */
  class SelectBox {
    var isOpen: bool
    var searchTerm: string
    var isFocused: bool

    constructor ()
      ensures !isOpen && searchTerm == "" && !isFocused
    {
      isOpen, searchTerm, isFocused := false, "", false;
    }

    /** What the text input shows: the search term while focused or open, otherwise the label of the choice. */
    function InputText<V(==)>(options: seq<Choice<V>>, value: Option<V>): (t: string)
      reads this
      ensures isFocused || isOpen ==> t == searchTerm
      ensures !isFocused && !isOpen ==> t == DisplayValue(options, value)
    {
      if isFocused || isOpen then searchTerm else DisplayValue(options, value)
    }

    /** "No options found" replaces the list when the filter keeps nothing. */
    predicate NoOptionsMessage<V(==,!new)>(options: seq<Choice<V>>)
      reads this
      ensures NoOptionsMessage(options) <==> forall o :: o in options ==> !LabelMatches(o, searchTerm)
      ensures searchTerm == "" ==> (NoOptionsMessage(options) <==> options == [])
    {
      var r := FilterByLabel(options, searchTerm);
      assert r != [] ==> r[0] in r;
      r == []
    }

    /** `handleSelect`: emit the chosen value, then close, clear the search and drop focus. */
    method HandleSelect<V>(optionValue: V) returns (emitted: V)
      modifies this
      ensures emitted == optionValue
      ensures !isOpen && searchTerm == "" && !isFocused
    {
      emitted := optionValue;
      isOpen := false;
      searchTerm := "";
      isFocused := false;
    }

    /** `handleInputChange`: the typed text becomes the search term and the list opens. */
    method HandleInputChange(text: string)
      modifies this
      ensures searchTerm == text && isOpen && isFocused == old(isFocused)
    {
      searchTerm := text;
      if !isOpen {
        isOpen := true;
      }
    }

    /** `handleInputFocus`. */
    method HandleInputFocus()
      modifies this
      ensures isFocused && isOpen && searchTerm == old(searchTerm)
    {
      isFocused := true;
      isOpen := true;
    }

    /** The callback `handleInputBlur` schedules, once it runs. */
    method BlurTimeoutFires()
      modifies this
      ensures !isFocused && !isOpen && searchTerm == ""
    {
      isFocused := false;
      isOpen := false;
      searchTerm := "";
    }
  }
}
