/**
 * The `{ label, value }` options shared by `Select` and `MultiSelect`, and
 * the search filter both apply to them:
 * `option.label.toLowerCase().includes(searchTerm.toLowerCase())`.
 */
module OptionLists {
  import opened Text
  import opened Seqs

  /** One `{ label, value }` option; `value` is the `string | number` the parent receives. */
  datatype Choice<V> = Choice(caption: string, value: V)

  predicate LabelMatches<V>(o: Choice<V>, term: string)
  {
    Contains(Lower(o.caption), Lower(term))
  }

  /** `filteredOptions`: the options whose label contains the search term, ignoring case. */
  function FilterByLabel<V(==,!new)>(options: seq<Choice<V>>, term: string): (r: seq<Choice<V>>)
    ensures forall o :: o in r <==> o in options && LabelMatches(o, term)
    ensures forall o :: Count(r, o) == if LabelMatches(o, term) then Count(options, o) else 0
    ensures Subsequence(r, options)
    ensures term == "" ==> r == options
  {
    var r := Filter(options, o => LabelMatches(o, term));
    assert term == "" ==> r == options by {
      if term == "" {
        forall o | o in options
          ensures LabelMatches(o, term)
        {
          ContainsEmpty(Lower(o.caption));
        }
        FilterKeepsAll(options, o => LabelMatches(o, term));
      }
    }
    r
  }
}
