/**
 * The toast list both showcase pages keep in state (`ToastNotification[]`)
 * and the list updaters they pass to `setToasts`. Ids come from `Date.now()`
 * in the pages; here they are parameters.
 */
module Toasts {
  import opened Seqs

  datatype Variant = Success | Error | Warning | Info

  datatype Toast = Toast(id: int, variant: Variant, message: string, isVisible: bool)

  /** `[...prev, newToast]` with a fresh visible toast. */
  function Append(toasts: seq<Toast>, id: int, variant: Variant, message: string): (r: seq<Toast>)
    ensures |r| == |toasts| + 1 && r[..|toasts|] == toasts
    ensures r[|toasts|] == Toast(id, variant, message, true)
  {
    toasts + [Toast(id, variant, message, true)]
  }

  /** `prev.filter((toast) => toast.id !== id)`. */
  function RemoveById(toasts: seq<Toast>, id: int): (r: seq<Toast>)
    ensures forall t :: t in r ==> t.id != id
    ensures forall t: Toast :: t.id != id ==> Count(r, t) == Count(toasts, t)
    ensures Subsequence(r, toasts)
  {
    Filter(toasts, (t: Toast) => t.id != id)
  }

  /** Removing an id that no toast carries leaves the list as it is. */
  lemma RemoveAbsentId(toasts: seq<Toast>, id: int)
    requires forall t :: t in toasts ==> t.id != id
    ensures RemoveById(toasts, id) == toasts
  {
    FilterKeepsAll(toasts, (t: Toast) => t.id != id);
  }

  /** Adding a toast under a fresh id and then removing that id restores the list. */
  lemma AppendThenRemove(toasts: seq<Toast>, id: int, variant: Variant, message: string)
    requires forall t :: t in toasts ==> t.id != id
    ensures RemoveById(Append(toasts, id, variant, message), id) == toasts
  {
    var p := (t: Toast) => t.id != id;
    var added := [Toast(id, variant, message, true)];
    FilterAppend(toasts, added, p);
    FilterKeepsAll(toasts, p);
    assert Filter(added, p) == [] by {
      assert added[1..] == [];
    }
  }

  /** `prev.slice(1)`: the auto-dismiss updater drops the oldest toast. */
  function DropOldest(toasts: seq<Toast>): (r: seq<Toast>)
    ensures toasts == [] ==> r == []
    ensures toasts != [] ==> [toasts[0]] + r == toasts
  {
    if toasts == [] then [] else toasts[1..]
  }

  /** The oldest toast is the first dismissed: dropping after an append on a non-empty list commutes. */
  lemma DropOldestAfterAppend(toasts: seq<Toast>, id: int, variant: Variant, message: string)
    requires toasts != []
    ensures DropOldest(Append(toasts, id, variant, message)) == Append(DropOldest(toasts), id, variant, message)
  {
    assert (toasts + [Toast(id, variant, message, true)])[1..] == toasts[1..] + [Toast(id, variant, message, true)];
  }
}
