/**
 * The component showcase page `AbolajiShowcase`
 * (`src/pages/AbolajiShowcase.tsx`): its toast list with the add, remove
 * and auto-dismiss updaters, and the sidebar that selects which
 * documentation panel is shown. Toast ids come from `Date.now()` in the
 * page; here they are parameters.
 */
module AbolajiShowcase {
  import opened Toasts

  /** The ids of the sidebar buttons, in their order on the page. */
  const SidebarIds: seq<string> :=
    ["overview", "alert", "button", "input", "fileupload", "badge", "progress", "spinner",
     "card", "select", "multiselect", "checkbox", "radio", "toggle", "textarea", "password",
     "range", "datepicker", "tabs", "modal", "tooltip", "toast"]

  /** The ids tested by the 22 `activeShowcaseTab === "..." &&` panel guards, in page order. */
  const PanelGuards: seq<string> :=
    ["overview", "alert", "button", "input", "fileupload", "badge", "progress", "spinner",
     "card", "select", "multiselect", "checkbox", "radio", "toggle", "textarea", "password",
     "range", "datepicker", "tabs", "modal", "tooltip", "toast"]

  /** The list whose `includes` test hides the placeholder panel. */
  const PlaceholderExcluded: seq<string> :=
    ["overview", "alert", "button", "input", "fileupload", "badge", "progress", "spinner",
     "card", "select", "multiselect", "checkbox", "radio", "toggle", "textarea", "password",
     "range", "datepicker", "tabs", "modal", "tooltip", "toast"]

  const Overview := "overview"

  const HighlightClass := "bg-blue-100 text-blue-700 font-medium"
  const PlainClass := "text-gray-600 hover:bg-gray-100"

  /** No two sidebar buttons share an id. */
  lemma SidebarIdsDistinct()
    ensures |SidebarIds| == 22
    ensures forall i, j :: 0 <= i < j < |SidebarIds| ==> SidebarIds[i] != SidebarIds[j]
  {
  }

  /** Every sidebar button leads to a panel of its own, and every panel has a button, in the same order. */
  lemma SidebarMatchesPanels()
    ensures SidebarIds == PanelGuards
  {
  }

  /** The placeholder's list names exactly the ids that have a panel guard. */
  lemma PlaceholderListMatchesGuards()
    ensures PlaceholderExcluded == PanelGuards
  {
  }

  /** The state-dependent part of a sidebar button's class. */
  function ItemClass(activeTab: string, id: string): (c: string)
    ensures c == HighlightClass <==> activeTab == id
    ensures c == PlainClass <==> activeTab != id
  {
    if activeTab == id then HighlightClass else PlainClass
  }

  /** The positions of the sidebar buttons drawn highlighted. */
  function HighlightedItems(activeTab: string): (r: set<nat>)
    ensures forall i: int :: i in r <==> 0 <= i < |SidebarIds| && SidebarIds[i] == activeTab
  {
    set i: nat | i < |SidebarIds| && ItemClass(activeTab, SidebarIds[i]) == HighlightClass
  }

  /** At most one button is highlighted: the one whose id is the active tab, if there is one. */
  lemma HighlightedIsUnique(activeTab: string)
    ensures activeTab !in SidebarIds ==> HighlightedItems(activeTab) == {}
    ensures forall i :: 0 <= i < |SidebarIds| && SidebarIds[i] == activeTab ==> HighlightedItems(activeTab) == {i}
  {
    SidebarIdsDistinct();
  }

  /** The panel behind guard `k` is rendered. */
  predicate PanelShown(activeTab: string, k: nat)
    requires k < |PanelGuards|
  {
    activeTab == PanelGuards[k]
  }

  /** `![...].includes(activeShowcaseTab)`: the placeholder panel is rendered. */
  predicate PlaceholderShown(activeTab: string)
  {
    activeTab !in PlaceholderExcluded
  }

  /** The placeholder is rendered exactly when no panel of its own is. */
  lemma PlaceholderIffNoPanel(activeTab: string)
    ensures PlaceholderShown(activeTab) <==> forall k :: 0 <= k < |PanelGuards| ==> !PanelShown(activeTab, k)
  {
    PlaceholderListMatchesGuards();
    if !PlaceholderShown(activeTab) {
      var k :| 0 <= k < |PanelGuards| && PanelGuards[k] == activeTab;
      assert PanelShown(activeTab, k);
    }
  }

  /** Whatever the active tab, exactly one view is rendered: the placeholder or a single panel. */
  lemma ExactlyOneView(activeTab: string)
    ensures PlaceholderShown(activeTab) != exists k :: 0 <= k < |PanelGuards| && PanelShown(activeTab, k)
    ensures forall k, l :: 0 <= k < l < |PanelGuards| ==> !(PanelShown(activeTab, k) && PanelShown(activeTab, l))
  {
    SidebarIdsDistinct();
    SidebarMatchesPanels();
    PlaceholderIffNoPanel(activeTab);
  }

  /** The page's state. */
  class Showcase {
    var toasts: seq<Toast>
    var activeShowcaseTab: string

    constructor ()
      ensures toasts == [] && activeShowcaseTab == Overview
    {
      toasts := [];
      activeShowcaseTab := Overview;
    }

    /** `addToast`, with the id `Date.now()` would give passed in. */
    method AddToast(message: string, variant: Variant, id: int)
      modifies this
      ensures toasts == Append(old(toasts), id, variant, message)
      ensures activeShowcaseTab == old(activeShowcaseTab)
    {
      toasts := toasts + [Toast(id, variant, message, true)];
    }

    /** `removeToast`. */
    method RemoveToast(id: int)
      modifies this
      ensures toasts == RemoveById(old(toasts), id)
      ensures activeShowcaseTab == old(activeShowcaseTab)
    {
      toasts := RemoveById(toasts, id);
    }

    /** The 4-second timer: `prev.slice(1)`. */
    method AutoDismiss()
      modifies this
      ensures toasts == DropOldest(old(toasts))
      ensures activeShowcaseTab == old(activeShowcaseTab)
    {
      if |toasts| > 0 {
        toasts := toasts[1..];
      }
    }

    /** The `onClick` of sidebar button `i`. */
    method ClickSidebarItem(i: nat)
      requires i < |SidebarIds|
      modifies this
      ensures activeShowcaseTab == SidebarIds[i]
      ensures HighlightedItems(activeShowcaseTab) == {i}
      ensures !PlaceholderShown(activeShowcaseTab) && PanelShown(activeShowcaseTab, i)
      ensures toasts == old(toasts)
    {
      activeShowcaseTab := SidebarIds[i];
      HighlightedIsUnique(activeShowcaseTab);
      SidebarMatchesPanels();
    }

    /** The placeholder's "Back to Overview" button. */
    method BackToOverview()
      modifies this
      ensures activeShowcaseTab == Overview
      ensures HighlightedItems(activeShowcaseTab) == {0} && !PlaceholderShown(activeShowcaseTab)
      ensures toasts == old(toasts)
    {
      activeShowcaseTab := Overview;
      HighlightedIsUnique(Overview);
    }
  }
}
