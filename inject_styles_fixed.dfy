/**
 * The embedded-only style injector (`src/inject-styles-fixed.ts`): the same
 * module flag and duplicate check as the CDN variant, but the first call
 * appends one `<style>` holding the whole stylesheet and nothing else.
 */
module InjectStylesFixed {
  import opened Optional
  import opened HeadDom

  const StylesId := "abolaji-ui-styles"
  /** Stand-in for the comprehensive embedded stylesheet (an opaque constant). */
  const ComprehensiveCss := "/* Abolaji UI Components - Comprehensive Auto-injected Styles */"

  /** The `<style>` element the injector creates. */
  function ComprehensiveStyle(): Element
  {
    Element(Style, StylesId, "", "", ComprehensiveCss)
  }

  /** The module flag and the document (`None` outside a browser). */
  datatype State = State(injected: bool, doc: Option<Document>)

  /** `injectStyles()`. */
  function Inject(s: State): (t: State)
    ensures s.injected || s.doc.None? ==> t == s
    ensures !s.injected && s.doc.Some? && HasElementWithId(s.doc.value, StylesId)
            ==> t == State(true, s.doc)
    ensures !s.injected && s.doc.Some? && !HasElementWithId(s.doc.value, StylesId)
            ==> t == State(true, Some(AppendToHead(s.doc.value, ComprehensiveStyle())))
  {
    if s.injected || s.doc.None? then s
    else if HasElementWithId(s.doc.value, StylesId) then State(true, s.doc)
    else State(true, Some(AppendToHead(s.doc.value, ComprehensiveStyle())))
  }

  /** Module evaluation, including the auto-call when a window exists. */
  function Imported(hasWindow: bool, doc: Option<Document>): State
  {
    if hasWindow then Inject(State(false, doc)) else State(false, doc)
  }

  /** `n` successive calls of `injectStyles()`. */
  function CallTimes(s: State, n: nat): State
    decreases n
  {
    if n == 0 then s else CallTimes(Inject(s), n - 1)
  }

  /**
   * Every call is append-only and can only add the comprehensive `<style>`:
   * the earlier head children stay as they were, the rest of the document is
   * untouched, and no link or fallback element ever appears.
   */
  lemma {:induction false} CallsOnlyAppendTheStyle(s: State, n: nat)
    requires s.doc.Some?
    ensures CallTimes(s, n).doc.Some?
    ensures IsPrefix(s.doc.value.head, CallTimes(s, n).doc.value.head)
    ensures CallTimes(s, n).doc.value.body == s.doc.value.body
    ensures forall k :: |s.doc.value.head| <= k < |CallTimes(s, n).doc.value.head|
              ==> CallTimes(s, n).doc.value.head[k] == ComprehensiveStyle()
    decreases n
  {
    if n > 0 {
      CallsOnlyAppendTheStyle(Inject(s), n - 1);
    }
  }

  /** On a fresh document, n >= 1 calls leave the flag set and exactly one element with the reserved id. */
  lemma {:induction false} ExactlyOneAfterCalls(doc: Document, n: nat)
    requires CountId(AllElements(doc), StylesId) == 0
    requires n >= 1
    ensures CallTimes(State(false, Some(doc)), n)
            == State(true, Some(AppendToHead(doc, ComprehensiveStyle())))
    ensures CountId(AllElements(AppendToHead(doc, ComprehensiveStyle())), StylesId) == 1
    decreases n
  {
    AppendToHeadCount(doc, ComprehensiveStyle(), StylesId);
    if n > 1 {
      FlaggedCallsChangeNothing(Inject(State(false, Some(doc))), n - 1);
    }
  }

  /** A set flag turns every call into a no-op. */
  lemma {:induction false} FlaggedCallsChangeNothing(s: State, n: nat)
    requires s.injected
    ensures CallTimes(s, n) == s
    decreases n
  {
    if n > 0 {
      FlaggedCallsChangeNothing(Inject(s), n - 1);
    }
  }

  /** The module's flag and host document as a mutable object. */
  class Injector {
    var stylesInjected: bool
    var document: Option<Document>

    function Snapshot(): State
      reads this
    {
      State(stylesInjected, document)
    }

    /** Evaluating the module: the flag starts false, then the auto-call runs if a window exists. */
    constructor Import(hasWindow: bool, document: Option<Document>)
      ensures Snapshot() == Imported(hasWindow, document)
    {
      this.stylesInjected := false;
      this.document := document;
      new;
      if hasWindow {
        InjectStyles();
      }
    }

    method InjectStyles()
      modifies this
      ensures Snapshot() == Inject(old(Snapshot()))
    {
      if stylesInjected || document.None? {
        return;
      }
      if HasElementWithId(document.value, StylesId) {
        stylesInjected := true;
        return;
      }
      document := Some(AppendToHead(document.value, ComprehensiveStyle()));
      stylesInjected := true;
    }
  }
}
