/**
 * The CDN-first style injector (`src/inject-styles.ts`): a module-level
 * `stylesInjected` flag, a `<link>` to the published stylesheet appended to
 * `document.head`, and an error handler on that link that appends an embedded
 * fallback `<style>`. The link's load and error events come from the network
 * and are modelled as external events.
 */
module InjectStyles {
  import opened Optional
  import opened HeadDom

  const StylesId := "abolaji-ui-styles"
  const FallbackId := "abolaji-ui-styles-fallback"
  const CdnHref := "https://cdn.jsdelivr.net/npm/abolaji-ui-components@latest/dist/index.css"
  /** Stand-in for the embedded fallback stylesheet (an opaque constant). */
  const EssentialCss := "/* Abolaji UI Components - Essential Fallback Styles */"

  /** The `<link rel="stylesheet">` element the injector creates. */
  function CdnLink(): Element
  {
    Element(Link, StylesId, "stylesheet", CdnHref, "")
  }

  /** The `<style>` element the error handler creates. */
  function FallbackStyle(): Element
  {
    Element(Style, FallbackId, "", "", EssentialCss)
  }

  /**
   * Snapshot of everything the module touches: the flag, the document
   * (`None` when `typeof document === 'undefined'`), and whether the link it
   * appended still waits for its load or error event.
   */
  datatype State = State(injected: bool, doc: Option<Document>, linkPending: bool)

  /** `injectStyles()`. */
  function Inject(s: State): (t: State)
    ensures s.injected || s.doc.None? ==> t == s
    ensures !s.injected && s.doc.Some? && HasElementWithId(s.doc.value, StylesId)
            ==> t == s.(injected := true)
    ensures !s.injected && s.doc.Some? && !HasElementWithId(s.doc.value, StylesId)
            ==> t.injected && t.linkPending && t.doc.Some?
                && t.doc.value.head == s.doc.value.head + [CdnLink()]
                && t.doc.value.body == s.doc.value.body
  {
    if s.injected || s.doc.None? then s
    else if HasElementWithId(s.doc.value, StylesId) then s.(injected := true)
    else State(true, Some(AppendToHead(s.doc.value, CdnLink())), true)
  }

  /** The link's `onload` handler: it only logs, so the document is unchanged. */
  function OnLoad(s: State): (t: State)
    ensures t.doc == s.doc && t.injected == s.injected && !t.linkPending
  {
    s.(linkPending := false)
  }

  /** The link's `onerror` handler: `loadEmbeddedStyles()`. */
  function OnError(s: State): (t: State)
    ensures t.injected == s.injected && !t.linkPending
    ensures s.linkPending && s.doc.Some?
            ==> t.doc == Some(AppendToHead(s.doc.value, FallbackStyle()))
    ensures !(s.linkPending && s.doc.Some?) ==> t.doc == s.doc
  {
    if s.linkPending && s.doc.Some? then
      State(s.injected, Some(AppendToHead(s.doc.value, FallbackStyle())), false)
    else s.(linkPending := false)
  }

  /** The state right after the module is evaluated (before the auto-call). */
  function Loaded(doc: Option<Document>): State
  {
    State(false, doc, false)
  }

  /** Module evaluation: the `if (typeof window !== 'undefined') injectStyles()` at the bottom. */
  function Imported(hasWindow: bool, doc: Option<Document>): State
  {
    if hasWindow then Inject(Loaded(doc)) else Loaded(doc)
  }

  /** What can happen to the module after import. */
  datatype Event = Call | LinkLoaded | LinkFailed

  function Step(s: State, e: Event): State
  {
    match e
    case Call => Inject(s)
    case LinkLoaded => OnLoad(s)
    case LinkFailed => OnError(s)
  }

  function Run(s: State, events: seq<Event>): State
    decreases |events|
  {
    if events == [] then s else Run(Step(s, events[0]), events[1..])
  }

  /** `n` successive calls of `injectStyles()`. */
  function CallTimes(s: State, n: nat): State
    decreases n
  {
    if n == 0 then s else CallTimes(Inject(s), n - 1)
  }

  /** Once the flag is set, every further call is a no-op: n calls do what one call does. */
  lemma {:induction false} CallsAfterFirstChangeNothing(s: State, n: nat)
    requires n >= 1
    ensures CallTimes(s, n) == Inject(s)
    decreases n
  {
    if n > 1 {
      assert Inject(s).injected || Inject(s).doc.None?;
      CallsAfterFirstChangeNothing(Inject(s), n - 1);
      assert CallTimes(Inject(s), n - 1) == Inject(Inject(s));
    }
  }

  /** No event removes, reorders or edits a head child, and the rest of the document never changes. */
  lemma {:induction false} HeadIsAppendOnly(s: State, events: seq<Event>)
    requires s.doc.Some?
    ensures Run(s, events).doc.Some?
    ensures IsPrefix(s.doc.value.head, Run(s, events).doc.value.head)
    ensures Run(s, events).doc.value.body == s.doc.value.body
    decreases |events|
  {
    if events != [] {
      var t := Step(s, events[0]);
      assert t.doc.Some? && IsPrefix(s.doc.value.head, t.doc.value.head)
             && t.doc.value.body == s.doc.value.body;
      HeadIsAppendOnly(t, events[1..]);
    }
  }

  /** Neither reserved id occurs anywhere in the document. */
  predicate Fresh(d: Document)
  {
    CountId(AllElements(d), StylesId) == 0 && CountId(AllElements(d), FallbackId) == 0
  }

  /**
   * After the first call on a fresh document: one element carries the
   * reserved id, at most one carries the fallback id, and while the link
   * still waits for its outcome there is no fallback yet.
   */
  predicate Injected(s: State)
  {
    && s.injected
    && s.doc.Some?
    && CountId(AllElements(s.doc.value), StylesId) == 1
    && CountId(AllElements(s.doc.value), FallbackId) <= 1
    && (s.linkPending ==> CountId(AllElements(s.doc.value), FallbackId) == 0)
  }

  /** On a fresh document the first call appends exactly the CDN link and sets the flag. */
  lemma FirstCallOnFreshDocument(doc: Document)
    requires Fresh(doc)
    ensures Imported(true, Some(doc)) == State(true, Some(AppendToHead(doc, CdnLink())), true)
    ensures Injected(Imported(true, Some(doc)))
  {
    AppendToHeadCount(doc, CdnLink(), StylesId);
    AppendToHeadCount(doc, CdnLink(), FallbackId);
  }

  lemma StepKeepsInjected(s: State, e: Event)
    requires Injected(s)
    ensures Injected(Step(s, e))
  {
    if e == LinkFailed && s.linkPending {
      AppendToHeadCount(s.doc.value, FallbackStyle(), StylesId);
      AppendToHeadCount(s.doc.value, FallbackStyle(), FallbackId);
    }
  }

  lemma {:induction false} RunKeepsInjected(s: State, events: seq<Event>)
    requires Injected(s)
    ensures Injected(Run(s, events))
    decreases |events|
  {
    if events != [] {
      StepKeepsInjected(s, events[0]);
      RunKeepsInjected(Step(s, events[0]), events[1..]);
    }
  }

  /**
   * Importing the library into a fresh page and then any mix of further calls
   * and load/error events never yields a second stylesheet element or a
   * second fallback.
   */
  lemma ImportThenAnyEvents(doc: Document, events: seq<Event>)
    requires Fresh(doc)
    ensures Injected(Run(Imported(true, Some(doc)), events))
  {
    FirstCallOnFreshDocument(doc);
    RunKeepsInjected(Imported(true, Some(doc)), events);
  }

  /** A failed link right after import leaves the link in place and appends exactly the fallback after it. */
  lemma ErrorAfterImport(doc: Document)
    requires Fresh(doc)
    ensures Run(Imported(true, Some(doc)), [LinkFailed]).doc.value.head
            == doc.head + [CdnLink(), FallbackStyle()]
  {
    FirstCallOnFreshDocument(doc);
    var t := Run(Imported(true, Some(doc)), [LinkFailed]);
    assert t == OnError(Imported(true, Some(doc)));
  }

  /** The module's state as a mutable object: the module-level flag and the host document. */
  class Injector {
    var stylesInjected: bool
    var document: Option<Document>
    var linkPending: bool

    function Snapshot(): State
      reads this
    {
      State(stylesInjected, document, linkPending)
    }

    /** Evaluating the module: the flag starts false, then the auto-call runs if a window exists. */
    constructor Import(hasWindow: bool, document: Option<Document>)
      ensures Snapshot() == Imported(hasWindow, document)
    {
      this.stylesInjected := false;
      this.document := document;
      this.linkPending := false;
      new;
      if hasWindow {
        InjectStyles();
      }
    }

    method InjectStyles()
      modifies this
      ensures Snapshot() == Inject(old(Snapshot()))
    {
      if stylesInjected || document.None? {
        return;
      }
      if HasElementWithId(document.value, StylesId) {
        stylesInjected := true;
        return;
      }
      document := Some(AppendToHead(document.value, CdnLink()));
      linkPending := true;
      stylesInjected := true;
    }

    method LinkOnLoad()
      modifies this
      ensures Snapshot() == OnLoad(old(Snapshot()))
    {
      linkPending := false;
    }

    method LinkOnError()
      modifies this
      ensures Snapshot() == OnError(old(Snapshot()))
    {
      if linkPending && document.Some? {
        document := Some(AppendToHead(document.value, FallbackStyle()));
      }
      linkPending := false;
    }
  }
}
