/** The `Option` datatype used where the source has `undefined`/`null`. */
module Optional {
  datatype Option<T> = None | Some(value: T)
}

/**
 * The part of the browser document the style injectors touch: the child list
 * of `document.head`, and the rest of the document, which
 * `document.getElementById` also searches.
 */
module HeadDom {

  datatype Tag = Link | Style | OtherTag(name: string)

  /** A DOM element, reduced to the attributes the injectors set. */
  datatype Element = Element(tag: Tag, id: string, rel: string, href: string, text: string)

  datatype Document = Document(head: seq<Element>, body: seq<Element>)

  /** Every element of the document, as `getElementById` sees them. */
  function AllElements(d: Document): seq<Element>
  {
    d.head + d.body
  }

  /** Number of elements in `elems` whose id is `id`. */
  function CountId(elems: seq<Element>, id: string): (n: nat)
    ensures n <= |elems|
    ensures n == 0 <==> forall k :: 0 <= k < |elems| ==> elems[k].id != id
  {
    if elems == [] then 0
    else (if elems[0].id == id then 1 else 0) + CountId(elems[1..], id)
  }

  /** `document.getElementById(id)` finds something. */
  predicate HasElementWithId(d: Document, id: string)
  {
    CountId(AllElements(d), id) > 0
  }

  /** `document.head.appendChild(e)`. */
  function AppendToHead(d: Document, e: Element): (d': Document)
    ensures d'.head == d.head + [e] && d'.body == d.body
  {
    d.(head := d.head + [e])
  }

  lemma {:induction false} CountIdAppend(a: seq<Element>, b: seq<Element>, id: string)
    ensures CountId(a + b, id) == CountId(a, id) + CountId(b, id)
  {
    if a == [] {
      assert a + b == b;
    } else {
      assert (a + b)[1..] == a[1..] + b;
      CountIdAppend(a[1..], b, id);
    }
  }

  /** Appending `e` to the head raises the count of `e.id` by one and no other count. */
  lemma AppendToHeadCount(d: Document, e: Element, id: string)
    ensures CountId(AllElements(AppendToHead(d, e)), id)
         == CountId(AllElements(d), id) + (if e.id == id then 1 else 0)
  {
    var d' := AppendToHead(d, e);
    CountIdAppend(d.head, [e], id);
    CountIdAppend(d'.head, d.body, id);
    CountIdAppend(d.head, d.body, id);
    assert CountId([e], id) == if e.id == id then 1 else 0 by {
      assert [e][1..] == [];
    }
  }

  /** `a` is an initial segment of `b`: the children of `a` are unchanged and in order. */
  predicate IsPrefix(a: seq<Element>, b: seq<Element>)
  {
    |a| <= |b| && b[..|a|] == a
  }
}
