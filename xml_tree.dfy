/** An abstract ElementTree element: tag, attribute map, optional text and
    ordered children. Text parsing and serialisation of XML are not modelled;
    only the lookups the overlay code performs on a parsed element are. */
module XmlTree {
  import opened Wrappers

  datatype Element = Element(tag: string, attrib: map<string, string>, text: Option<string>, children: seq<Element>)

  /** An element with text and nothing else, as built by `ET.Element(tag)`
      followed by `e.text = text`. */
  function Leaf(tag: string, text: string): Element {
    Element(tag, map[], Some(text), [])
  }

  /** `find(tag)` over a child list: the first child with that tag. */
  function FindIn(cs: seq<Element>, tag: string): (r: Option<Element>)
    ensures r.Some? ==> r.value in cs && r.value.tag == tag
  {
    if cs == [] then None
    else if cs[0].tag == tag then Some(cs[0])
    else FindIn(cs[1..], tag)
  }

  /** `findall(tag)` over a child list: every child with that tag, in order. */
  function FindAllIn(cs: seq<Element>, tag: string): seq<Element> {
    if cs == [] then []
    else if cs[0].tag == tag then [cs[0]] + FindAllIn(cs[1..], tag)
    else FindAllIn(cs[1..], tag)
  }

  /** find comes back empty exactly when no child carries the tag. */
  lemma {:induction false} FindInNone(cs: seq<Element>, tag: string)
    ensures FindIn(cs, tag).None? <==> forall c :: c in cs ==> c.tag != tag
  {
    if cs != [] {
      FindInNone(cs[1..], tag);
      assert forall c :: c in cs <==> c == cs[0] || c in cs[1..];
    }
  }

  /** findall keeps exactly the children with the tag, and is empty exactly
      when find finds nothing. */
  lemma {:induction false} FindAllInSpec(cs: seq<Element>, tag: string)
    ensures |FindAllIn(cs, tag)| <= |cs|
    ensures forall e :: e in FindAllIn(cs, tag) <==> e in cs && e.tag == tag
    ensures FindAllIn(cs, tag) == [] <==> FindIn(cs, tag).None?
  {
    if cs != [] {
      FindAllInSpec(cs[1..], tag);
      assert forall c :: c in cs <==> c == cs[0] || c in cs[1..];
    }
  }

  /** `element.find(tag)`: only direct children are searched. */
  function Find(e: Element, tag: string): Option<Element> {
    FindIn(e.children, tag)
  }

  /** `element.findall(tag)`. */
  function FindAll(e: Element, tag: string): seq<Element> {
    FindAllIn(e.children, tag)
  }

  /** Searching a list looks at its first child before the rest. */
  lemma FindInCons(c: Element, cs: seq<Element>, tag: string)
    ensures FindIn([c] + cs, tag) == if c.tag == tag then Some(c) else FindIn(cs, tag)
  {
    assert ([c] + cs)[1..] == cs;
  }

  lemma FindAllInCons(c: Element, cs: seq<Element>, tag: string)
    ensures FindAllIn([c] + cs, tag) == if c.tag == tag then [c] + FindAllIn(cs, tag) else FindAllIn(cs, tag)
  {
    assert ([c] + cs)[1..] == cs;
  }

  /** Searching a concatenation searches the front first. */
  lemma {:induction false} FindInAppend(a: seq<Element>, b: seq<Element>, tag: string)
    ensures FindIn(a + b, tag) == if FindIn(a, tag).Some? then FindIn(a, tag) else FindIn(b, tag)
  {
    if a != [] {
      assert (a + b)[1..] == a[1..] + b;
      FindInAppend(a[1..], b, tag);
    } else {
      assert a + b == b;
    }
  }

  lemma {:induction false} FindAllInAppend(a: seq<Element>, b: seq<Element>, tag: string)
    ensures FindAllIn(a + b, tag) == FindAllIn(a, tag) + FindAllIn(b, tag)
  {
    if a != [] {
      assert (a + b)[1..] == a[1..] + b;
      FindAllInAppend(a[1..], b, tag);
    } else {
      assert a + b == b;
    }
  }

  /** A list in which no child carries the tag contributes nothing. */
  lemma FindAllInNone(cs: seq<Element>, tag: string)
    requires forall c :: c in cs ==> c.tag != tag
    ensures FindAllIn(cs, tag) == []
  {
  }

  /** A list in which every child carries the tag is found whole. */
  lemma {:induction false} FindAllInEvery(cs: seq<Element>, tag: string)
    requires forall c :: c in cs ==> c.tag == tag
    ensures FindAllIn(cs, tag) == cs
  {
    if cs != [] {
      assert forall c :: c in cs[1..] ==> c in cs;
      FindAllInEvery(cs[1..], tag);
      assert [cs[0]] + cs[1..] == cs;
    }
  }
}
