/** The overlay record of layman/overlays/overlay.py: reading it from a
    `<repo>`/`<overlay>` element, writing it back with `to_xml`, the
    field-wise equality `__eq__`, and `add`, which tries the alternative
    sources in order and keeps the first that works. */
module Overlays {
  import opened Wrappers
  import opened Strings
  import opened XmlTree

  /** QUALITY_LEVELS. */
  const QualityLevels: seq<string> := ["core", "stable", "testing", "experimental", "graveyard"]
  const DefaultQuality: string := "experimental"
  const DefaultPriority: int := 50

  /** One way of obtaining the overlay: the location text and the handler
      chosen for it (its `type_key` and its display `type`). */
  datatype Source = Source(src: string, typeKey: string, display: string)

  /** OVERLAY_TYPES: handler type key to the handler's display label. */
  type Registry = map<string, string>

  datatype Overlay = Overlay(
    name: string,
    sources: seq<Source>,
    ownerEmail: string,
    ownerName: Option<string>,
    description: string,
    status: Option<string>,
    quality: string,
    priority: int,
    homepage: Option<string>,
    feeds: seq<string>,
    irc: Option<string>)

  /** The exceptions the constructor raises. */
  datatype ParseError =
    | MissingName
    | MissingSource(overlay: string)
    | UnknownType(typeKey: string)
    | MissingOwnerEmail(overlay: string)
    | MissingDescription(overlay: string)
    | BadPriority(text: string)

  datatype Owner = Owner(email: string, name: Option<string>)

  // ------------------------------------------------------------- reading

  /** strip_text: the element's text, stripped; '' when it has none. */
  function StripText(e: Element): (r: string)
    ensures Stripped(r)
  {
    match e.text
    case None => ""
    case Some(t) => Strip(t)
  }

  /** The name: the stripped `<name>` child, else the `name` attribute as is. */
  function ParseName(x: Element): Option<string> {
    match Find(x, "name")
    case Some(n) => Some(StripText(n))
    case None => if "name" in x.attrib then Some(x.attrib["name"]) else None
  }

  predicate Typed(e: Element) {
    "type" in e.attrib
  }

  predicate AllTyped(es: seq<Element>) {
    forall i :: 0 <= i < |es| ==> "type" in es[i].attrib
  }

  /** The list comprehension `[e for e in es if 'type' in e.attrib]`. */
  function TypedOnly(es: seq<Element>): (r: seq<Element>)
    ensures AllTyped(r) && |r| <= |es|
    ensures forall e :: e in r <==> e in es && Typed(e)
  {
    if es == [] then []
    else if Typed(es[0]) then [es[0]] + TypedOnly(es[1..])
    else TypedOnly(es[1..])
  }

  /** The filter keeps order: an element appended to the input is appended
      to the output exactly when it is typed. */
  lemma {:induction false} TypedOnlyAppend(es: seq<Element>, e: Element)
    ensures TypedOnly(es + [e]) == TypedOnly(es) + (if Typed(e) then [e] else [])
  {
    if es == [] {
      assert [e][1..] == [];
    } else {
      assert (es + [e])[1..] == es[1..] + [e];
      TypedOnlyAppend(es[1..], e);
    }
  }

  /** The `<source>` children that carry a `type` attribute; only when there
      is no `<source>` child at all, the `src`/`type` attribute pair. */
  function SourceElements(x: Element): (r: seq<Element>)
    ensures AllTyped(r)
    ensures FindAll(x, "source") != [] ==>
      forall e :: e in r <==> e in x.children && e.tag == "source" && Typed(e)
    ensures FindAll(x, "source") == [] ==>
      (r != [] <==> "src" in x.attrib && "type" in x.attrib)
    ensures FindAll(x, "source") == [] && r != [] ==>
      r == [Element("source", map["type" := x.attrib["type"]], Some(x.attrib["src"]), [])]
  {
    FindAllInSpec(x.children, "source");
    var found := FindAll(x, "source");
    if found != [] then TypedOnly(found)
    else if "src" in x.attrib && "type" in x.attrib then
      [Element("source", map["type" := x.attrib["type"]], Some(x.attrib["src"]), [])]
    else []
  }

  /** create_overlay_source over the list, in order: the first unknown type
      key aborts with UnknownType. */
  function ParseSources(es: seq<Element>, reg: Registry): (r: Result<seq<Source>, ParseError>)
    requires AllTyped(es)
    ensures r.Ok? ==> |r.value| == |es|
    ensures r.Err? ==> r.error.UnknownType? && r.error.typeKey !in reg
  {
    if es == [] then Ok([])
    else
      var t := es[0].attrib["type"];
      if t !in reg then Err(UnknownType(t))
      else
        match ParseSources(es[1..], reg)
        case Err(e) => Err(e)
        case Ok(rest) => Ok([Source(StripText(es[0]), t, reg[t])] + rest)
  }

  /** The sources are read one for one, and an error is an unregistered type. */
  lemma ParseSourcesSpec(es: seq<Element>, reg: Registry)
    requires AllTyped(es)
    ensures var r := ParseSources(es, reg);
      && (r.Ok? <==> forall i :: 0 <= i < |es| ==> es[i].attrib["type"] in reg)
      && (r.Ok? ==> |r.value| == |es|)
      && (r.Ok? ==> forall i :: 0 <= i < |es| ==>
            r.value[i] == Source(StripText(es[i]), es[i].attrib["type"], reg[es[i].attrib["type"]]))
      && (r.Err? ==> r.error.UnknownType? && r.error.typeKey !in reg)
  {
    ParseSourcesOk(es, reg);
    if ParseSources(es, reg).Ok? {
      ParseSourcesValues(es, reg);
    }
  }

  lemma {:induction false} ParseSourcesOk(es: seq<Element>, reg: Registry)
    requires AllTyped(es)
    ensures ParseSources(es, reg).Ok? <==> forall i :: 0 <= i < |es| ==> es[i].attrib["type"] in reg
  {
    if es != [] {
      assert AllTyped(es[1..]);
      ParseSourcesOk(es[1..], reg);
      assert forall i :: 1 <= i < |es| ==> es[i] == es[1..][i - 1];
    }
  }

  lemma {:induction false} ParseSourcesValues(es: seq<Element>, reg: Registry)
    requires AllTyped(es) && ParseSources(es, reg).Ok?
    ensures forall i :: 0 <= i < |es| ==>
      && es[i].attrib["type"] in reg
      && ParseSources(es, reg).value[i] == Source(StripText(es[i]), es[i].attrib["type"], reg[es[i].attrib["type"]])
  {
    if es != [] {
      assert AllTyped(es[1..]);
      ParseSourcesValues(es[1..], reg);
      var t := es[0].attrib["type"];
      assert ParseSources(es, reg).value == [Source(StripText(es[0]), t, reg[t])] + ParseSources(es[1..], reg).value;
    }
  }

  /** Owner: `<owner><email>` (with optional `<owner><name>`), else the
      `contact` attribute; None when neither is there. */
  function ParseOwner(x: Element): Option<Owner> {
    var o := Find(x, "owner");
    if o.Some? && Find(o.value, "email").Some? then
      var n := Find(o.value, "name");
      Some(Owner(StripText(Find(o.value, "email").value), if n.Some? then Some(StripText(n.value)) else None))
    else if "contact" in x.attrib then
      Some(Owner(x.attrib["contact"], None))
    else
      None
  }

  /** The stripped `<description>` with whitespace runs collapsed. */
  function ParseDescription(x: Element): Option<string> {
    match Find(x, "description")
    case Some(d) => Some(CollapseSpaces(StripText(d)))
    case None => None
  }

  function ParseQuality(x: Element): string {
    if "quality" in x.attrib && x.attrib["quality"] in QualityLevels then x.attrib["quality"]
    else DefaultQuality
  }

  /** `int(priority)`, 50 without the attribute; None is the ValueError. */
  function ParsePriority(x: Element): Option<int> {
    if "priority" in x.attrib then ParseInt(x.attrib["priority"]) else Some(DefaultPriority)
  }

  function ParseHomepage(x: Element): Option<string> {
    match Find(x, "homepage")
    case Some(h) => Some(StripText(h))
    case None =>
      match Find(x, "link")
      case Some(l) => Some(StripText(l))
      case None => None
  }

  function StripTexts(es: seq<Element>): (r: seq<string>)
    ensures |r| == |es| && forall i :: 0 <= i < |es| ==> r[i] == StripText(es[i])
  {
    seq(|es|, i requires 0 <= i < |es| => StripText(es[i]))
  }

  function ParseIrc(x: Element): Option<string> {
    match Find(x, "irc")
    case Some(i) => Some(StripText(i))
    case None => None
  }

  /** Overlay.__init__ on an element: the checks run in the constructor's
      order (name, sources, source types, owner, description, priority);
      a missing owner e-mail or description is an error only when
      `ignore` is 0, and becomes '' otherwise. */
  function Parse(x: Element, reg: Registry, ignore: int): Result<Overlay, ParseError> {
    match ParseName(x)
    case None => Err(MissingName)
    case Some(name) =>
      var es := SourceElements(x);
      if es == [] then Err(MissingSource(name))
      else
        match ParseSources(es, reg)
        case Err(e) => Err(e)
        case Ok(sources) =>
          var owner := ParseOwner(x);
          if owner.None? && ignore == 0 then Err(MissingOwnerEmail(name))
          else
            var desc := ParseDescription(x);
            if desc.None? && ignore == 0 then Err(MissingDescription(name))
            else
              var prio := ParsePriority(x);
              if prio.None? then Err(BadPriority(x.attrib["priority"]))
              else
                Ok(Overlay(
                  name := name,
                  sources := sources,
                  ownerEmail := if owner.Some? then owner.value.email else "",
                  ownerName := if owner.Some? then owner.value.name else None,
                  description := if desc.Some? then desc.value else "",
                  status := if "status" in x.attrib then Some(x.attrib["status"]) else None,
                  quality := ParseQuality(x),
                  priority := prio.value,
                  homepage := ParseHomepage(x),
                  feeds := StripTexts(FindAll(x, "feed")),
                  irc := ParseIrc(x)))
  }

  // ------------------------------------------------------------- writing

  function SourceXml(ss: seq<Source>): (r: seq<Element>)
    ensures |r| == |ss|
    ensures forall i :: 0 <= i < |ss| ==> r[i] == Element("source", map["type" := ss[i].typeKey], Some(ss[i].src), [])
  {
    if ss == [] then []
    else [Element("source", map["type" := ss[0].typeKey], Some(ss[0].src), [])] + SourceXml(ss[1..])
  }

  function FeedXml(fs: seq<string>): (r: seq<Element>)
    ensures |r| == |fs|
    ensures forall i :: 0 <= i < |fs| ==> r[i] == Leaf("feed", fs[i])
  {
    if fs == [] then [] else [Leaf("feed", fs[0])] + FeedXml(fs[1..])
  }

  function OwnerXml(o: Overlay): Element {
    Element("owner", map[], None,
      [Leaf("email", o.ownerEmail)] + if o.ownerName.Some? then [Leaf("name", o.ownerName.value)] else [])
  }

  /** The children to_xml appends before the sources. */
  function HeadXml(o: Overlay): seq<Element> {
    [Leaf("name", o.name), Leaf("description", o.description)]
    + (if o.homepage.Some? then [Leaf("homepage", o.homepage.value)] else [])
    + (if o.irc.Some? then [Leaf("irc", o.irc.value)] else [])
    + [OwnerXml(o)]
  }

  function RepoAttrib(o: Overlay): map<string, string> {
    (if o.status.Some? then map["status" := o.status.value] else map[])
      ["quality" := o.quality]["priority" := IntToString(o.priority)]
  }

  /** Overlay.to_xml (the per-handler `to_xml_hook` is not part of this model). */
  function ToXml(o: Overlay): Element {
    Element("repo", RepoAttrib(o), None, HeadXml(o) + SourceXml(o.sources) + FeedXml(o.feeds))
  }

  // ------------------------------------------------------------- equality

  /** Overlay.__eq__: seven fields compared, and every source of either side
      found among the sources of both. Quality, irc and feeds are ignored. */
  predicate Eq(a: Overlay, b: Overlay) {
    && a.description == b.description
    && a.homepage == b.homepage
    && a.name == b.name
    && a.ownerEmail == b.ownerEmail
    && a.ownerName == b.ownerName
    && a.priority == b.priority
    && a.status == b.status
    && forall s :: s in a.sources + b.sources ==> s in a.sources && s in b.sources
  }

  /** Overlay.__ne__. */
  predicate Ne(a: Overlay, b: Overlay) {
    !Eq(a, b)
  }

  // ------------------------------------------------------------- queries

  /** is_official. */
  predicate IsOfficial(o: Overlay) {
    o.status == Some("official")
  }

  /** source_uris. */
  function SourceUris(o: Overlay): (r: seq<string>)
    ensures |r| == |o.sources| && forall i :: 0 <= i < |r| ==> r[i] == o.sources[i].src
  {
    seq(|o.sources|, i requires 0 <= i < |o.sources| => o.sources[i].src)
  }

  /** source_types: the handlers' display labels. */
  function SourceTypes(o: Overlay): (r: seq<string>)
    ensures |r| == |o.sources| && forall i :: 0 <= i < |r| ==> r[i] == o.sources[i].display
  {
    seq(|o.sources|, i requires 0 <= i < |o.sources| => o.sources[i].display)
  }

  function Labels(ss: seq<Source>): set<string> {
    set s | s in ss :: s.display
  }

  /** The type column of short_list: the first source's display, followed by
      '/..' when the sources do not all share one display. */
  function TypeLabel(o: Overlay): string
    requires o.sources != []
  {
    if |Labels(o.sources)| == 1 then o.sources[0].display else o.sources[0].display + "/.."
  }

  /** sync and delete assert that exactly one source is left and delegate
      to it; None is the AssertionError. */
  function SoleSource(o: Overlay): (r: Option<Source>)
    ensures r.Some? <==> |o.sources| == 1
    ensures r.Some? ==> o.sources == [r.value]
  {
    if |o.sources| == 1 then Some(o.sources[0]) else None
  }

  // ------------------------------------------------------------- adding

  /** What one source's `add` did: returned an exit status or raised. */
  datatype Attempt = Returned(code: int) | Raised(message: string)

  /** The index of the first attempt that returned 0. */
  function FirstSuccess(att: seq<Attempt>): (r: Option<nat>)
    ensures r.Some? ==> r.value < |att| && att[r.value] == Returned(0)
    ensures r.Some? ==> forall j :: 0 <= j < r.value ==> att[j] != Returned(0)
    ensures r.None? ==> forall j :: 0 <= j < |att| ==> att[j] != Returned(0)
  {
    if att == [] then None
    else if att[0] == Returned(0) then Some(0)
    else
      match FirstSuccess(att[1..])
      case None => None
      case Some(k) => Some(k + 1)
  }

  /** The status of the last attempt that returned, `init` if none did. */
  function LastCode(att: seq<Attempt>, init: int): int {
    if att == [] then init
    else if att[|att| - 1].Returned? then att[|att| - 1].code
    else LastCode(att[..|att| - 1], init)
  }

  /** What Overlay.add returns: 0 once a source succeeds, otherwise the last
      status a source returned, 1 if none returned. */
  function AddResult(att: seq<Attempt>): int {
    match FirstSuccess(att)
    case Some(_) => 0
    case None => LastCode(att, 1)
  }

  /** The sources after Overlay.add: only the one that succeeded, or all of them. */
  function AddSources(ss: seq<Source>, att: seq<Attempt>): seq<Source>
    requires |att| == |ss|
  {
    match FirstSuccess(att)
    case Some(k) => [ss[k]]
    case None => ss
  }

  lemma {:induction false} LastCodeNonzero(att: seq<Attempt>, init: int)
    requires init != 0
    requires forall j :: 0 <= j < |att| ==> att[j] != Returned(0)
    ensures LastCode(att, init) != 0
  {
    if att != [] && !att[|att| - 1].Returned? {
      LastCodeNonzero(att[..|att| - 1], init);
    }
  }

  /** add returns 0 exactly when some source's add returned 0; the sources
      are then cut down to the first such source. */
  lemma AddResultZeroIff(ss: seq<Source>, att: seq<Attempt>)
    requires |att| == |ss|
    ensures AddResult(att) == 0 <==> exists k :: 0 <= k < |att| && att[k] == Returned(0)
    ensures AddResult(att) == 0 ==> |AddSources(ss, att)| == 1 && AddSources(ss, att)[0] in ss
    ensures AddResult(att) != 0 ==> AddSources(ss, att) == ss
  {
    if FirstSuccess(att).None? {
      LastCodeNonzero(att, 1);
    }
  }

  /** After add returns 0, sync and delete find exactly one source, the
      first whose add returned 0; after a failed add they see the sources
      unchanged, so with several of them they raise. */
  lemma AddThenSole(o: Overlay, att: seq<Attempt>)
    requires |att| == |o.sources|
    ensures AddResult(att) == 0 ==>
      FirstSuccess(att).Some? &&
      SoleSource(o.(sources := AddSources(o.sources, att))) == Some(o.sources[FirstSuccess(att).value])
    ensures AddResult(att) != 0 ==>
      SoleSource(o.(sources := AddSources(o.sources, att))) == SoleSource(o)
  {
    if FirstSuccess(att).None? {
      LastCodeNonzero(att, 1);
    }
  }

  /** The live Python object: `add` reassigns its `sources` in place. */
  class OverlayObject {
    var overlay: Overlay

    constructor (o: Overlay)
      ensures overlay == o
    {
      overlay := o;
    }

    /** Overlay.add: try each source in order, `attempts[i]` being what the
        i-th source's add does; an exception is only warned about. */
    method Add(attempts: seq<Attempt>) returns (res: int)
      requires |attempts| == |overlay.sources|
      modifies this
      ensures res == AddResult(attempts)
      ensures overlay == old(overlay).(sources := AddSources(old(overlay).sources, attempts))
    {
      res := 1;
      var i := 0;
      while i < |attempts|
        invariant 0 <= i <= |attempts| == |overlay.sources|
        invariant overlay == old(overlay)
        invariant forall j :: 0 <= j < i ==> attempts[j] != Returned(0)
        invariant res == LastCode(attempts[..i], 1)
      {
        assert attempts[..i + 1][..i] == attempts[..i];
        if attempts[i].Returned? {
          res := attempts[i].code;
          if res == 0 {
            overlay := overlay.(sources := [overlay.sources[i]]);
            assert FirstSuccess(attempts) == Some(i) by {
              FirstSuccessAt(attempts, i);
            }
            return;
          }
        }
        i := i + 1;
      }
      assert attempts[..i] == attempts;
    }
  }

  lemma {:induction false} FirstSuccessAt(att: seq<Attempt>, i: nat)
    requires i < |att| && att[i] == Returned(0)
    requires forall j :: 0 <= j < i ==> att[j] != Returned(0)
    ensures FirstSuccess(att) == Some(i)
  {
    if i > 0 {
      FirstSuccessAt(att[1..], i - 1);
    }
  }
}
