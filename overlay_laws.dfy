/** What the overlay record promises: the constructor's field rules, the
    read / write / re-read round trip, and the properties of `__eq__`. */
module OverlayLaws {
  import opened Wrappers
  import opened Strings
  import opened XmlTree
  import opened Overlays

  /** The overlays that `to_xml` writes out faithfully: every text field
      already in the form the constructor leaves it (stripped; the
      description also with single spaces), at least one source, every source
      of a registered type, and a known quality level. */
  ghost predicate WellFormed(o: Overlay, reg: Registry) {
    && Stripped(o.name)
    && o.sources != []
    && (forall i :: 0 <= i < |o.sources| ==>
          Stripped(o.sources[i].src) && o.sources[i].typeKey in reg && reg[o.sources[i].typeKey] == o.sources[i].display)
    && Stripped(o.ownerEmail)
    && (o.ownerName.Some? ==> Stripped(o.ownerName.value))
    && Collapsed(o.description)
    && o.quality in QualityLevels
    && (o.homepage.Some? ==> Stripped(o.homepage.value))
    && (forall i :: 0 <= i < |o.feeds| ==> Stripped(o.feeds[i]))
    && (o.irc.Some? ==> Stripped(o.irc.value))
  }

  // ------------------------------------------------------- constructor rules

  /** The name is the stripped `<name>` child, else the `name` attribute;
      with neither the constructor raises, whatever `ignore` says. */
  lemma NameRule(x: Element, reg: Registry, ignore: int)
    ensures Parse(x, reg, ignore) == Err(MissingName) <==> Find(x, "name").None? && "name" !in x.attrib
    ensures Parse(x, reg, ignore).Ok? ==>
      Parse(x, reg, ignore).value.name ==
        if Find(x, "name").Some? then StripText(Find(x, "name").value) else x.attrib["name"]
  {
    match ParseName(x)
    case None =>
      assert Parse(x, reg, ignore) == Err(MissingName);
    case Some(name) =>
      assert Parse(x, reg, ignore).Err? ==> Parse(x, reg, ignore).error != MissingName;
      assert Parse(x, reg, ignore).Ok? ==> Parse(x, reg, ignore).value.name == name;
  }

  /** Only `<source>` children with a `type` are kept, in order; the
      `src`/`type` attributes are a fallback only without any `<source>`
      child; no usable source, or an unregistered type, raises. */
  lemma SourceRule(x: Element, reg: Registry, ignore: int)
    requires ParseName(x).Some?
    ensures SourceElements(x) == [] ==> Parse(x, reg, ignore) == Err(MissingSource(ParseName(x).value))
    ensures (exists i :: 0 <= i < |SourceElements(x)| && SourceElements(x)[i].attrib["type"] !in reg) ==>
      Parse(x, reg, ignore).Err? && Parse(x, reg, ignore).error.UnknownType?
    ensures Parse(x, reg, ignore).Ok? ==>
      var es := SourceElements(x);
      var ss := Parse(x, reg, ignore).value.sources;
      && |ss| == |es| > 0
      && forall i :: 0 <= i < |es| ==> ss[i].src == StripText(es[i]) && ss[i].typeKey == es[i].attrib["type"]
    ensures Parse(x, reg, ignore).Ok? && FindAll(x, "source") != [] ==>
      forall s :: s in Parse(x, reg, ignore).value.sources ==>
        exists e :: e in x.children && e.tag == "source" && Typed(e) &&
          s == Source(StripText(e), e.attrib["type"], reg[e.attrib["type"]])
    ensures Parse(x, reg, ignore).Ok? && FindAll(x, "source") == [] ==>
      "src" in x.attrib && "type" in x.attrib && x.attrib["type"] in reg &&
      Parse(x, reg, ignore).value.sources == [Source(Strip(x.attrib["src"]), x.attrib["type"], reg[x.attrib["type"]])]
  {
    var es := SourceElements(x);
    if es != [] {
      ParseSourcesSpec(es, reg);
      if Parse(x, reg, ignore).Ok? {
        var ss := ParsedSourceList(x, reg, ignore);
        forall s | s in ss
          ensures exists e :: e in es && s == Source(StripText(e), e.attrib["type"], reg[e.attrib["type"]])
        {
          var i :| 0 <= i < |ss| && ss[i] == s;
          assert es[i] in es;
        }
      }
    }
  }

  /** The sources of an accepted element are those read from its source
      elements. */
  lemma ParsedSourceList(x: Element, reg: Registry, ignore: int) returns (ss: seq<Source>)
    requires Parse(x, reg, ignore).Ok?
    ensures ss == Parse(x, reg, ignore).value.sources
    ensures SourceElements(x) != [] && ParseSources(SourceElements(x), reg) == Ok(ss)
  {
    ss := Parse(x, reg, ignore).value.sources;
  }

  /** A missing owner e-mail or description raises when `ignore` is 0 and
      otherwise becomes '' (with no owner name); the description has its
      whitespace runs collapsed. */
  lemma OwnerAndDescriptionRule(x: Element, reg: Registry, ignore: int)
    ensures Parse(x, reg, ignore).Ok? && ParseOwner(x).None? ==>
      ignore != 0 && Parse(x, reg, ignore).value.ownerEmail == "" && Parse(x, reg, ignore).value.ownerName.None?
    ensures Parse(x, reg, ignore).Ok? && ParseDescription(x).None? ==>
      ignore != 0 && Parse(x, reg, ignore).value.description == ""
    ensures Parse(x, reg, ignore).Ok? ==> Collapsed(Parse(x, reg, ignore).value.description)
  {
    match Find(x, "description")
    case Some(d) => CollapseStrippedIsCollapsed(StripText(d));
    case None =>
  }

  /** A known quality level in the attribute is taken, anything else falls
      back to 'experimental'; priority is `int()` of the attribute, 50
      without it; homepage prefers `<homepage>` over `<link>`. */
  lemma DefaultsRule(x: Element, reg: Registry, ignore: int)
    ensures Parse(x, reg, ignore).Ok? ==>
      var o := Parse(x, reg, ignore).value;
      && o.quality in QualityLevels
      && ("quality" in x.attrib && x.attrib["quality"] in QualityLevels ==> o.quality == x.attrib["quality"])
      && ("quality" !in x.attrib || x.attrib["quality"] !in QualityLevels ==> o.quality == DefaultQuality)
      && ("priority" !in x.attrib ==> o.priority == DefaultPriority)
      && ("priority" in x.attrib ==> ParseInt(x.attrib["priority"]) == Some(o.priority))
      && (o.homepage.None? <==> Find(x, "homepage").None? && Find(x, "link").None?)
      && (Find(x, "homepage").Some? ==> o.homepage == Some(StripText(Find(x, "homepage").value)))
      && (Find(x, "homepage").None? && Find(x, "link").Some? ==> o.homepage == Some(StripText(Find(x, "link").value)))
    ensures "priority" in x.attrib && ParseInt(x.attrib["priority"]).None? && Parse(x, reg, ignore).Ok? ==> false
  {
  }

  /** With whitespace after the sign the priority is still read. */
  lemma SpacedPriorityRead(n: nat)
    ensures ParsePriority(Element("repo", map["priority" := "- " + NatToString(n)], None, [])) == Some(-(n as int))
  {
    ParseIntSpaceAfterSign(n);
  }

  /** is_official holds exactly for status="official" on the element. */
  lemma OfficialRule(x: Element, reg: Registry, ignore: int)
    requires Parse(x, reg, ignore).Ok?
    ensures IsOfficial(Parse(x, reg, ignore).value) <==> "status" in x.attrib && x.attrib["status"] == "official"
  {
  }

  /** Whatever the constructor accepts is well formed, up to the two fields
      it takes from attributes without stripping. */
  lemma ParsedIsWellFormed(x: Element, reg: Registry, ignore: int)
    requires Parse(x, reg, ignore).Ok?
    requires Stripped(Parse(x, reg, ignore).value.name)
    requires Stripped(Parse(x, reg, ignore).value.ownerEmail)
    ensures WellFormed(Parse(x, reg, ignore).value, reg)
  {
    OwnerAndDescriptionRule(x, reg, ignore);
    ParsedSources(x, reg, ignore);
    ParsedTexts(x, reg, ignore);
  }

  /** The other texts read are stripped, and the quality is a known level. */
  lemma ParsedTexts(x: Element, reg: Registry, ignore: int)
    requires Parse(x, reg, ignore).Ok?
    ensures var o := Parse(x, reg, ignore).value;
      && (o.ownerName.Some? ==> Stripped(o.ownerName.value))
      && o.quality in QualityLevels
      && (o.homepage.Some? ==> Stripped(o.homepage.value))
      && (forall i :: 0 <= i < |o.feeds| ==> Stripped(o.feeds[i]))
      && (o.irc.Some? ==> Stripped(o.irc.value))
  {
    ParsedFields(x, reg, ignore);
    PiecesStripped(x);
  }

  lemma PiecesStripped(x: Element)
    ensures ParseOwner(x).Some? && ParseOwner(x).value.name.Some? ==> Stripped(ParseOwner(x).value.name.value)
    ensures ParseQuality(x) in QualityLevels
    ensures ParseHomepage(x).Some? ==> Stripped(ParseHomepage(x).value)
    ensures forall i :: 0 <= i < |StripTexts(FindAll(x, "feed"))| ==> Stripped(StripTexts(FindAll(x, "feed"))[i])
    ensures ParseIrc(x).Some? ==> Stripped(ParseIrc(x).value)
  {
  }

  /** An accepted element passed every check, and each field is what the
      per-field rule reads. */
  lemma ParsedFields(x: Element, reg: Registry, ignore: int)
    requires Parse(x, reg, ignore).Ok?
    ensures ParseName(x).Some? && SourceElements(x) != []
    ensures ParseSources(SourceElements(x), reg).Ok? && ParsePriority(x).Some?
    ensures Parse(x, reg, ignore).value == Overlay(
      name := ParseName(x).value,
      sources := ParseSources(SourceElements(x), reg).value,
      ownerEmail := if ParseOwner(x).Some? then ParseOwner(x).value.email else "",
      ownerName := if ParseOwner(x).Some? then ParseOwner(x).value.name else None,
      description := if ParseDescription(x).Some? then ParseDescription(x).value else "",
      status := if "status" in x.attrib then Some(x.attrib["status"]) else None,
      quality := ParseQuality(x),
      priority := ParsePriority(x).value,
      homepage := ParseHomepage(x),
      feeds := StripTexts(FindAll(x, "feed")),
      irc := ParseIrc(x))
  {
  }

  /** Each source read is stripped and of a registered type. */
  lemma ParsedSources(x: Element, reg: Registry, ignore: int)
    requires Parse(x, reg, ignore).Ok?
    ensures var ss := Parse(x, reg, ignore).value.sources;
      && ss != []
      && forall i :: 0 <= i < |ss| ==>
           Stripped(ss[i].src) && ss[i].typeKey in reg && reg[ss[i].typeKey] == ss[i].display
  {
    var es := SourceElements(x);
    var ss := ParseSources(es, reg).value;
    assert Parse(x, reg, ignore).value.sources == ss;
    SourcesRead(es, reg);
  }

  lemma SourcesRead(es: seq<Element>, reg: Registry)
    requires AllTyped(es) && es != [] && ParseSources(es, reg).Ok?
    ensures var ss := ParseSources(es, reg).value;
      && ss != []
      && forall i :: 0 <= i < |ss| ==>
           Stripped(ss[i].src) && ss[i].typeKey in reg && reg[ss[i].typeKey] == ss[i].display
  {
    ParseSourcesSpec(es, reg);
  }

  // ------------------------------------------------------- the round trip

  /** Where the constructor finds each tag among the children to_xml
      writes before the sources. */
  lemma {:induction false} HeadFind(o: Overlay, t: string)
    ensures FindIn(HeadXml(o), t) ==
      if t == "name" then Some(Leaf("name", o.name))
      else if t == "description" then Some(Leaf("description", o.description))
      else if t == "homepage" && o.homepage.Some? then Some(Leaf("homepage", o.homepage.value))
      else if t == "irc" && o.irc.Some? then Some(Leaf("irc", o.irc.value))
      else if t == "owner" then Some(OwnerXml(o))
      else None
  {
    var n := Leaf("name", o.name);
    var d := Leaf("description", o.description);
    var hp := if o.homepage.Some? then [Leaf("homepage", o.homepage.value)] else [];
    var ir := if o.irc.Some? then [Leaf("irc", o.irc.value)] else [];
    var ow := [OwnerXml(o)];
    assert HeadXml(o) == [n] + ([d] + (hp + (ir + ow)));
    FindInCons(n, [d] + (hp + (ir + ow)), t);
    FindInCons(d, hp + (ir + ow), t);
    FindInAppend(hp, ir + ow, t);
    FindInAppend(ir, ow, t);
    FindInCons(OwnerXml(o), [], t);
    assert ow == [OwnerXml(o)] + [];
    if o.homepage.Some? {
      FindInCons(hp[0], [], t);
      assert hp == [hp[0]] + [];
    }
    if o.irc.Some? {
      FindInCons(ir[0], [], t);
      assert ir == [ir[0]] + [];
    }
  }

  lemma HeadFinds(o: Overlay)
    ensures FindIn(HeadXml(o), "name") == Some(Leaf("name", o.name))
    ensures FindIn(HeadXml(o), "description") == Some(Leaf("description", o.description))
    ensures FindIn(HeadXml(o), "homepage") == if o.homepage.Some? then Some(Leaf("homepage", o.homepage.value)) else None
    ensures FindIn(HeadXml(o), "link") == None
    ensures FindIn(HeadXml(o), "irc") == if o.irc.Some? then Some(Leaf("irc", o.irc.value)) else None
    ensures FindIn(HeadXml(o), "owner") == Some(OwnerXml(o))
    ensures FindIn(HeadXml(o), "source") == None
    ensures FindIn(HeadXml(o), "feed") == None
  {
    HeadFind(o, "name");
    HeadFind(o, "description");
    HeadFind(o, "homepage");
    HeadFind(o, "link");
    HeadFind(o, "irc");
    HeadFind(o, "owner");
    HeadFind(o, "source");
    HeadFind(o, "feed");
  }

  /** The source children: found by `findall('source')` and by nothing else. */
  lemma {:induction false} SourceXmlFinds(ss: seq<Source>, t: string)
    ensures t != "source" ==> FindIn(SourceXml(ss), t) == None && FindAllIn(SourceXml(ss), t) == []
    ensures t == "source" ==> FindAllIn(SourceXml(ss), t) == SourceXml(ss)
  {
    if ss != [] {
      var c := Element("source", map["type" := ss[0].typeKey], Some(ss[0].src), []);
      assert SourceXml(ss) == [c] + SourceXml(ss[1..]);
      FindInCons(c, SourceXml(ss[1..]), t);
      FindAllInCons(c, SourceXml(ss[1..]), t);
      SourceXmlFinds(ss[1..], t);
    }
  }

  /** The feed children: found by `findall('feed')` and by nothing else. */
  lemma {:induction false} FeedXmlFinds(fs: seq<string>, t: string)
    ensures t != "feed" ==> FindIn(FeedXml(fs), t) == None && FindAllIn(FeedXml(fs), t) == []
    ensures t == "feed" ==> FindAllIn(FeedXml(fs), t) == FeedXml(fs)
  {
    if fs != [] {
      var c := Leaf("feed", fs[0]);
      assert FeedXml(fs) == [c] + FeedXml(fs[1..]);
      FindInCons(c, FeedXml(fs[1..]), t);
      FindAllInCons(c, FeedXml(fs[1..]), t);
      FeedXmlFinds(fs[1..], t);
    }
  }

  /** An element's child list as to_xml builds it: head, sources, feeds. */
  lemma ChildFinds(o: Overlay, t: string)
    requires t != "source" && t != "feed"
    ensures Find(ToXml(o), t) == FindIn(HeadXml(o), t)
  {
    var s := SourceXml(o.sources);
    var f := FeedXml(o.feeds);
    assert HeadXml(o) + s + f == HeadXml(o) + (s + f);
    FindInAppend(HeadXml(o), s + f, t);
    FindInAppend(s, f, t);
    SourceXmlFinds(o.sources, t);
    FeedXmlFinds(o.feeds, t);
  }

  lemma ChildFindAlls(o: Overlay)
    ensures FindAll(ToXml(o), "source") == SourceXml(o.sources)
    ensures FindAll(ToXml(o), "feed") == FeedXml(o.feeds)
  {
    var h := HeadXml(o);
    var s := SourceXml(o.sources);
    var f := FeedXml(o.feeds);
    HeadFinds(o);
    FindAllInSpec(h, "source");
    FindAllInSpec(h, "feed");
    assert ToXml(o).children == h + s + f;
    FindAllInAppend(h + s, f, "source");
    FindAllInAppend(h, s, "source");
    FindAllInAppend(h + s, f, "feed");
    FindAllInAppend(h, s, "feed");
    SourceXmlFinds(o.sources, "source");
    SourceXmlFinds(o.sources, "feed");
    FeedXmlFinds(o.feeds, "source");
    FeedXmlFinds(o.feeds, "feed");
  }

  lemma {:induction false} TypedOnlyAll(es: seq<Element>)
    requires AllTyped(es)
    ensures TypedOnly(es) == es
  {
    if es != [] {
      assert AllTyped(es[1..]);
      TypedOnlyAll(es[1..]);
      assert [es[0]] + es[1..] == es;
    }
  }

  lemma SourcesBack(o: Overlay, reg: Registry)
    requires WellFormed(o, reg)
    ensures SourceElements(ToXml(o)) == SourceXml(o.sources)
    ensures ParseSources(SourceXml(o.sources), reg) == Ok(o.sources)
  {
    ChildFindAlls(o);
    var s := SourceXml(o.sources);
    assert AllTyped(s);
    TypedOnlyAll(s);
    assert |s| > 0;
    ParseSourcesSpec(s, reg);
    var r := ParseSources(s, reg);
    assert r.Ok?;
    forall i | 0 <= i < |s|
      ensures r.value[i] == o.sources[i]
    {
      StripStripped(o.sources[i].src);
    }
    assert r.value == o.sources;
    assert FindAll(ToXml(o), "source") == s;
  }

  lemma FeedsBack(o: Overlay, reg: Registry)
    requires WellFormed(o, reg)
    ensures StripTexts(FindAll(ToXml(o), "feed")) == o.feeds
  {
    ChildFindAlls(o);
    forall i | 0 <= i < |o.feeds|
      ensures StripTexts(FeedXml(o.feeds))[i] == o.feeds[i]
    {
      StripStripped(o.feeds[i]);
    }
  }

  lemma OwnerBack(o: Overlay, reg: Registry)
    requires WellFormed(o, reg)
    ensures ParseOwner(ToXml(o)) == Some(Owner(o.ownerEmail, o.ownerName))
  {
    HeadFind(o, "owner");
    ChildFinds(o, "owner");
    OwnerFinds(o);
    StripStripped(o.ownerEmail);
    if o.ownerName.Some? {
      StripStripped(o.ownerName.value);
    }
  }

  /** The e-mail and name children of the `<owner>` element to_xml writes. */
  lemma OwnerFinds(o: Overlay)
    ensures Find(OwnerXml(o), "email") == Some(Leaf("email", o.ownerEmail))
    ensures Find(OwnerXml(o), "name") == if o.ownerName.Some? then Some(Leaf("name", o.ownerName.value)) else None
  {
    var e := Leaf("email", o.ownerEmail);
    var rest := if o.ownerName.Some? then [Leaf("name", o.ownerName.value)] else [];
    assert OwnerXml(o).children == [e] + rest;
    FindInCons(e, rest, "email");
    FindInCons(e, rest, "name");
    if o.ownerName.Some? {
      FindInCons(rest[0], [], "name");
      assert rest == [rest[0]] + [];
    }
  }

  lemma AttribBack(o: Overlay)
    requires o.quality in QualityLevels
    ensures ParseQuality(ToXml(o)) == o.quality
    ensures ParsePriority(ToXml(o)) == Some(o.priority)
    ensures "status" in ToXml(o).attrib <==> o.status.Some?
    ensures o.status.Some? ==> ToXml(o).attrib["status"] == o.status.value
  {
    var x := ToXml(o);
    RepoAttribFacts(o);
    assert x.attrib == RepoAttrib(o);
    PriorityBack(x, o.priority);
  }

  /** The attributes to_xml writes. */
  lemma RepoAttribFacts(o: Overlay)
    ensures var a := RepoAttrib(o);
      && "quality" in a && a["quality"] == o.quality
      && "priority" in a && a["priority"] == IntToString(o.priority)
      && ("status" in a <==> o.status.Some?)
      && (o.status.Some? ==> a["status"] == o.status.value)
  {
  }

  lemma PriorityBack(x: Element, p: int)
    requires "priority" in x.attrib && x.attrib["priority"] == IntToString(p)
    ensures ParsePriority(x) == Some(p)
  {
    ParseIntToString(p);
  }

  /** The text children to_xml writes before the sources read back as the
      fields they came from. */
  lemma HeadBack(o: Overlay, reg: Registry)
    requires WellFormed(o, reg)
    ensures ParseName(ToXml(o)) == Some(o.name)
    ensures ParseDescription(ToXml(o)) == Some(o.description)
    ensures ParseHomepage(ToXml(o)) == o.homepage
    ensures ParseIrc(ToXml(o)) == o.irc
  {
    NameBack(o);
    DescriptionBack(o);
    HomepageBack(o);
    IrcBack(o);
  }

  lemma NameBack(o: Overlay)
    requires Stripped(o.name)
    ensures ParseName(ToXml(o)) == Some(o.name)
  {
    HeadFind(o, "name");
    ChildFinds(o, "name");
    StripStripped(o.name);
  }

  lemma DescriptionBack(o: Overlay)
    requires Collapsed(o.description)
    ensures ParseDescription(ToXml(o)) == Some(o.description)
  {
    HeadFind(o, "description");
    ChildFinds(o, "description");
    CollapsedIsFixed(o.description);
  }

  lemma HomepageBack(o: Overlay)
    requires o.homepage.Some? ==> Stripped(o.homepage.value)
    ensures ParseHomepage(ToXml(o)) == o.homepage
  {
    HeadFind(o, "homepage");
    HeadFind(o, "link");
    ChildFinds(o, "homepage");
    ChildFinds(o, "link");
    if o.homepage.Some? {
      StripStripped(o.homepage.value);
    }
  }

  lemma IrcBack(o: Overlay)
    requires o.irc.Some? ==> Stripped(o.irc.value)
    ensures ParseIrc(ToXml(o)) == o.irc
  {
    HeadFind(o, "irc");
    ChildFinds(o, "irc");
    if o.irc.Some? {
      StripStripped(o.irc.value);
    }
  }

  /** Reading back what to_xml wrote gives the same overlay, field for field,
      whenever the overlay is well formed and its types are registered. */
  lemma RoundTrip(o: Overlay, reg: Registry, ignore: int)
    requires WellFormed(o, reg)
    ensures Parse(ToXml(o), reg, ignore) == Ok(o)
  {
    HeadBack(o, reg);
    SourcesBack(o, reg);
    OwnerBack(o, reg);
    AttribBack(o);
    FeedsBack(o, reg);
    ParseFrom(ToXml(o), reg, ignore, o);
  }

  /** `Parse` succeeds with exactly the fields its parts read. */
  lemma ParseFrom(x: Element, reg: Registry, ignore: int, o: Overlay)
    requires ParseName(x) == Some(o.name)
    requires SourceElements(x) != [] && ParseSources(SourceElements(x), reg) == Ok(o.sources)
    requires ParseOwner(x) == Some(Owner(o.ownerEmail, o.ownerName))
    requires ParseDescription(x) == Some(o.description)
    requires ParsePriority(x) == Some(o.priority)
    requires ("status" in x.attrib <==> o.status.Some?) && (o.status.Some? ==> x.attrib["status"] == o.status.value)
    requires ParseQuality(x) == o.quality && ParseHomepage(x) == o.homepage
    requires StripTexts(FindAll(x, "feed")) == o.feeds && ParseIrc(x) == o.irc
    ensures Parse(x, reg, ignore) == Ok(o)
  {
  }

  /** The read / write / re-read check: an overlay read from any element
      (whose name and contact attributes, if used, carry no surrounding
      whitespace) is read back from its own to_xml as an equal overlay. */
  lemma ReadWriteReread(x: Element, reg: Registry, ignore: int)
    requires Parse(x, reg, ignore).Ok?
    requires Stripped(Parse(x, reg, ignore).value.name)
    requires Stripped(Parse(x, reg, ignore).value.ownerEmail)
    ensures Parse(ToXml(Parse(x, reg, ignore).value), reg, ignore).Ok?
    ensures Eq(Parse(x, reg, ignore).value, Parse(ToXml(Parse(x, reg, ignore).value), reg, ignore).value)
  {
    ParsedIsWellFormed(x, reg, ignore);
    RoundTrip(Parse(x, reg, ignore).value, reg, ignore);
    EqReflexive(Parse(x, reg, ignore).value);
  }

  /** The name attribute is taken as it is, but to_xml writes the name as a
      child, which is stripped when read: an overlay named by an attribute
      with surrounding blanks is not read back equal to itself. */
  lemma UnstrippedNameNotReread(o: Overlay, reg: Registry, ignore: int)
    requires !Stripped(o.name)
    ensures Parse(ToXml(o), reg, ignore).Ok? ==> Ne(o, Parse(ToXml(o), reg, ignore).value)
  {
    HeadFind(o, "name");
    ChildFinds(o, "name");
    assert ParseName(ToXml(o)) == Some(Strip(o.name));
    NameRule(ToXml(o), reg, ignore);
  }

  /** Such a name does occur: the attribute is not stripped. */
  lemma UnstrippedNameAttribute()
    ensures ParseName(Element("repo", map["name" := " n"], None, [])) == Some(" n")
    ensures !Stripped(" n")
  {
  }

  // ------------------------------------------------------- equality

  lemma EqReflexive(a: Overlay)
    ensures Eq(a, a)
  {
  }

  lemma EqSymmetric(a: Overlay, b: Overlay)
    ensures Eq(a, b) <==> Eq(b, a)
  {
  }

  lemma EqTransitive(a: Overlay, b: Overlay, c: Overlay)
    requires Eq(a, b) && Eq(b, c)
    ensures Eq(a, c)
  {
  }

  function SourceSet(ss: seq<Source>): set<Source> {
    set s | s in ss
  }

  /** Sources compare as sets: order and repetitions do not matter. */
  lemma EqSourcesAsSets(a: Overlay, b: Overlay)
    ensures Eq(a, b) <==>
      && a.description == b.description && a.homepage == b.homepage && a.name == b.name
      && a.ownerEmail == b.ownerEmail && a.ownerName == b.ownerName
      && a.priority == b.priority && a.status == b.status
      && SourceSet(a.sources) == SourceSet(b.sources)
  {
    var sa, sb := SourceSet(a.sources), SourceSet(b.sources);
    if sa == sb {
      forall s | s in a.sources + b.sources
        ensures s in a.sources && s in b.sources
      {
        assert s in sa <==> s in a.sources;
        assert s in sb <==> s in b.sources;
      }
    }
    if forall s :: s in a.sources + b.sources ==> s in a.sources && s in b.sources {
      forall s
        ensures s in sa <==> s in sb
      {
        if s in sa {
          assert s in a.sources + b.sources;
        }
        if s in sb {
          assert s in a.sources + b.sources;
        }
      }
    }
  }

  /** quality, irc and feeds play no part in equality. */
  lemma EqIgnores(a: Overlay, quality: string, irc: Option<string>, feeds: seq<string>)
    ensures Eq(a, a.(quality := quality, irc := irc, feeds := feeds))
  {
  }

  /** Any other compared field tells overlays apart. */
  lemma EqNeedsFields(a: Overlay, b: Overlay)
    requires a.name != b.name || a.description != b.description || a.priority != b.priority
    ensures Ne(a, b)
  {
  }

  // ------------------------------------------------------- queries

  /** The type label is the first label exactly when all labels agree. */
  lemma TypeLabelRule(o: Overlay)
    requires o.sources != []
    ensures TypeLabel(o) == o.sources[0].display <==>
      forall i :: 0 <= i < |o.sources| ==> o.sources[i].display == o.sources[0].display
  {
    var l := Labels(o.sources);
    var first := o.sources[0].display;
    assert first in l;
    if forall i :: 0 <= i < |o.sources| ==> o.sources[i].display == first {
      assert l == {first};
    } else {
      var i :| 0 <= i < |o.sources| && o.sources[i].display != first;
      assert o.sources[i].display in l;
      assert {first, o.sources[i].display} <= l;
      assert |{first, o.sources[i].display}| == 2;
      SubsetCard({first, o.sources[i].display}, l);
      assert |first + "/.."| != |first|;
    }
  }

  lemma {:induction false} SubsetCard<T>(a: set<T>, b: set<T>)
    requires a <= b
    ensures |a| <= |b|
    decreases a
  {
    if a != {} {
      var e :| e in a;
      SubsetCard(a - {e}, b - {e});
    }
  }

  /** Both listings follow the source order. */
  lemma UrisAndTypes(o: Overlay, reg: Registry)
    requires WellFormed(o, reg)
    ensures |SourceUris(o)| == |SourceTypes(o)| == |o.sources| > 0
    ensures forall i :: 0 <= i < |o.sources| ==> reg[o.sources[i].typeKey] == SourceTypes(o)[i]
  {
  }
}
