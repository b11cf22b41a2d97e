// Model of the URL and type helpers of layman's overlay wizard
// (layman/maker.py, class Interactive): the type check and guess, the
// splitting of source URLs, the mirror-specific extra sources, homepages and
// feeds, the sorting of finished overlays into the output tree and the
// normalisation of the output file name.
module Maker {
  import opened Wrappers
  import opened Strings
  import XmlTree
  import Overlays

  /** A source as the wizard holds it, the Python list `[url, type, branch]`;
      an unset branch is "". */
  datatype Source = Source(url: string, kind: string, branch: string)

  /** Why a helper raises. */
  datatype MakerError =
    | UnableToSplit   // the exception `_split_source_url` raises itself
    | IndexError      // a list subscript past the end
    | ValueError      // `list.remove` of a value the list does not hold

  /** The two entries of the overlay dictionary these helpers write. */
  datatype Info = Info(homepage: Option<string>, feeds: Option<seq<string>>)

  /** What `_set_github_info` and `_set_gentoo_info` produce: two extra
      sources, the homepage and the feeds. */
  datatype Extra = Extra(second: Source, third: Source, homepage: string, feeds: seq<string>)

  // ------------------------------------------------------ Python list methods

  /** `list.index(v)`: the position of the first occurrence. */
  function IndexOf<T(==)>(xs: seq<T>, v: T): (i: nat)
    requires v in xs
    ensures i < |xs| && xs[i] == v && v !in xs[..i]
  {
    if xs[0] == v then 0
    else
      var j := IndexOf(xs[1..], v);
      assert xs[..j + 1] == [xs[0]] + xs[1..][..j];
      j + 1
  }

  /** `list.remove(v)`: drops the first occurrence of a value the list holds. */
  function Remove<T(==)>(xs: seq<T>, v: T): (r: seq<T>)
    requires v in xs
    ensures |r| == |xs| - 1

  {
    var i := IndexOf(xs, v);
    assert xs == xs[..i] + [v] + xs[i + 1..];
    xs[..i] + xs[i + 1..]
  }

  /** `list.insert(i, v)`: a position past the end appends. */
  function Insert<T>(xs: seq<T>, i: nat, v: T): (r: seq<T>)
    ensures |r| == |xs| + 1
    ensures r[if i < |xs| then i else |xs|] == v
  {
    var j := if i < |xs| then i else |xs|;
    xs[..j] + [v] + xs[j..]
  }

  /** A position holding the first copy of its value is what `index` finds. */
  lemma IndexOfAt<T>(xs: seq<T>, k: nat)
    requires k < |xs| && xs[k] !in xs[..k]
    ensures IndexOf(xs, xs[k]) == k
  {
    var i := IndexOf(xs, xs[k]);
    assert forall j :: 0 <= j < k ==> xs[..k][j] == xs[j];
    assert forall j :: 0 <= j < i ==> xs[..i][j] == xs[j];
  }

  /** The value at position `k`, with no earlier copy, is the one `remove` drops. */
  lemma RemoveAt<T>(xs: seq<T>, k: nat)
    requires k < |xs| && xs[k] !in xs[..k]
    ensures Remove(xs, xs[k]) == xs[..k] + xs[k + 1..]
  {
    IndexOfAt(xs, k);
  }

  /** `remove` takes away exactly one copy of the value. */
  lemma RemovePerm<T>(xs: seq<T>, v: T)
    requires v in xs
    ensures multiset(Remove(xs, v)) == multiset(xs) - multiset{v}
  {
    var i := IndexOf(xs, v);
    assert xs == xs[..i] + [v] + xs[i + 1..];
  }

  /** Inserting at the length appends. */
  lemma InsertAtEnd<T>(xs: seq<T>, v: T)
    ensures Insert(xs, |xs|, v) == xs + [v]
  {
  }

  /** `remove(xs[0])` followed by `insert(0, v)` replaces the head. */
  lemma ReplaceHead<T>(xs: seq<T>, v: T)
    requires |xs| >= 1
    ensures Insert(Remove(xs, xs[0]), 0, v) == [v] + xs[1..]
  {
    RemoveAt(xs, 0);
    assert Insert(xs[1..], 0, v) == [v] + xs[1..];
  }

  /** A joined list of components starts with its first component. */
  lemma {:induction false} JoinStartsWith(parts: seq<string>, sep: char)
    requires |parts| >= 1
    ensures StartsWith(Join(parts, sep), parts[0])
  {
  }

  // ------------------------------------------------------- splitting a URL

  /** `_split_source_url`: whether the URL is an ssh one, and its parts
      split on '/'. The first test is the regular expression
      `^(git://)|(http://)|(https://)`, whose alternation anchors only the
      first branch. */
  function SplitSourceUrl(u: string): (r: Result<(bool, seq<string>), MakerError>)
    ensures r.Ok? ==> |r.value.1| >= 1
    ensures r.Ok? ==> forall i :: 0 <= i < |r.value.1| ==> '/' !in r.value.1[i]
  {
    if StartsWith(u, "git://") || Contains(u, "http://") || Contains(u, "https://") then
      Ok((false, Split(u, '/')))
    else if StartsWith(u, "git+ssh://") then
      Ok((true, Split(ReplaceAll(ReplaceAll(u, "+ssh", ""), "git@", ""), '/')))
    else if StartsWith(u, "git@") then
      Ok((true, Split(ReplaceAll(ReplaceAll(ReplaceAll(u, "@", "//"), ":", "/"), "//", "://"), '/')))
    else if StartsWith(u, "ssh://") then
      Ok((true, Split(u, '/')))
    else
      Err(UnableToSplit)
  }

  // ------------------------------------------------------------ type guess

  /** The supported types with 'tar' moved to the end as '.tar'. */
  function Adjusted(types: seq<string>): (r: seq<string>)
    ensures |r| == |types|
  {
    if "tar" in types then Remove(types, "tar") + [".tar"] else types
  }

  /** The pattern list `guess_overlay_type` builds from the supported types,
      as written: after the 'tar' adjustment, the entry of the ORIGINAL list
      at the position 'bzr' has in the adjusted list is removed and 'bazaar'
      appended. */
  function TypeChecks(types: seq<string>): (r: Result<seq<string>, MakerError>)
  {
    var adjusted := Adjusted(types);
    if "bzr" !in adjusted then Ok(adjusted)
    else
      var v := types[IndexOf(adjusted, "bzr")];
      if v !in adjusted then Err(ValueError) else Ok(Remove(adjusted, v) + ["bazaar"])
  }

  /** The pattern list with 'bzr' itself replaced by 'bazaar'. */
  function CorrectedTypeChecks(types: seq<string>): (r: seq<string>)
  {
    var adjusted := Adjusted(types);
    if "bzr" in adjusted then Remove(adjusted, "bzr") + ["bazaar"] else adjusted
  }

  /** The first pattern the URI contains. */
  function FirstContained(checks: seq<string>, uri: string): (r: Option<string>)
  {
    if checks == [] then None
    else if Contains(uri, checks[0]) then Some(checks[0])
    else FirstContained(checks[1..], uri)
  }

  /** `guess_overlay_type`: the first pattern contained in the URI, else
      'mercurial' for a bitbucket URI, else nothing. */
  function Guess(checks: Result<seq<string>, MakerError>, uri: string): (r: Result<Option<string>, MakerError>)
  {
    match checks
    case Err(e) => Err(e)
    case Ok(cs) =>
      var first := FirstContained(cs, uri);
      if first.Some? then Ok(first)
      else if Contains(uri, "bitbucket.org") then Ok(Some("mercurial"))
      else Ok(None)
  }

  // ------------------------------------------------------ mirror extras

  /** The list after the non-ssh rewrite of its head to 'git:'. */
  function GitHeaded(ssh: bool, url: seq<string>): (r: seq<string>)
    requires |url| >= 1
    ensures |r| == |url| && r[1..] == url[1..]
    ensures !ssh ==> r[0] == "git:"
  {
    if !ssh && url[0] != "git:" then ["git:"] + url[1..] else url
  }

  /** `next_header`, read from the list after the head rewrite. */
  function NextHeader(ssh: bool, url1: seq<string>): string
    requires |url1| >= 1
  {
    if ssh || url1[0] == "git:" then "https:" else "git:"
  }

  /** The second github source URL, in scp form for a non-ssh URL. */
  function GithubSecond(ssh: bool, url1: seq<string>): string {
    if ssh then Join(url1, '/')
    else ReplaceAll(ReplaceAll(Join(url1, '/'), "://", "@"), ".com/", ".com:")
  }

  /** The github tails for the homepage and the atom feed of project `p`. */
  function GithubTails(p: string, branch: string): (string, string) {
    if branch != "" then (p + "/tree/" + branch, p + "/commits/" + branch + ".atom")
    else (p, p + "/commits/" + "master.atom")
  }

  /** The component list of the github homepage and feed: the fifth
      component of the info list is replaced by the home tail and then,
      through the same list, by the atom tail. */
  function GithubLink(info: seq<string>, branch: string): (r: Result<seq<string>, MakerError>)
  {
    if |info| < 5 then Err(IndexError)
    else
      var tails := GithubTails(ReplaceAll(info[4], ".git", ""), branch);
      var home := Insert(Remove(info, info[4]), 4, tails.0);
      Ok(Insert(Remove(home, home[4]), 4, tails.1))
  }

  /** `_set_github_info`, on the one list that `url`, `source2_url`,
      `source3_url`, `info_url`, `home_url` and `atom_url` all name. */
  function GithubInfo(src: Source): (r: Result<Extra, MakerError>)
  {
    match SplitSourceUrl(src.url)
    case Err(e) => Err(e)
    case Ok((ssh, url)) =>
      var url1 := GitHeaded(ssh, url);
      var url2 := [NextHeader(ssh, url1)] + url1[1..];
      match GithubLink(["https:"] + url2[1..], src.branch)
      case Err(e) => Err(e)
      case Ok(link) =>
        Ok(Extra(Source(GithubSecond(ssh, url1), src.kind, src.branch), Source(Join(url2, '/'), src.kind, src.branch),
                 Join(link, '/'), [Join(link, '/')]))
  }

  /** The gitweb tails `_set_gentoo_info` appends for the homepage, the atom
      feed and the rss feed. */
  function GentooTails(tail: string, branch: string): (string, string, string)
  {
    if branch != "" then
      (tail + ";a=shortlog;h=refs/heads/" + branch, tail + ";a=atom;h=refs/heads/" + branch,
       tail + ";a=rss;h=refs/heads/" + branch)
    else (tail + ";a=summary", tail + ";a=atom", tail + ";a=rss")
  }

  /** The second gentoo source URL, in git+ssh form for a non-ssh URL. */
  function GentooSecond(ssh: bool, url1: seq<string>): string {
    if ssh then Join(url1, '/')
    else ReplaceAll(ReplaceAll(Join(url1, '/'), "git://", "git+ssh://"), "git.overlays", "git@git.overlays")
  }

  /** The third gentoo source list: 'gitroot' goes in at position 3 when the
      header is (a substring of) 'https:'. */
  function GentooThird(url2: seq<string>): (r: seq<string>)
    requires |url2| >= 1
    ensures |r| >= 1
  {
    if Contains("https:", url2[0]) then Insert(url2, 3, "gitroot") else url2
  }

  /** The component list of the gentoo homepage and feeds: 'gitroot' gives
      way to 'gitweb', the project becomes '?p=<project>', and the sixth
      component is replaced by the home, atom and rss tails in turn, through
      the same list. */
  function GentooLink(info0: seq<string>, branch: string): (r: Result<seq<string>, MakerError>)
  {
    var info1 := if "gitroot" in info0 then Remove(info0, "gitroot") else info0;
    var info2 := Insert(info1, 3, "gitweb");
    if |info2| < 5 then Err(IndexError)
    else
      var info3 := Insert(Remove(info2, info2[4]), 4, "?p=" + info2[4]);
      if |info3| < 6 then Err(IndexError)
      else
        var tails := GentooTails(info3[5], branch);
        var l1 := Insert(Remove(info3, info3[5]), 5, tails.0);
        var l2 := Insert(Remove(l1, l1[5]), 5, tails.1);
        Ok(Insert(Remove(l2, l2[5]), 5, tails.2))
  }

  /** `_set_gentoo_info`, on the one list that `url`, `source2_url`,
      `source3_url`, `info_url`, `home_url`, `atom_url` and `rss_url` all name. */
  function GentooInfo(src: Source): (r: Result<Extra, MakerError>)
  {
    match SplitSourceUrl(src.url)
    case Err(e) => Err(e)
    case Ok((ssh, url)) =>
      var url1 := GitHeaded(ssh, url);
      var url3 := GentooThird([NextHeader(ssh, url1)] + url1[1..]);
      match GentooLink(["https:"] + url3[1..], src.branch)
      case Err(e) => Err(e)
      case Ok(link) =>
        var page := Join(link, '/');
        Ok(Extra(Source(GentooSecond(ssh, url1), src.kind, src.branch), Source(Join(url3, '/'), src.kind, src.branch),
                 page, [page, page]))
  }

  /** `_set_bitbucket_info`: the second source (none for a git mirror) and the
      overlay entries after the call. */
  function BitbucketInfo(src: Source, git: bool, info: Info): (Result<Option<Source>, MakerError>, Info)
  {
    if git then (Ok(None), Info(Some(ReplaceAll(src.url, ".git", "")), info.feeds))
    else
      match SplitSourceUrl(src.url)
      case Err(e) => (Err(e), info)
      case Ok((ssh, url)) =>
        var joined := Join(url, '/');
        var home := if ssh then ReplaceAll(ReplaceAll(joined, "ssh:", "https:"), "hg@bitbucket.org", "bitbucket.org")
          else joined;
        var second := if ssh then home
          else ReplaceAll(ReplaceAll(joined, "https:", "ssh:"), "bitbucket.org", "hg@bitbucket.org");
        (Ok(Some(Source(second, src.kind, src.branch))), Info(Some(home), Some([home + "/atom", home + "/rss"])))
  }

  /** What `_set_overlay_info` carries from one mirror test to the next:
      the sources so far and its loop variable `source`. */
  datatype Gathered = Gathered(sources: seq<Option<Source>>, current: Source)

  /** Each source as a present list entry. */
  function Wrapped(xs: seq<Source>): (r: seq<Option<Source>>)
    ensures |r| == |xs|
  {
    if xs == [] then [] else Wrapped(xs[..|xs| - 1]) + [Some(xs[|xs| - 1])]
  }

  /** A github or gentoo block of `_set_overlay_info` that applies: the
      helper's two sources are appended and `source` is left bound to the
      last of them. */
  function MirrorStep(g: Gathered, info: Info, extra: Result<Extra, MakerError>)
    : (Result<Gathered, MakerError>, Info)
  {
    match extra
    case Err(e) => (Err(e), info)
    case Ok(x) => (Ok(Gathered(g.sources + Wrapped([x.second, x.third]), x.third)),
                   Info(Some(x.homepage), Some(x.feeds)))
  }

  /** The bitbucket block of `_set_overlay_info`: the helper's result is
      appended only when the type names git. */
  function BitbucketStep(g: Gathered, info: Info): (Result<seq<Option<Source>>, MakerError>, Info)
  {
    if !Contains(g.current.url, "bitbucket.org") then (Ok(g.sources), info)
    else
      var git := Contains(g.current.kind, "git");
      var (b, info1) := BitbucketInfo(g.current, git, info);
      match b
      case Err(e) => (Err(e), info1)
      case Ok(second) => (Ok(if git then g.sources + [second] else g.sources), info1)
  }

  function GithubStep(g: Gathered, info: Info): (Result<Gathered, MakerError>, Info) {
    if Contains(g.current.url, "github.com") then MirrorStep(g, info, GithubInfo(g.current))
    else (Ok(g), info)
  }

  function GentooStep(g: Gathered, info: Info): (Result<Gathered, MakerError>, Info) {
    if Contains(g.current.url, "git.overlays.gentoo.org") then MirrorStep(g, info, GentooInfo(g.current))
    else (Ok(g), info)
  }

  /** `_set_overlay_info`: the sources list and the overlay entries after the
      call. The gentoo and bitbucket tests read the rebound `source`. */
  function OverlayInfo(src: Source, info: Info): (Result<seq<Option<Source>>, MakerError>, Info)
  {
    var (r1, info1) := GithubStep(Gathered([Some(src)], src), info);
    if r1.Err? then (Err(r1.error), info1)
    else
      var (r2, info2) := GentooStep(r1.value, info1);
      if r2.Err? then (Err(r2.error), info2)
      else BitbucketStep(r2.value, info2)
  }

  // ------------------------------------------------------- sorting and writing

  type Named = (string, Overlays.Overlay)

  predicate NameSorted(xs: seq<Named>) {
    forall i, j :: 0 <= i < j < |xs| ==> LexLessEq(xs[i].0, xs[j].0)
  }

  /** Inserts `x` before the first entry whose name it does not exceed. */
  function InsertByName(x: Named, xs: seq<Named>): (r: seq<Named>)
    ensures |r| == |xs| + 1
  {
    if xs == [] || LexLessEq(x.0, xs[0].0) then [x] + xs
    else [xs[0]] + InsertByName(x, xs[1..])
  }

  /** `sorted(self.overlays)`, ordered by overlay name (insertion sort). */
  function SortByName(xs: seq<Named>): (r: seq<Named>)
    ensures |r| == |xs|
  {
    if xs == [] then [] else InsertByName(xs[0], SortByName(xs[1..]))
  }

  /** Inserting adds exactly `x`. */
  lemma {:induction false} InsertByNamePerm(x: Named, xs: seq<Named>)
    ensures multiset(InsertByName(x, xs)) == multiset(xs) + multiset{x}
  {
    if xs != [] && !LexLessEq(x.0, xs[0].0) {
      InsertByNamePerm(x, xs[1..]);
      assert xs == [xs[0]] + xs[1..];
    }
  }

  /** Inserting into a name-sorted list keeps it sorted. */
  lemma {:induction false} InsertByNameSorted(x: Named, xs: seq<Named>)
    requires NameSorted(xs)
    ensures NameSorted(InsertByName(x, xs))
  {
    if xs == [] {
    } else if LexLessEq(x.0, xs[0].0) {
      forall j | 0 < j < |xs| ensures LexLessEq(x.0, xs[j].0) {
        LexTransitive(x.0, xs[0].0, xs[j].0);
      }
    } else {
      LexTotal(x.0, xs[0].0);
      var rest := InsertByName(x, xs[1..]);
      InsertByNameSorted(x, xs[1..]);
      InsertByNamePerm(x, xs[1..]);
      forall k | 0 <= k < |rest| ensures LexLessEq(xs[0].0, rest[k].0) {
        assert rest[k] in multiset(rest);
        assert rest[k] == x || rest[k] in multiset(xs[1..]);
      }
    }
  }

  /** The sort orders by name and is a permutation. */
  lemma {:induction false} SortByNameSpec(xs: seq<Named>)
    ensures NameSorted(SortByName(xs))
    ensures multiset(SortByName(xs)) == multiset(xs)
  {
    if xs != [] {
      SortByNameSpec(xs[1..]);
      InsertByNameSorted(xs[0], SortByName(xs[1..]));
      InsertByNamePerm(xs[0], SortByName(xs[1..]));
      assert xs == [xs[0]] + xs[1..];
    }
  }

  /** The XML of each overlay, in order. */
  function XmlOf(xs: seq<Named>): (r: seq<XmlTree.Element>)
    ensures |r| == |xs|
  {
    if xs == [] then [] else XmlOf(xs[..|xs| - 1]) + [Overlays.ToXml(xs[|xs| - 1].1)]
  }

  /** The destination `write` builds from a file name and the overlay
      definitions directory: '.xml' and '/' are added only where missing. */
  function Destination(filename: string, filepath: string): (r: string)
    ensures EndsWith(r, ".xml")
  {
    var name := if EndsWith(filename, ".xml") then filename else filename + ".xml";
    var dir := if EndsWith(filepath, "/") then filepath else filepath + "/";
    dir + name
  }

  /** The loop of `_sort_to_tree`: the XML of each overlay is appended to
      the tree in order. */
  method AppendXml(tree: seq<XmlTree.Element>, xs: seq<Named>) returns (appended: seq<XmlTree.Element>)
    ensures appended == tree + XmlOf(xs)
  {
    appended := tree;
    for i := 0 to |xs|
      invariant appended == tree + XmlOf(xs[..i])
    {
      appended := appended + [Overlays.ToXml(xs[i].1)];
      assert xs[..i + 1][..i] == xs[..i];
    }
    assert xs[..|xs|] == xs;
  }

  /** The idiom `xs.remove(xs[0]); xs.insert(0, v)` the mirror helpers use
      to replace the scheme component. */
  method SwapHead(xs: seq<string>, v: string) returns (r: seq<string>)
    requires |xs| >= 1
    ensures r == [v] + xs[1..]
  {
    r := Remove(xs, xs[0]);
    r := Insert(r, 0, v);
    ReplaceHead(xs, v);
  }

  /** The loops `for source in additional: sources.append(source)` of
      `_set_overlay_info`: the extended list and the value the loop leaves
      in `source`. */
  method AppendAll(sources: seq<Option<Source>>, additional: seq<Source>, source: Source)
    returns (extended: seq<Option<Source>>, last: Source)
    ensures extended == sources + Wrapped(additional)
    ensures last == if additional == [] then source else additional[|additional| - 1]
  {
    extended := sources;
    last := source;
    for i := 0 to |additional|
      invariant extended == sources + Wrapped(additional[..i])
      invariant last == if i == 0 then source else additional[i - 1]
    {
      assert additional[..i + 1][..i] == additional[..i];
      extended := extended + [Some(additional[i])];
      last := additional[i];
    }
    assert additional[..|additional|] == additional;
  }

  // ------------------------------------------------------------- the wizard

  class Interactive {
    /** The type keys of the overlay type registry (a Python 2 list). */
    const supportedTypes: seq<string>
    var homepage: Option<string>
    var feeds: Option<seq<string>>
    /** Finished overlays, as (name, overlay) pairs. */
    var overlays: seq<Named>
    /** The children of the `<repositories>` element being written. */
    var tree: seq<XmlTree.Element>

    constructor (types: seq<string>)
      ensures supportedTypes == types
      ensures homepage == None && feeds == None && overlays == [] && tree == []
    {
      supportedTypes := types;
      homepage := None;
      feeds := None;
      overlays := [];
      tree := [];
    }

    /** `check_overlay_type`: the lower-cased type when it is supported. */
    function CheckOverlayType(t: string): (r: Option<string>)
      ensures r.Some? <==> Lower(t) in supportedTypes
      ensures r.Some? ==> r.value in supportedTypes && r.value == Lower(t)
    {
      if Lower(t) in supportedTypes then Some(Lower(t)) else None
    }

    /** `guess_overlay_type`: adjusts a copy of the supported types, then
        returns the first pattern the URI contains. The removal at line 117
        is taken as intended, removing 'bzr' itself (see `TypeChecks` for
        the code as written). */
    method GuessOverlayType(uri: string) returns (r: Option<string>)
      ensures Ok(r) == Guess(Ok(CorrectedTypeChecks(supportedTypes)), uri)
    {
      var typeChecks := supportedTypes;
      if "tar" in typeChecks {
        typeChecks := Remove(typeChecks, typeChecks[IndexOf(typeChecks, "tar")]);
        InsertAtEnd(typeChecks, ".tar");
        typeChecks := Insert(typeChecks, |typeChecks|, ".tar");
      }
      if "bzr" in typeChecks {
        typeChecks := Remove(typeChecks, "bzr");
        InsertAtEnd(typeChecks, "bazaar");
        typeChecks := Insert(typeChecks, |typeChecks|, "bazaar");
      }
      assert typeChecks == CorrectedTypeChecks(supportedTypes);
      var i := 0;
      while i < |typeChecks|
        invariant 0 <= i <= |typeChecks|
        invariant FirstContained(typeChecks, uri) == FirstContained(typeChecks[i..], uri)
      {
        if Contains(uri, typeChecks[i]) {
          return Some(typeChecks[i]);
        }
        assert typeChecks[i..][1..] == typeChecks[i + 1..];
        i := i + 1;
      }
      if Contains(uri, "bitbucket.org") {
        return Some("mercurial");
      }
      return None;
    }

    /** `_set_github_info`; `url` stands for the single list all its
        `*_url` names alias. */
    method SetGithubInfo(src: Source) returns (r: Result<(Source, Source), MakerError>)
      modifies this`homepage, this`feeds
      ensures match GithubInfo(src)
        case Err(e) => r == Err(e) && homepage == old(homepage) && feeds == old(feeds)
        case Ok(x) => r == Ok((x.second, x.third)) && homepage == Some(x.homepage) && feeds == Some(x.feeds)
    {
      var split := SplitSourceUrl(src.url);
      if split.Err? {
        return Err(split.error);
      }
      var (ssh, url) := split.value;
      ghost var url0 := url;
      var source2: Source;
      var nextHeader: string;
      if !ssh {
        if "git:" !in url[..1] {
          url := SwapHead(url, "git:");
        }
        var source2Url := Join(url, '/');
        source2Url := ReplaceAll(source2Url, "://", "@");
        source2Url := ReplaceAll(source2Url, ".com/", ".com:");
        source2 := Source(source2Url, src.kind, src.branch);
        if "git:" in url[..1] {
          nextHeader := "https:";
        } else {
          nextHeader := "git:";
        }
      } else {
        source2 := Source(Join(url, '/'), src.kind, src.branch);
        nextHeader := "https:";
      }
      assert url == GitHeaded(ssh, url0);
      assert source2.url == GithubSecond(ssh, url) && nextHeader == NextHeader(ssh, url);
      url := SwapHead(url, nextHeader);
      var source3 := Source(Join(url, '/'), src.kind, src.branch);
      url := SwapHead(url, "https:");
      var ok := SetGithubLink(url, src.branch);
      r := if ok then Ok((source2, source3)) else Err(IndexError);
    }

    /** The homepage and feed part of `_set_github_info`, on its `info_url`
        list (which `home_url` and `atom_url` alias); false where a subscript
        raises. */
    method SetGithubLink(url: seq<string>, branch: string) returns (ok: bool)
      modifies this`homepage, this`feeds
      ensures match GithubLink(url, branch)
        case Err(_) => !ok && homepage == old(homepage) && feeds == old(feeds)
        case Ok(link) => ok && homepage == Some(Join(link, '/')) && feeds == Some([Join(link, '/')])
    {
      if |url| < 5 {
        return false;
      }
      var url := url;
      var p := ReplaceAll(url[4], ".git", "");
      var homeTail := p;
      var atomTail := p + "/commits/";
      if branch != "" {
        homeTail := p + "/tree/" + branch;
        atomTail := atomTail + branch + ".atom";
      } else {
        atomTail := atomTail + "master.atom";
      }
      assert (homeTail, atomTail) == GithubTails(p, branch);
      url := Remove(url, url[4]);
      url := Insert(url, 4, homeTail);
      url := Remove(url, url[4]);
      url := Insert(url, 4, atomTail);
      homepage := Some(Join(url, '/'));
      feeds := Some([Join(url, '/')]);
      ok := true;
    }

    /** `_set_gentoo_info`; `url` stands for the single list all its
        `*_url` names alias. */
    method SetGentooInfo(src: Source) returns (r: Result<(Source, Source), MakerError>)
      modifies this`homepage, this`feeds
      ensures match GentooInfo(src)
        case Err(e) => r == Err(e) && homepage == old(homepage) && feeds == old(feeds)
        case Ok(x) => r == Ok((x.second, x.third)) && homepage == Some(x.homepage) && feeds == Some(x.feeds)
    {
      var split := SplitSourceUrl(src.url);
      if split.Err? {
        return Err(split.error);
      }
      var (ssh, url) := split.value;
      ghost var url0 := url;
      var source2: Source;
      var nextHeader: string;
      if !ssh {
        if "git:" !in url[..1] {
          url := SwapHead(url, "git:");
        }
        var source2Url := Join(url, '/');
        source2Url := ReplaceAll(source2Url, "git://", "git+ssh://");
        source2Url := ReplaceAll(source2Url, "git.overlays", "git@git.overlays");
        source2 := Source(source2Url, src.kind, src.branch);
        if "git:" in url[..1] {
          nextHeader := "https:";
        } else {
          nextHeader := "git:";
        }
      } else {
        source2 := Source(Join(url, '/'), src.kind, src.branch);
        nextHeader := "https:";
      }
      assert url == GitHeaded(ssh, url0);
      assert source2.url == GentooSecond(ssh, url) && nextHeader == NextHeader(ssh, url);
      url := SwapHead(url, nextHeader);
      if Contains("https:", nextHeader) {
        url := Insert(url, 3, "gitroot");
      }
      var source3 := Source(Join(url, '/'), src.kind, src.branch);
      url := SwapHead(url, "https:");
      var ok := SetGentooLink(url, src.branch);
      r := if ok then Ok((source2, source3)) else Err(IndexError);
    }

    /** The homepage and feeds part of `_set_gentoo_info`, on its `info_url`
        list (which `home_url`, `atom_url` and `rss_url` alias); false where
        a subscript raises. */
    method SetGentooLink(url: seq<string>, branch: string) returns (ok: bool)
      modifies this`homepage, this`feeds
      ensures match GentooLink(url, branch)
        case Err(_) => !ok && homepage == old(homepage) && feeds == old(feeds)
        case Ok(link) => ok && homepage == Some(Join(link, '/')) && feeds == Some([Join(link, '/'), Join(link, '/')])
    {
      var url := url;
      if "gitroot" in url {
        url := Remove(url, "gitroot");
      }
      url := Insert(url, 3, "gitweb");
      if |url| < 5 {
        return false;
      }
      var p := "?p=";
      p := p + url[4];
      url := Remove(url, url[4]);
      url := Insert(url, 4, p);
      if |url| < 6 {
        return false;
      }
      var homeTail := url[5];
      var atomTail := url[5];
      var rssTail := url[5];
      if branch != "" {
        homeTail := homeTail + ";a=shortlog;h=refs/heads/" + branch;
        atomTail := atomTail + ";a=atom;h=refs/heads/" + branch;
        rssTail := rssTail + ";a=rss;h=refs/heads/" + branch;
      } else {
        homeTail := homeTail + ";a=summary";
        atomTail := atomTail + ";a=atom";
        rssTail := rssTail + ";a=rss";
      }
      assert (homeTail, atomTail, rssTail) == GentooTails(url[5], branch);
      url := Remove(url, url[5]);
      url := Insert(url, 5, homeTail);
      url := Remove(url, url[5]);
      url := Insert(url, 5, atomTail);
      url := Remove(url, url[5]);
      url := Insert(url, 5, rssTail);
      homepage := Some(Join(url, '/'));
      feeds := Some([Join(url, '/'), Join(url, '/')]);
      ok := true;
    }

    /** `_set_bitbucket_info`. */
    method SetBitbucketInfo(src: Source, git: bool) returns (r: Result<Option<Source>, MakerError>)
      modifies this`homepage, this`feeds
      ensures (r, Info(homepage, feeds)) == BitbucketInfo(src, git, old(Info(homepage, feeds)))
    {
      if git {
        homepage := Some(ReplaceAll(src.url, ".git", ""));
        return Ok(None);
      }
      var split := SplitSourceUrl(src.url);
      if split.Err? {
        return Err(split.error);
      }
      var (ssh, url) := split.value;
      var source2Url := Join(url, '/');
      var homeUrl := source2Url;
      if ssh {
        homeUrl := ReplaceAll(homeUrl, "ssh:", "https:");
        homeUrl := ReplaceAll(homeUrl, "hg@bitbucket.org", "bitbucket.org");
        source2Url := homeUrl;
      } else {
        source2Url := ReplaceAll(source2Url, "https:", "ssh:");
        source2Url := ReplaceAll(source2Url, "bitbucket.org", "hg@bitbucket.org");
      }
      homepage := Some(homeUrl);
      feeds := Some([homeUrl + "/atom", homeUrl + "/rss"]);
      r := Ok(Some(Source(source2Url, src.kind, src.branch)));
    }

    /** `_set_overlay_info`: starts from the given source and appends what
        the mirror helpers return. */
    method SetOverlayInfo(src: Source) returns (r: Result<seq<Option<Source>>, MakerError>)
      modifies this`homepage, this`feeds
      ensures (r, Info(homepage, feeds)) == OverlayInfo(src, old(Info(homepage, feeds)))
    {
      var gathered := GatherGithub(Gathered([Some(src)], src));
      if gathered.Err? {
        return Err(gathered.error);
      }
      gathered := GatherGentoo(gathered.value);
      if gathered.Err? {
        return Err(gathered.error);
      }
      r := GatherBitbucket(gathered.value);
    }

    /** The github block of `_set_overlay_info`; its `for` loop leaves
        `source` bound to the last source it appended. */
    method GatherGithub(g: Gathered) returns (r: Result<Gathered, MakerError>)
      modifies this`homepage, this`feeds
      ensures (r, Info(homepage, feeds)) == GithubStep(g, old(Info(homepage, feeds)))
    {
      if !Contains(g.current.url, "github.com") {
        return Ok(g);
      }
      var additional := SetGithubInfo(g.current);
      if additional.Err? {
        return Err(additional.error);
      }
      var (second, third) := additional.value;
      var sources, source := AppendAll(g.sources, [second, third], g.current);
      r := Ok(Gathered(sources, source));
    }

    /** The gentoo block of `_set_overlay_info`, as for github. */
    method GatherGentoo(g: Gathered) returns (r: Result<Gathered, MakerError>)
      modifies this`homepage, this`feeds
      ensures (r, Info(homepage, feeds)) == GentooStep(g, old(Info(homepage, feeds)))
    {
      if !Contains(g.current.url, "git.overlays.gentoo.org") {
        return Ok(g);
      }
      var additional := SetGentooInfo(g.current);
      if additional.Err? {
        return Err(additional.error);
      }
      var (second, third) := additional.value;
      var sources, source := AppendAll(g.sources, [second, third], g.current);
      r := Ok(Gathered(sources, source));
    }

    /** The bitbucket block of `_set_overlay_info`. */
    method GatherBitbucket(g: Gathered) returns (r: Result<seq<Option<Source>>, MakerError>)
      modifies this`homepage, this`feeds
      ensures (r, Info(homepage, feeds)) == BitbucketStep(g, old(Info(homepage, feeds)))
    {
      if !Contains(g.current.url, "bitbucket.org") {
        return Ok(g.sources);
      }
      var sources := g.sources;
      var source2 := SetBitbucketInfo(g.current, Contains(g.current.kind, "git"));
      if source2.Err? {
        return Err(source2.error);
      }
      if Contains(g.current.kind, "git") {
        sources := sources + [source2.value];
      }
      r := Ok(sources);
    }

    /** `_sort_to_tree`: sorts the overlays by name and appends the XML of
        each to the tree. */
    method SortToTree()
      modifies this`overlays, this`tree
      ensures overlays == SortByName(old(overlays))
      ensures tree == old(tree) + XmlOf(overlays)
    {
      overlays := SortByName(overlays);
      tree := AppendXml(tree, overlays);
    }
  }
}
