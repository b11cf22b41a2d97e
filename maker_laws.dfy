// Properties of the overlay wizard's helpers (layman/maker.py): the type
// check and guess, the URL split, the mirror extras, the mirror chain of
// `_set_overlay_info` and the output file name.
module MakerLaws {
  import opened Wrappers
  import opened Strings
  import opened Maker

  // ------------------------------------------------------------ type check

  /** Lower-casing twice is lower-casing once. */
  lemma LowerIdempotent(s: string)
    ensures Lower(Lower(s)) == Lower(s)
  {
  }

  /** The type check ignores case: any spelling of a type gives the same answer. */
  lemma CheckOverlayTypeCaseless(it: Interactive, t: string)
    ensures it.CheckOverlayType(Lower(t)) == it.CheckOverlayType(t)
  {
    LowerIdempotent(t);
  }

  // ------------------------------------------------------------ type guess

  /** The first contained pattern is a pattern at some position, contained in
      the URI, with no earlier pattern contained; when there is none, no
      pattern is contained. */
  lemma {:induction false} FirstContainedSpec(cs: seq<string>, uri: string)
    ensures FirstContained(cs, uri).Some? ==>
      exists i :: 0 <= i < |cs| && cs[i] == FirstContained(cs, uri).value && Contains(uri, cs[i])
        && forall j :: 0 <= j < i ==> !Contains(uri, cs[j])
    ensures FirstContained(cs, uri).None? ==> forall j :: 0 <= j < |cs| ==> !Contains(uri, cs[j])
  {
    if cs == [] {
    } else if Contains(uri, cs[0]) {
      assert cs[0] == FirstContained(cs, uri).value;
    } else {
      var tail := cs[1..];
      FirstContainedSpec(tail, uri);
      if FirstContained(cs, uri).Some? {
        var i :| 0 <= i < |tail| && tail[i] == FirstContained(tail, uri).value && Contains(uri, tail[i])
          && forall j :: 0 <= j < i ==> !Contains(uri, tail[j]);
        assert cs[i + 1] == tail[i];
        assert forall j :: 1 <= j < i + 1 ==> cs[j] == tail[j - 1];
      }
    }
  }

  /** A guess is a contained pattern, or 'mercurial' for a bitbucket URI;
      there is no guess exactly when no pattern is contained and the URI is
      not on bitbucket. */
  lemma GuessSpec(cs: seq<string>, uri: string)
    ensures Guess(Ok(cs), uri).Ok?
    ensures var g := Guess(Ok(cs), uri).value;
      && (g.Some? ==> (g.value in cs && Contains(uri, g.value))
                      || (g.value == "mercurial" && Contains(uri, "bitbucket.org")))
      && (g.None? <==> (forall j :: 0 <= j < |cs| ==> !Contains(uri, cs[j])) && !Contains(uri, "bitbucket.org"))
  {
    FirstContainedSpec(cs, uri);
  }

  /** The list holds no value twice. */
  predicate Distinct(xs: seq<string>) {
    forall i, j :: 0 <= i < j < |xs| ==> xs[i] != xs[j]
  }

  /** Removing a value from a list of distinct values leaves every other
      value, no copy of the removed one, and distinct values. */
  lemma RemoveDistinct(xs: seq<string>, v: string)
    requires Distinct(xs) && v in xs
    ensures v !in Remove(xs, v)
    ensures forall t :: t != v ==> (t in Remove(xs, v) <==> t in xs)
    ensures Distinct(Remove(xs, v))
  {
    var i := IndexOf(xs, v);
    RemoveAt(xs, i);
    var r := Remove(xs, v);
    assert forall m :: 0 <= m < |r| ==> r[m] == xs[if m < i then m else m + 1];
    forall t | t != v && t in xs ensures t in r {
      var p :| 0 <= p < |xs| && xs[p] == t;
      assert r[if p < i then p else p - 1] == t;
    }
  }

  /** The 'tar' adjustment of distinct types: 'tar' gives way to '.tar' and
      every other type stays. */
  lemma AdjustedSpec(types: seq<string>)
    requires Distinct(types) && ".tar" !in types
    ensures Distinct(Adjusted(types)) && "tar" !in Adjusted(types)
    ensures ".tar" in Adjusted(types) <==> "tar" in types
    ensures forall t :: t != "tar" && t != ".tar" ==> (t in Adjusted(types) <==> t in types)
  {
    if "tar" in types {
      RemoveDistinct(types, "tar");
      var r := Remove(types, "tar");
      assert Adjusted(types) == r + [".tar"];
      assert forall m :: 0 <= m < |r| ==> (r + [".tar"])[m] == r[m];
    }
  }

  /** When 'tar' does not come before 'bzr', the adjustment keeps the list
      up to and including 'bzr'. */
  lemma AdjustedKeepsPrefix(types: seq<string>, k: nat)
    requires k < |types| && types[k] == "bzr" && "tar" !in types[..k]
    ensures k < |Adjusted(types)| && Adjusted(types)[..k + 1] == types[..k + 1]
  {
    if "tar" in types {
      var j := IndexOf(types, "tar");
      assert forall m :: 0 <= m < k ==> types[m] != "tar" by {
        forall m | 0 <= m < k ensures types[m] != "tar" {
          assert types[..k][m] == types[m];
        }
      }
      RemoveAt(types, j);
      assert Adjusted(types) == types[..j] + (types[j + 1..] + [".tar"]);
      assert types[..j][..k + 1] == types[..k + 1];
    }
  }

  /** The adjustment brings in no 'bzr'. */
  lemma AdjustedWithoutBzr(types: seq<string>)
    requires "bzr" !in types
    ensures "bzr" !in Adjusted(types)
  {
    if "tar" in types {
      RemovePerm(types, "tar");
      assert multiset(Adjusted(types)) == multiset(types) - multiset{"tar"} + multiset{".tar"};
    }
  }

  /** When 'tar' does not come before 'bzr' in the supported types, the
      pattern list as written is the intended one. */
  lemma TypeChecksAsIntended(types: seq<string>)
    requires "bzr" in types ==> "tar" !in types[..IndexOf(types, "bzr")]
    ensures TypeChecks(types) == Ok(CorrectedTypeChecks(types))
  {
    var adjusted := Adjusted(types);
    if "bzr" in types {
      var k := IndexOf(types, "bzr");
      AdjustedKeepsPrefix(types, k);
      assert adjusted[..k] == types[..k + 1][..k];
      assert adjusted[k] == types[..k + 1][k];
      IndexOfAt(adjusted, k);
      assert types[IndexOf(adjusted, "bzr")] == "bzr";
    } else {
      AdjustedWithoutBzr(types);
    }
  }

  /** The intended pattern list of distinct supported types: neither 'tar'
      nor 'bzr' is left, '.tar' and 'bazaar' take their places ('bazaar'
      last), and every other type stays. */
  lemma CorrectedTypeChecksSpec(types: seq<string>)
    requires Distinct(types)
    requires ".tar" !in types && "bazaar" !in types
    ensures var r := CorrectedTypeChecks(types);
      && "tar" !in r && "bzr" !in r
      && ("tar" in types <==> ".tar" in r)
      && ("bzr" in types <==> "bazaar" in r)
      && ("bzr" in types ==> r[|r| - 1] == "bazaar")
      && forall t :: t in types && t != "tar" && t != "bzr" ==> t in r
  {
    var adjusted := Adjusted(types);
    AdjustedSpec(types);
    if "bzr" in adjusted {
      RemoveDistinct(adjusted, "bzr");
    }
  }

  /** With 'tar' just before 'bzr', `guess_overlay_type` raises ValueError. */
  lemma TarBeforeBzrRaises()
    ensures TypeChecks(["tar", "bzr"]) == Err(ValueError)
  {
    var types := ["tar", "bzr"];
    RemoveAt(types, 0);
    var adjusted := ["bzr", ".tar"];
    assert Adjusted(types) == adjusted;
    IndexOfAt(adjusted, 0);
    assert types[0] !in adjusted;
  }

  /** With one type between them, that type is dropped and 'bzr' stays in
      the pattern list; the intended list drops 'bzr' instead. */
  lemma TarBeforeBzrDropsOther()
    ensures TypeChecks(["tar", "cvs", "bzr"]) == Ok(["bzr", ".tar", "bazaar"])
    ensures CorrectedTypeChecks(["tar", "cvs", "bzr"]) == ["cvs", ".tar", "bazaar"]
  {
    var types := ["tar", "cvs", "bzr"];
    RemoveAt(types, 0);
    var adjusted := ["cvs", "bzr", ".tar"];
    assert Adjusted(types) == adjusted;
    assert adjusted[..1] == ["cvs"];
    IndexOfAt(adjusted, 1);
    assert types[1] == "cvs";
    RemoveAt(adjusted, 0);
    assert Remove(adjusted, "cvs") + ["bazaar"] == ["bzr", ".tar", "bazaar"];
    RemoveAt(adjusted, 1);
    assert Remove(adjusted, "bzr") + ["bazaar"] == ["cvs", ".tar", "bazaar"];
  }

  // ------------------------------------------------------- splitting a URL

  /** Which URLs split at all, and which of them count as ssh URLs. */
  lemma SplitSourceUrlKinds(u: string)
    ensures SplitSourceUrl(u).Err? <==>
      !(StartsWith(u, "git://") || Contains(u, "http://") || Contains(u, "https://")
        || StartsWith(u, "git+ssh://") || StartsWith(u, "git@") || StartsWith(u, "ssh://"))
    ensures (SplitSourceUrl(u).Ok? && !SplitSourceUrl(u).value.0) <==>
      StartsWith(u, "git://") || Contains(u, "http://") || Contains(u, "https://")
  {
  }

  /** A plain or ssh:// URL is split unchanged: its parts join back to it. */
  lemma SplitSourceUrlRoundTrip(u: string)
    requires SplitSourceUrl(u).Ok?
    requires !SplitSourceUrl(u).value.0 || StartsWith(u, "ssh://")
    ensures Join(SplitSourceUrl(u).value.1, '/') == u
  {
    JoinSplit(u, '/');
  }

  /** The first part of a split is the text before the first separator. */
  lemma {:induction false} SplitHead(p: string, rest: string, sep: char)
    requires sep !in p
    ensures Split(p + [sep] + rest, sep)[0] == p
  {
    if p != [] {
      SplitHead(p[1..], rest, sep);
      assert (p + [sep] + rest)[1..] == p[1..] + [sep] + rest;
    }
  }

  // ------------------------------------------------------------- github

  /** `next_header` is 'https:' on every path, so the third github source is
      always an https URL. */
  lemma GithubThirdIsHttps(src: Source)
    requires GithubInfo(src).Ok?
    ensures StartsWith(GithubInfo(src).value.third.url, "https:")
  {
    var (ssh, url) := SplitSourceUrl(src.url).value;
    var url1 := GitHeaded(ssh, url);
    var url2 := [NextHeader(ssh, url1)] + url1[1..];
    assert url2[0] == "https:";
    JoinStartsWith(url2, '/');
  }

  /** For an https URL the third github source is the source itself: the
      rewrite to 'git:' and back to 'https:' cancels out. */
  lemma GithubHttpsThirdRepeatsSource(src: Source)
    requires StartsWith(src.url, "https://") && GithubInfo(src).Ok?
    ensures GithubInfo(src).value.third.url == src.url
  {
    var u := src.url;
    assert Contains(u, "https://");
    var parts := Split(u, '/');
    assert u == "https:" + ['/'] + u[7..];
    SplitHead("https:", u[7..], '/');
    var url1 := GitHeaded(false, parts);
    var url2 := [NextHeader(false, url1)] + url1[1..];
    assert url2 == parts;
    JoinSplit(u, '/');
  }

  /** The github homepage ends up being the atom feed: through the shared
      list the fifth component is overwritten by the atom tail, and the
      feeds repeat it. */
  lemma GithubHomepageIsAtomFeed(info: seq<string>, branch: string)
    requires GithubLink(info, branch).Ok?
    ensures var l := GithubLink(info, branch).value;
      |l| == |info| && EndsWith(l[4], "/commits/" + (if branch != "" then branch + ".atom" else "master.atom"))
  {
    var p := ReplaceAll(info[4], ".git", "");
    var tails := GithubTails(p, branch);
    if branch != "" {
      assert tails.1 == p + ("/commits/" + (branch + ".atom"));
    } else {
      assert tails.1 == p + ("/commits/" + "master.atom");
    }
  }

  // ------------------------------------------------------------- gentoo

  /** The gentoo homepage ends up being the rss feed, and both feeds repeat it. */
  lemma GentooHomepageIsRssFeed(info0: seq<string>, branch: string)
    requires GentooLink(info0, branch).Ok?
    ensures var l := GentooLink(info0, branch).value;
      |l| >= 6 && EndsWith(l[5], if branch != "" then ";a=rss;h=refs/heads/" + branch else ";a=rss")
  {
    var info1 := if "gitroot" in info0 then Remove(info0, "gitroot") else info0;
    var info2 := Insert(info1, 3, "gitweb");
    var info3 := Insert(Remove(info2, info2[4]), 4, "?p=" + info2[4]);
    var tails := GentooTails(info3[5], branch);
    if branch != "" {
      assert tails.2 == info3[5] + (";a=rss;h=refs/heads/" + branch);
    }
  }

  /** The third gentoo source is an https URL with 'gitroot' inserted. */
  lemma GentooThirdIsHttps(src: Source)
    requires GentooInfo(src).Ok?
    ensures StartsWith(GentooInfo(src).value.third.url, "https:")
  {
    var (ssh, url) := SplitSourceUrl(src.url).value;
    var url1 := GitHeaded(ssh, url);
    var url2 := [NextHeader(ssh, url1)] + url1[1..];
    assert url2[0] == "https:";
    assert Contains("https:", url2[0]);
    var url3 := GentooThird(url2);
    assert url3[0] == "https:";
    JoinStartsWith(url3, '/');
  }

  // ----------------------------------------------------------- bitbucket

  /** A git mirror on bitbucket: no second source, the feeds are left as
      they were, and the homepage is the URL with every '.git' removed:
      shorter than the URL when it held one, the URL itself otherwise. */
  lemma BitbucketGitHomepage(src: Source, info: Info)
    ensures var (extra, info') := BitbucketInfo(src, true, info);
      && extra == Ok(None) && info'.feeds == info.feeds
      && info'.homepage == Some(ReplaceAll(src.url, ".git", ""))
      && (Contains(src.url, ".git") ==> |info'.homepage.value| < |src.url|)
      && (!Contains(src.url, ".git") ==> info'.homepage == Some(src.url))
  {
  }

  /** The usual bitbucket git URL, `https://bitbucket.org/<path>.git`
      with no '.' in the path, gives `https://bitbucket.org/<path>`. */
  lemma BitbucketGitRepoUrl(path: string, info: Info)
    requires '.' !in path
    ensures BitbucketInfo(Source("https://bitbucket.org/" + path + ".git", "git", ""), true, info).1.homepage
      == Some("https://bitbucket.org/" + path)
  {
    var host, rest := "https://bitbucket", "org/" + path;
    var d := "." + rest + ".git";
    assert "https://bitbucket.org/" + path + ".git" == host + d;
    assert "https://bitbucket.org/" + path == host + ("." + rest);
    assert '.' !in rest;
    ReplaceAllPlainPrefix(rest, ".git", ".git", "");
    assert ".git"[4..] == [];
    assert ReplaceAll(".git", ".git", "") == "";
    assert d[1] == 'o' && !(".git" <= d) && d[1..] == rest + ".git";
    assert ReplaceAll(d, ".git", "") == "." + rest;
    ReplaceAllPlainPrefix(host, d, ".git", "");
  }

  /** An https mercurial mirror: the homepage is the URL itself, the feeds
      are its atom and rss pages, and the second source is its ssh form. */
  lemma BitbucketHttpsHomepage(src: Source, info: Info)
    requires SplitSourceUrl(src.url).Ok? && !SplitSourceUrl(src.url).value.0
    ensures BitbucketInfo(src, false, info) ==
      (Ok(Some(Source(ReplaceAll(ReplaceAll(src.url, "https:", "ssh:"), "bitbucket.org", "hg@bitbucket.org"),
                      src.kind, src.branch))),
       Info(Some(src.url), Some([src.url + "/atom", src.url + "/rss"])))
  {
    JoinSplit(src.url, '/');
  }

  // --------------------------------------------------- the mirror chain

  /** Each mirror block only appends to the sources. */
  lemma StepsExtend(g: Gathered, info: Info)
    ensures GithubStep(g, info).0.Ok? ==> g.sources <= GithubStep(g, info).0.value.sources
    ensures GentooStep(g, info).0.Ok? ==> g.sources <= GentooStep(g, info).0.value.sources
    ensures BitbucketStep(g, info).0.Ok? ==> g.sources <= BitbucketStep(g, info).0.value
  {
  }

  /** `_set_overlay_info` keeps the given source first in the list it returns. */
  lemma OverlayInfoKeepsSource(src: Source, info: Info)
    requires OverlayInfo(src, info).0.Ok?
    ensures var s := OverlayInfo(src, info).0.value; |s| >= 1 && s[0] == Some(src)
  {
    var g := Gathered([Some(src)], src);
    StepsExtend(g, info);
    var (r1, info1) := GithubStep(g, info);
    if r1.Ok? {
      StepsExtend(r1.value, info1);
      var (r2, info2) := GentooStep(r1.value, info1);
      if r2.Ok? {
        StepsExtend(r2.value, info2);
      }
    }
  }

  /** A git mirror on bitbucket appends the helper's `None` to the sources
      and sets only the homepage. */
  lemma GitBitbucketAppendsNone(src: Source, info: Info)
    requires Contains(src.url, "bitbucket.org") && Contains(src.kind, "git")
    requires !Contains(src.url, "github.com") && !Contains(src.url, "git.overlays.gentoo.org")
    ensures OverlayInfo(src, info) == (Ok([Some(src), None]), Info(Some(ReplaceAll(src.url, ".git", "")), info.feeds))
  {
    var g := Gathered([Some(src)], src);
    assert GithubStep(g, info) == (Ok(g), info);
    assert GentooStep(g, info) == (Ok(g), info);
    assert [Some(src)] + [None] == [Some(src), None];
  }

  /** A mercurial mirror on bitbucket adds no source, but does set the
      homepage and the feeds when its URL splits. */
  lemma HgBitbucketAddsNoSource(src: Source, info: Info)
    requires Contains(src.url, "bitbucket.org") && !Contains(src.kind, "git")
    requires !Contains(src.url, "github.com") && !Contains(src.url, "git.overlays.gentoo.org")
    requires SplitSourceUrl(src.url).Ok?
    ensures OverlayInfo(src, info).0 == Ok([Some(src)])
    ensures OverlayInfo(src, info).1.homepage.Some? && OverlayInfo(src, info).1.feeds.Some?
  {
    var g := Gathered([Some(src)], src);
    assert GithubStep(g, info) == (Ok(g), info);
    assert GentooStep(g, info) == (Ok(g), info);
  }

  /** A github mirror whose third source is on no other mirror yields its
      source and the two github sources, with the github homepage and feeds. */
  lemma GithubGathersThree(src: Source, info: Info)
    requires Contains(src.url, "github.com") && GithubInfo(src).Ok?
    requires !Contains(GithubInfo(src).value.third.url, "git.overlays.gentoo.org")
    requires !Contains(GithubInfo(src).value.third.url, "bitbucket.org")
    ensures var x := GithubInfo(src).value;
      OverlayInfo(src, info) == (Ok([Some(src), Some(x.second), Some(x.third)]), Info(Some(x.homepage), Some(x.feeds)))
  {
    var x := GithubInfo(src).value;
    assert Wrapped([x.second, x.third]) == [Some(x.second), Some(x.third)] by {
      assert [x.second, x.third][..1] == [x.second];
      assert Wrapped([x.second]) == [Some(x.second)];
    }
    var g := Gathered([Some(src)], src);
    var g1 := Gathered([Some(src), Some(x.second), Some(x.third)], x.third);
    var info1 := Info(Some(x.homepage), Some(x.feeds));
    assert [Some(src)] + [Some(x.second), Some(x.third)] == g1.sources;
    assert GithubStep(g, info) == (Ok(g1), info1);
    assert GentooStep(g1, info1) == (Ok(g1), info1);
    assert BitbucketStep(g1, info1) == (Ok(g1.sources), info1);
  }

  // ------------------------------------------------------ the output name

  /** `write` adds '.xml' and '/' only where missing, so normalising an
      already normalised name and directory changes nothing. */
  lemma DestinationNormalised(filename: string, filepath: string)
    ensures var name := if EndsWith(filename, ".xml") then filename else filename + ".xml";
      var dir := if EndsWith(filepath, "/") then filepath else filepath + "/";
      Destination(name, dir) == Destination(filename, filepath) && Destination(name, dir) == dir + name
  {
    assert EndsWith(filename + ".xml", ".xml") by {
      assert (filename + ".xml")[|filename|..] == ".xml";
    }
    assert EndsWith(filepath + "/", "/") by {
      assert (filepath + "/")[|filepath|..] == "/";
    }
  }
}
