/** What the staging protocol guarantees, and where it falls short: a failed
    unpack leaves the install alone and the staging directory gone, `add`
    never overwrites, a good unpack replaces the install with the staged
    tree; a missing branch or a failed rename leaves the staging directory
    behind, and a failed rename loses the old install. */
module ArchiveLaws {
  import opened Wrappers
  import opened Strings
  import opened FileSystem
  import opened Archives

  // -------------------------------------------------------- tar extensions

  lemma {:induction false} FirstSuffixSpec(src: string, cands: seq<string>)
    ensures FirstSuffix(src, cands).Some? ==> FirstSuffix(src, cands).value in cands && EndsWith(src, FirstSuffix(src, cands).value)
    ensures FirstSuffix(src, cands).None? <==> forall i :: 0 <= i < |cands| ==> !EndsWith(src, cands[i])
  {
    if cands != [] {
      FirstSuffixSpec(src, cands[1..]);
      assert forall i :: 1 <= i < |cands| ==> cands[i] == cands[1..][i - 1];
    }
  }

  /** The chosen extension is one the source really ends with; the fallback
      is used exactly when none matches. */
  lemma TarExtensionFound(src: string)
    ensures TarExtension(src) != UnknownTarExtension ==> TarExtension(src) in TarExtensions && EndsWith(src, TarExtension(src))
    ensures TarExtension(src) == UnknownTarExtension <==> forall i :: 0 <= i < |TarExtensions| ==> !EndsWith(src, TarExtensions[i])
  {
    FirstSuffixSpec(src, TarExtensions);
  }

  /** The last four characters of `s`, last first. */
  function Tail(s: string): seq<char>
    requires |s| >= 4
  {
    [s[|s| - 1], s[|s| - 2], s[|s| - 3], s[|s| - 4]]
  }

  /** A suffix of at least four characters fixes the last four. */
  lemma SuffixTail(a: string, b: string)
    requires |a| >= 4
    ensures EndsWith(b, a) ==> |b| >= 4 && Tail(b) == Tail(a)
  {
    if EndsWith(b, a) {
      var t := b[|b| - |a|..];
      assert t[|a| - 1] == b[|b| - 1] && t[|a| - 2] == b[|b| - 2];
      assert t[|a| - 3] == b[|b| - 3] && t[|a| - 4] == b[|b| - 4];
    }
  }

  /** The tails of the recognised extensions, in the same order. */
  const ExtensionTails: seq<seq<char>> :=
    ["2zb.", "zg.r", "amzl", "zx.r", "Z.ra", "zgt.", "zbt.", "zat.", "zlt.", "zxt."]

  lemma ExtensionTailsMatch()
    ensures |ExtensionTails| == |TarExtensions|
    ensures forall k :: 0 <= k < |TarExtensions| ==> |TarExtensions[k]| >= 4 && Tail(TarExtensions[k]) == ExtensionTails[k]
  {
  }

  /** No recognised extension is a suffix of another: their last four
      characters already differ. */
  lemma SuffixFree()
    ensures forall i, j :: 0 <= i < |TarExtensions| && 0 <= j < |TarExtensions| && i != j ==> !EndsWith(TarExtensions[j], TarExtensions[i])
  {
    var c := TarExtensions;
    ExtensionTailsMatch();
    forall i, j | 0 <= i < |c| && 0 <= j < |c| && i != j
      ensures !EndsWith(c[j], c[i])
    {
      SuffixTail(c[i], c[j]);
      assert ExtensionTails[i] != ExtensionTails[j];
    }
  }

  /** Of two suffixes of one string, the shorter is a suffix of the longer. */
  lemma SuffixOfSuffix(s: string, a: string, b: string)
    requires EndsWith(s, a) && EndsWith(s, b) && |a| <= |b|
    ensures EndsWith(b, a)
  {
    assert b[|b| - |a|..] == s[|s| - |a|..];
  }

  /** Any recognised extension the source ends with is the one chosen: the
      first match is the only match, so trying the candidates in order is the
      same as picking the longest. */
  lemma TarExtensionUnique(src: string, i: nat)
    requires i < |TarExtensions| && EndsWith(src, TarExtensions[i])
    ensures TarExtension(src) == TarExtensions[i]
  {
    TarExtensionFound(src);
    SuffixFree();
    var e := TarExtension(src);
    var j :| 0 <= j < |TarExtensions| && TarExtensions[j] == e;
    if j != i {
      if |TarExtensions[i]| <= |e| {
        SuffixOfSuffix(src, TarExtensions[i], e);
      } else {
        SuffixOfSuffix(src, e, TarExtensions[i]);
      }
      assert false;
    }
  }

  /** A dot followed by no separator. */
  predicate DotSuffix(e: string) {
    e != [] && e[0] == '.' && '/' !in e
  }

  /** Every candidate extension is a dot-suffix. */
  lemma CandidatesAreDotSuffixes()
    ensures forall i :: 0 <= i < |TarExtensions| ==> DotSuffix(TarExtensions[i])
  {
    var c := TarExtensions;
    assert DotSuffix(c[0]) && DotSuffix(c[1]) && DotSuffix(c[2]) && DotSuffix(c[3]) && DotSuffix(c[4]);
    assert DotSuffix(c[5]) && DotSuffix(c[6]) && DotSuffix(c[7]) && DotSuffix(c[8]) && DotSuffix(c[9]);
  }

  /** Every extension the tar handler can pick is a dot-suffix. */
  lemma TarExtensionShape(src: string)
    ensures TarExtension(src) != [] && TarExtension(src)[0] == '.' && '/' !in TarExtension(src)
  {
    TarExtensionFound(src);
    CandidatesAreDotSuffixes();
    var e := TarExtension(src);
    if e != UnknownTarExtension {
      var j :| 0 <= j < |TarExtensions| && TarExtensions[j] == e;
      assert DotSuffix(e);
    } else {
      assert DotSuffix(UnknownTarExtension);
    }
  }

  // ------------------------------------------------------------- layout

  /** The situation one staging starts from: a canonical base directory, an
      overlay name that is one path component, and a staging directory that
      `mkdtemp` made fresh, under a name that is neither the install's nor the
      downloaded package's. */
  ghost predicate Layout(h: Handler, fs: Tree, base: string, env: Env) {
    && CanonicalDir(base)
    && Component(h.name)
    && Staged(fs, base, env)
    && env.tmpName != h.name
    && env.tmpName != h.name + TarExtension(h.src)
  }

  /** The paths involved, spelt out. */
  lemma LayoutPaths(h: Handler, fs: Tree, base: string, env: Env)
    requires Layout(h, fs, base, env)
    ensures FinalPath(h, base) == base + "/" + h.name
    ensures TempPath(base, env) == base + "/" + env.tmpName
    ensures Apart(TempPath(base, env), FinalPath(h, base))
    ensures Written(h, base).Some? ==> !Within(Written(h, base).value, TempPath(base, env))
    ensures Written(h, base).Some? && h.kind == Tar ==> !Within(Written(h, base).value, FinalPath(h, base))
    ensures Written(h, base).Some? && h.kind == Squashfs ==> Written(h, base).value == FinalPath(h, base)
  {
    ChildPath(base, h.name);
    OsPathJoinChild(base, env.tmpName);
    SiblingsApart(base, env.tmpName, h.name);
    if Written(h, base).Some? && h.kind == Tar {
      TarPackageApart(h, base, env.tmpName);
    }
  }

  /** The downloaded tarball lies beside the staging directory and the
      install, inside neither. */
  lemma TarPackageApart(h: Handler, base: string, tmp: string)
    requires CanonicalDir(base) && Component(h.name) && Component(tmp)
    requires h.kind == Tar && tmp != h.name + TarExtension(h.src)
    ensures var w := DownloadPath(h, base);
      !Within(w, base + "/" + tmp) && !Within(w, base + "/" + h.name)
  {
    var ext := TarExtension(h.src);
    TarExtensionShape(h.src);
    assert Component(h.name + ext);
    ChildPath(base, h.name + ext);
    SiblingsApart(base, tmp, h.name + ext);
    var w := base + "/" + (h.name + ext);
    assert w[|base| + 1 + |h.name|] == '.';
  }

  // ------------------------------------------------------------- extract

  /** Unpacking changes nothing outside the destination except the downloaded
      package; the destination itself stays; every entry the tool places is
      there afterwards. */
  lemma ExtractFrame(h: Handler, fs: Tree, base: string, dest: string, fetch: Fetch, run: Run)
    requires RunBelow(run, dest)
    requires Written(h, base).Some? ==> !Within(Written(h, base).value, dest)
    ensures var r := ExtractSpec(h, fs, base, dest, fetch, run).fs;
      forall k :: !Within(k, dest) && Written(h, base) != Some(k) ==> Same(r, fs, k)
    ensures dest in fs ==> Same(ExtractSpec(h, fs, base, dest, fetch, run).fs, fs, dest)
    ensures var e := ExtractSpec(h, fs, base, dest, fetch, run);
      e.outcome.Returned? ==> run.Exit? && forall k :: k in run.entries ==> k in e.fs && e.fs[k] == run.entries[k]
  {
    var r := ExtractSpec(h, fs, base, dest, fetch, run).fs;
    forall k | !Within(k, dest) && Written(h, base) != Some(k)
      ensures Same(r, fs, k)
    {
      ExtractAt(h, fs, base, dest, fetch, run, k);
    }
    if dest in fs {
      ExtractAt(h, fs, base, dest, fetch, run, dest);
    }
  }

  /** One path the tool does not place and the download does not write is
      left as it was. */
  lemma ExtractAt(h: Handler, fs: Tree, base: string, dest: string, fetch: Fetch, run: Run, k: string)
    requires RunBelow(run, dest) && Written(h, base) != Some(k) && !(dest + "/" <= k)
    ensures Same(ExtractSpec(h, fs, base, dest, fetch, run).fs, fs, k)
  {
    if run.Exit? {
      assert k !in run.entries;
    }
    if IsRemote(h.src) && h.kind != Archive {
      var pkg := Package(h, base);
      assert Written(h, base) == Some(pkg) && k != pkg;
      if fetch.Fetched? {
        var stored := WriteFile(fs, pkg, fetch.content);
        assert stored.Some? ==> Same(stored.value, fs, k);
      }
    }
  }

  /** A downloaded package is written whatever the connector's success flag
      says, and is removed after the tool exits only when the configuration
      asks for it; if the tool raises, it is left behind. */
  lemma DownloadKept(h: Handler, fs: Tree, base: string, dest: string, fetch: Fetch, run: Run)
    requires Written(h, base).Some? && fetch.Fetched?
    requires var pkg := Written(h, base).value; !(pkg in fs && fs[pkg].Dir?) && !Within(pkg, dest)
    requires RunBelow(run, dest)
    ensures var e := ExtractSpec(h, fs, base, dest, fetch, run); var pkg := Written(h, base).value;
      && e.outcome == (if run.Exit? then Returned(run.code) else Raised(ExtractFailed(run.message)))
      && (pkg in e.fs <==> !(run.Exit? && CleanSetting(h)))
      && (pkg in e.fs ==> e.fs[pkg].File? && e.fs[pkg].data == fetch.content)
  {
  }

  // ------------------------------------------------------------- staging

  /** When the tool raises or exits non-zero, the outcome is passed on, the
      staging directory is gone and nothing else but the downloaded package
      has changed. */
  lemma StageFailureCleansUp(h: Handler, fs: Tree, base: string, env: Env)
    requires Layout(h, fs, base, env)
    requires var e := Extracted(h, fs, base, env); e.outcome.Raised? || e.outcome.code != 0
    ensures var s := StageSpec(h, fs, base, env); var temp := TempPath(base, env);
      && s.outcome == Extracted(h, fs, base, env).outcome
      && Absent(s.fs, temp)
      && forall k :: !Within(k, temp) && Written(h, base) != Some(k) ==> Same(s.fs, fs, k)
  {
    var temp := TempPath(base, env);
    LayoutPaths(h, fs, base, env);
    ExtractFrame(h, fs[temp := Dir(TempDirMode)], base, temp, env.fetch, env.run);
  }

  /** ... and for the tar and archive kinds the install is exactly as it was:
      a failed sync keeps the previous version. */
  lemma StageFailureKeepsInstall(h: Handler, fs: Tree, base: string, env: Env)
    requires Layout(h, fs, base, env) && h.kind != Squashfs
    requires var e := Extracted(h, fs, base, env); e.outcome.Raised? || e.outcome.code != 0
    ensures Subtree(StageSpec(h, fs, base, env).fs, FinalPath(h, base)) == Subtree(fs, FinalPath(h, base))
  {
    var s := StageSpec(h, fs, base, env);
    var final := FinalPath(h, base);
    var temp := TempPath(base, env);
    LayoutPaths(h, fs, base, env);
    StageFailureCleansUp(h, fs, base, env);
    forall k | Within(k, final)
      ensures Same(s.fs, fs, k)
    {
      assert !Within(k, temp);
    }
    SubtreeAgrees(s.fs, fs, final);
  }

  /** With the squashfs kind the downloaded package is written at the
      install path itself. */
  lemma SquashfsPackageIsInstall(h: Handler, base: string)
    requires h.kind == Squashfs && IsRemote(h.src)
    ensures Written(h, base) == Some(FinalPath(h, base))
  {
  }

  /** After a zero exit, a branch missing from the package raises, and the
      staging directory is left behind. Only a named branch can be missing. */
  lemma MissingBranchKeepsStaging(h: Handler, fs: Tree, base: string, env: Env)
    requires Layout(h, fs, base, env)
    requires var e := Extracted(h, fs, base, env);
      e.outcome == Returned(0) && SourcePath(h, TempPath(base, env)) !in e.fs
    ensures var s := StageSpec(h, fs, base, env); var temp := TempPath(base, env);
      && h.branch != ""
      && s.outcome == Raised(MissingBranchPath(temp + "/" + h.branch))
      && temp in s.fs && s.fs[temp] == Dir(TempDirMode)
  {
    var temp := TempPath(base, env);
    LayoutPaths(h, fs, base, env);
    ExtractFrame(h, fs[temp := Dir(TempDirMode)], base, temp, env.fetch, env.run);
  }

  /** After a zero exit, a failed rename raises having already deleted the
      previous install, and leaves the staging directory behind. */
  lemma RenameFailureLosesInstall(h: Handler, fs: Tree, base: string, env: Env)
    requires Layout(h, fs, base, env) && !env.renameOk
    requires var e := Extracted(h, fs, base, env);
      e.outcome == Returned(0) && SourcePath(h, TempPath(base, env)) in e.fs
    ensures var s := StageSpec(h, fs, base, env); var temp := TempPath(base, env);
      && s.outcome == Raised(RenameFailed(SourcePath(h, temp), FinalPath(h, base)))
      && FinalPath(h, base) !in s.fs
      && temp in s.fs
  {
    var temp := TempPath(base, env);
    LayoutPaths(h, fs, base, env);
    ExtractFrame(h, fs[temp := Dir(TempDirMode)], base, temp, env.fetch, env.run);
    assert !Within(temp, FinalPath(h, base));
  }

  /** Deleting the install only touches what lies below it. */
  lemma ClearedFrame(fs: Tree, final: string)
    ensures forall k :: !Within(k, final) ==> Same(Cleared(fs, final), fs, k)
    ensures forall k :: k in Cleared(fs, final) ==> k in fs
    ensures final !in Cleared(fs, final)
  {
  }

  /** Wiping a folder only touches what lies below it. */
  lemma WipeFrame(fs: Tree, folder: string)
    ensures forall k :: !Within(k, folder) ==> Same(Wipe(fs, folder), fs, k)
    ensures forall k :: k in Wipe(fs, folder) ==> k in fs
    ensures folder in fs ==> Absent(Wipe(fs, folder), folder)
  {
  }

  /** Installing moves the source's subtree to the install path, opens the
      install's permissions and leaves nothing below the source. */
  lemma InstallFacts(fs: Tree, source: string, final: string)
    requires source in fs && Apart(source, final)
    ensures final in Install(fs, source, final) && Install(fs, source, final)[final].mode == InstalledMode
    ensures Absent(Install(fs, source, final), source)
    ensures forall k :: !Within(k, source) && !Within(k, final) ==> Same(Install(fs, source, final), fs, k)
  {
    RenameMoves(fs, source, final, source);
    RenameFrame(fs, source, final);
    var r := Rename(fs, source, final);
    assert Moved(source, source, final) == final;
    assert Install(fs, source, final) == Chmod(r, final, InstalledMode);
    forall k | !Within(k, source) && !Within(k, final)
      ensures Same(Install(fs, source, final), fs, k)
    {
      assert k != final;
      if k in r {
        RenameKeepsOthers(fs, source, final, k);
      }
    }
  }

  /** Installing carries every path below the source, with its content. */
  lemma InstallContent(fs: Tree, source: string, final: string)
    requires source in fs
    ensures forall k :: k in fs && Within(k, source) && k != source ==>
      Moved(k, source, final) in Install(fs, source, final) && Install(fs, source, final)[Moved(k, source, final)] == fs[k]
  {
    forall k | k in fs && Within(k, source) && k != source
      ensures Moved(k, source, final) in Install(fs, source, final)
      ensures Install(fs, source, final)[Moved(k, source, final)] == fs[k]
    {
      RenameMoves(fs, source, final, k);
      assert |Moved(k, source, final)| > |final|;
    }
  }

  /** After installing, whatever lies below the install came from below the
      source. */
  lemma InstallOrigin(fs: Tree, source: string, final: string)
    requires source in fs
    ensures forall k :: k in Install(fs, source, final) && Within(k, final) ==> source + k[|final|..] in fs
  {
    RenameOrigin(fs, source, final);
  }

  /** The source of a promotion lies apart from the install and survives its
      deletion. */
  lemma SourceSurvivesDelete(h: Handler, fs: Tree, base: string, temp: string)
    requires Apart(temp, FinalPath(h, base)) && SourcePath(h, temp) in fs
    ensures Apart(SourcePath(h, temp), FinalPath(h, base))
    ensures SourcePath(h, temp) in Cleared(fs, FinalPath(h, base))
    ensures Cleared(fs, FinalPath(h, base))[SourcePath(h, temp)] == fs[SourcePath(h, temp)]
  {
    var source := SourcePath(h, temp);
    var final := FinalPath(h, base);
    forall k | Within(k, source)
      ensures !Within(k, final)
    {
      SourceInsideTemp(h, temp, k);
    }
    ClearedFrame(fs, final);
  }

  /** The staged tree lies inside the staging directory. */
  lemma SourceInsideTemp(h: Handler, temp: string, k: string)
    ensures Within(k, SourcePath(h, temp)) ==> Within(k, temp)
  {
    if h.branch != "" && Within(k, SourcePath(h, temp)) {
      assert temp + "/" <= k;
    }
  }

  /** A successful promotion is the deletion, the install, then the wipe. */
  lemma PromoteSteps(h: Handler, fs: Tree, base: string, temp: string)
    requires Apart(temp, FinalPath(h, base)) && SourcePath(h, temp) in fs
    ensures SourcePath(h, temp) in Cleared(fs, FinalPath(h, base))
    ensures PromoteSpec(h, fs, base, temp, true) ==
      (Wipe(Install(Cleared(fs, FinalPath(h, base)), SourcePath(h, temp), FinalPath(h, base)), temp), Returned(0))
  {
    SourceSurvivesDelete(h, fs, base, temp);
  }

  /** A successful promotion returns 0, leaves the install in place with its
      permissions opened, and wipes the staging directory. */
  lemma PromoteInstalls(h: Handler, fs: Tree, base: string, temp: string)
    requires Apart(temp, FinalPath(h, base)) && SourcePath(h, temp) in fs && temp in fs
    ensures var p := PromoteSpec(h, fs, base, temp, true); var final := FinalPath(h, base);
      && p.1 == Returned(0)
      && final in p.0 && p.0[final].mode == InstalledMode
      && Absent(p.0, temp)
  {
    var final := FinalPath(h, base);
    var source := SourcePath(h, temp);
    PromoteSteps(h, fs, base, temp);
    SourceSurvivesDelete(h, fs, base, temp);
    var cleared := Cleared(fs, final);
    InstallFacts(cleared, source, final);
    var installed := Install(cleared, source, final);
    WipeFrame(installed, temp);
    assert !Within(final, temp);
    if source != temp {
      ClearedFrame(fs, final);
      assert !Within(temp, source) && !Within(temp, final);
      assert temp in installed;
    }
  }

  /** A successful promotion carries every staged path below the source to
      the same place below the install, with its content. */
  lemma PromoteContent(h: Handler, fs: Tree, base: string, temp: string)
    requires Apart(temp, FinalPath(h, base)) && SourcePath(h, temp) in fs
    ensures var p := PromoteSpec(h, fs, base, temp, true); var source := SourcePath(h, temp);
      forall k :: k in fs && Within(k, source) && k != source ==>
        Moved(k, source, FinalPath(h, base)) in p.0 && p.0[Moved(k, source, FinalPath(h, base))] == fs[k]
  {
    var final := FinalPath(h, base);
    var source := SourcePath(h, temp);
    PromoteSteps(h, fs, base, temp);
    SourceSurvivesDelete(h, fs, base, temp);
    var cleared := Cleared(fs, final);
    ClearedFrame(fs, final);
    InstallContent(cleared, source, final);
    var installed := Install(cleared, source, final);
    WipeFrame(installed, temp);
    forall k | k in fs && Within(k, source) && k != source
      ensures Moved(k, source, final) in Wipe(installed, temp)
      ensures Wipe(installed, temp)[Moved(k, source, final)] == fs[k]
    {
      assert !Within(k, final);
      MovedWithin(k, source, final);
      assert !Within(Moved(k, source, final), temp);
    }
  }

  /** A successful promotion leaves everything outside the staging directory
      and the install alone. */
  lemma PromoteFrame(h: Handler, fs: Tree, base: string, temp: string)
    requires Apart(temp, FinalPath(h, base)) && SourcePath(h, temp) in fs
    ensures var p := PromoteSpec(h, fs, base, temp, true);
      forall k :: !Within(k, temp) && !Within(k, FinalPath(h, base)) ==> Same(p.0, fs, k)
  {
    var final := FinalPath(h, base);
    var source := SourcePath(h, temp);
    PromoteSteps(h, fs, base, temp);
    SourceSurvivesDelete(h, fs, base, temp);
    var cleared := Cleared(fs, final);
    ClearedFrame(fs, final);
    InstallFacts(cleared, source, final);
    var installed := Install(cleared, source, final);
    WipeFrame(installed, temp);
    forall k | !Within(k, temp) && !Within(k, final)
      ensures Same(Wipe(installed, temp), fs, k)
    {
      SourceInsideTemp(h, temp, k);
      assert Same(Wipe(installed, temp), installed, k);
      assert Same(installed, cleared, k);
      assert Same(cleared, fs, k);
    }
  }

  /** After a successful promotion, whatever lies below the install came from
      the staged tree: nothing of the previous install survives. */
  lemma PromoteReplaces(h: Handler, fs: Tree, base: string, temp: string)
    requires Apart(temp, FinalPath(h, base)) && SourcePath(h, temp) in fs
    ensures var p := PromoteSpec(h, fs, base, temp, true); var final := FinalPath(h, base);
      forall k :: k in p.0 && Within(k, final) ==> Within(k, final) && SourcePath(h, temp) + k[|final|..] in fs
  {
    var final := FinalPath(h, base);
    var source := SourcePath(h, temp);
    PromoteSteps(h, fs, base, temp);
    var cleared := Cleared(fs, final);
    ClearedFrame(fs, final);
    InstallOrigin(cleared, source, final);
    var installed := Install(cleared, source, final);
    WipeFrame(installed, temp);
  }

  // ------------------------------------------------------ whole stagings

  /** The facts a successful promotion inside a staging relies on. */
  lemma StagePromotes(h: Handler, fs: Tree, base: string, env: Env)
    requires Layout(h, fs, base, env)
    requires Extracted(h, fs, base, env).outcome == Returned(0)
    ensures var temp := TempPath(base, env); var e := Extracted(h, fs, base, env);
      && Apart(temp, FinalPath(h, base)) && temp in e.fs
      && StageSpec(h, fs, base, env) == Step((PromoteSpec(h, e.fs, base, temp, env.renameOk)).0, e.invoked, PromoteSpec(h, e.fs, base, temp, env.renameOk).1)
      && forall k :: !Within(k, temp) && Written(h, base) != Some(k) ==> Same(e.fs, fs, k)
  {
    var temp := TempPath(base, env);
    LayoutPaths(h, fs, base, env);
    ExtractFrame(h, fs[temp := Dir(TempDirMode)], base, temp, env.fetch, env.run);
  }

  /** After a zero exit with the content root present and a working rename,
      staging returns 0, the install exists with mode 0o755, the staging
      directory is gone, and nothing outside the staging directory, the
      install and the downloaded package has changed. */
  lemma StageSucceeds(h: Handler, fs: Tree, base: string, env: Env)
    requires Layout(h, fs, base, env) && env.renameOk
    requires var e := Extracted(h, fs, base, env);
      e.outcome == Returned(0) && SourcePath(h, TempPath(base, env)) in e.fs
    ensures var s := StageSpec(h, fs, base, env); var final := FinalPath(h, base); var temp := TempPath(base, env);
      && s.outcome == Returned(0)
      && final in s.fs && s.fs[final].mode == InstalledMode
      && Absent(s.fs, temp)
      && forall k :: !Within(k, temp) && !Within(k, final) && Written(h, base) != Some(k) ==> Same(s.fs, fs, k)
  {
    var temp := TempPath(base, env);
    var e := Extracted(h, fs, base, env);
    StagePromotes(h, fs, base, env);
    PromoteInstalls(h, e.fs, base, temp);
    PromoteFrame(h, e.fs, base, temp);
  }

  /** ... and every entry the tool placed below the content root is found at
      the same place below the install. */
  lemma StageInstallsContent(h: Handler, fs: Tree, base: string, env: Env)
    requires Layout(h, fs, base, env) && env.renameOk && env.run.Exit?
    requires var e := Extracted(h, fs, base, env);
      e.outcome == Returned(0) && SourcePath(h, TempPath(base, env)) in e.fs
    ensures var s := StageSpec(h, fs, base, env); var source := SourcePath(h, TempPath(base, env));
      forall k :: k in env.run.entries && Within(k, source) && k != source ==>
        Moved(k, source, FinalPath(h, base)) in s.fs && s.fs[Moved(k, source, FinalPath(h, base))] == env.run.entries[k]
  {
    var temp := TempPath(base, env);
    var e := Extracted(h, fs, base, env);
    LayoutPaths(h, fs, base, env);
    ExtractFrame(h, fs[temp := Dir(TempDirMode)], base, temp, env.fetch, env.run);
    StagePromotes(h, fs, base, env);
    PromoteContent(h, e.fs, base, temp);
  }

  /** ... and conversely, everything below the install after a successful
      staging came from the same place below the content root. */
  lemma StageInstallsOnlyContent(h: Handler, fs: Tree, base: string, env: Env)
    requires Layout(h, fs, base, env) && env.renameOk
    requires var e := Extracted(h, fs, base, env);
      e.outcome == Returned(0) && SourcePath(h, TempPath(base, env)) in e.fs
    ensures var s := StageSpec(h, fs, base, env); var final := FinalPath(h, base);
      forall k :: k in s.fs && Within(k, final) ==>
        SourcePath(h, TempPath(base, env)) + k[|final|..] in Extracted(h, fs, base, env).fs
  {
    var temp := TempPath(base, env);
    var e := Extracted(h, fs, base, env);
    StagePromotes(h, fs, base, env);
    PromoteReplaces(h, e.fs, base, temp);
  }

  // ------------------------------------------------------------ add / sync

  /** Without its tool a handler returns 1 and changes nothing. */
  lemma UnsupportedReturnsOne(h: Handler, fs: Tree, base: string, env: Env)
    requires !h.supported
    ensures AddSpec(h, fs, base, env) == Step(fs, [], Returned(1))
    ensures SyncSpec(h, fs, base, env) == Step(fs, [], Returned(1))
  {
  }

  /** `add` raises on an existing install and touches nothing. */
  lemma AddRefusesExisting(h: Handler, fs: Tree, base: string, env: Env)
    requires h.supported && FinalPath(h, base) in fs
    ensures AddSpec(h, fs, base, env) == Step(fs, [], Raised(AlreadyExists(FinalPath(h, base))))
  {
  }

  /** Otherwise `add` is `sync`: the same staging, without the check. */
  lemma AddIsCheckedSync(h: Handler, fs: Tree, base: string, env: Env)
    requires FinalPath(h, base) !in fs
    ensures AddSpec(h, fs, base, env) == SyncSpec(h, fs, base, env)
  {
  }

  /** A staging that returns 0 leaves an install behind. */
  lemma StageZeroInstalls(h: Handler, fs: Tree, base: string, env: Env)
    requires Layout(h, fs, base, env)
    requires StageSpec(h, fs, base, env).outcome == Returned(0)
    ensures FinalPath(h, base) in StageSpec(h, fs, base, env).fs
  {
    var e := Extracted(h, fs, base, env);
    var temp := TempPath(base, env);
    StagePromotes(h, fs, base, env);
    if !env.renameOk || SourcePath(h, temp) !in e.fs {
      assert false;
    }
    StageSucceeds(h, fs, base, env);
  }

  /** Once `add` has succeeded, a second `add` of the same overlay is
      refused. */
  lemma SecondAddRefused(h: Handler, fs: Tree, base: string, env: Env, env2: Env)
    requires Layout(h, fs, base, env) && h.supported
    requires AddSpec(h, fs, base, env).outcome == Returned(0)
    ensures var fs2 := AddSpec(h, fs, base, env).fs;
      AddSpec(h, fs2, base, env2) == Step(fs2, [], Raised(AlreadyExists(FinalPath(h, base))))
  {
    StageZeroInstalls(h, fs, base, env);
  }

  /** A remote squashfs overlay cannot be synced once installed: the
      download is written to the install path, which is a directory. The
      file system is left as it was. */
  lemma SquashfsResyncFails(h: Handler, fs: Tree, base: string, env: Env)
    requires Layout(h, fs, base, env) && h.supported
    requires h.kind == Squashfs && IsRemote(h.src) && env.fetch.Fetched?
    requires FinalPath(h, base) in fs && fs[FinalPath(h, base)].Dir?
    ensures SyncSpec(h, fs, base, env) == Step(fs, [], Raised(StoreFailed(FinalPath(h, base))))
  {
    var temp := TempPath(base, env);
    LayoutPaths(h, fs, base, env);
    var fs0 := fs[temp := Dir(TempDirMode)];
    assert fs0[FinalPath(h, base)] == fs[FinalPath(h, base)];
    SquashfsStoreFails(h, fs0, base, temp, env.fetch, env.run);
    RemoveFresh(fs, temp, Dir(TempDirMode));
  }

  /** The squashfs download goes to the install path; a directory there makes
      the write fail before the tool runs. */
  lemma SquashfsStoreFails(h: Handler, fs: Tree, base: string, dest: string, fetch: Fetch, run: Run)
    requires h.kind == Squashfs && IsRemote(h.src) && fetch.Fetched?
    requires FinalPath(h, base) in fs && fs[FinalPath(h, base)].Dir?
    ensures ExtractSpec(h, fs, base, dest, fetch, run) == Step(fs, [], Raised(StoreFailed(FinalPath(h, base))))
  {
    assert Package(h, base) == FinalPath(h, base);
    assert WriteFile(fs, FinalPath(h, base), fetch.content).None?;
  }

  /** The generic archive kind cannot download: the connector's class name
      is misspelt, so every remote archive raises before anything is written,
      and the file system is left as it was. */
  lemma ArchiveDownloadUndefined(h: Handler, fs: Tree, base: string, env: Env)
    requires Layout(h, fs, base, env) && h.supported
    requires h.kind == Archive && IsRemote(h.src)
    ensures SyncSpec(h, fs, base, env) == Step(fs, [], Raised(FetcherUndefined))
  {
    RemoveFresh(fs, TempPath(base, env), Dir(TempDirMode));
  }

  /** `delete` removes the install and is idempotent. */
  lemma DeleteRemoves(fs: Tree, final: string)
    ensures Absent(RemoveTree(fs, final), final)
    ensures RemoveTree(RemoveTree(fs, final), final) == RemoveTree(fs, final)
  {
  }

  /** Syncing a tar overlay whose local tarball has gone: the tool fails,
      the install stays as it was, and `delete` then removes it. */
  lemma SyncWithoutTarball(h: Handler, fs: Tree, base: string, env: Env)
    requires Layout(h, fs, base, env) && h.supported && h.kind == Tar && !IsRemote(h.src)
    requires env.run.RunRaised? || env.run.code != 0
    requires FinalPath(h, base) in fs
    ensures var s := SyncSpec(h, fs, base, env);
      && s.outcome == (if env.run.Exit? then Returned(env.run.code) else Raised(ExtractFailed(env.run.message)))
      && FinalPath(h, base) in s.fs && s.fs[FinalPath(h, base)] == fs[FinalPath(h, base)]
      && Absent(RemoveTree(s.fs, FinalPath(h, base)), FinalPath(h, base))
  {
    StageFailureKeepsInstall(h, fs, base, env);
    var final := FinalPath(h, base);
    assert final in Subtree(fs, final);
  }

  /** A path given relative to the source lands at the same place relative
      to the destination. */
  lemma MovedRelative(src: string, rel: string, dst: string)
    requires Within(src + rel, src)
    ensures Moved(src + rel, src, dst) == dst + rel
  {
    assert (src + rel)[|src|..] == rel;
  }

  /** With no branch set, an entry the tool placed at `temp + rel` is
      installed at `final + rel`. */
  lemma EntryInstalled(h: Handler, fs: Tree, base: string, env: Env, rel: string)
    requires Layout(h, fs, base, env) && env.renameOk && env.run.Exit? && h.branch == ""
    requires Extracted(h, fs, base, env).outcome == Returned(0)
    requires TempPath(base, env) + rel in env.run.entries && rel != ""
    ensures FinalPath(h, base) + rel in StageSpec(h, fs, base, env).fs
  {
    var temp := TempPath(base, env);
    LayoutPaths(h, fs, base, env);
    ExtractFrame(h, fs[temp := Dir(TempDirMode)], base, temp, env.fetch, env.run);
    assert SourcePath(h, temp) == temp;
    StageInstallsContent(h, fs, base, env);
    assert Within(temp + rel, temp);
    MovedRelative(temp, rel, FinalPath(h, base));
  }

  /** Adding a local tarball whose single top directory `t` holds `c1` and
      `c2`, with no branch set (the doctest's `layman-test` holding
      `app-admin` and `app-portage`): `add` returns 0 and the tree appears
      below `base/name/t`. */
  lemma LocalTarballAdd(fs: Tree, base: string, h: Handler, env: Env, t: string, c1: string, c2: string, m: int)
    requires CanonicalDir(base) && Component(h.name) && Component(t) && Component(c1) && Component(c2)
    requires h.kind == Tar && h.supported && h.branch == "" && !IsRemote(h.src)
    requires Component(env.tmpName) && env.tmpName != h.name && env.tmpName != h.name + TarExtension(h.src)
    requires Absent(fs, TempPath(base, env)) && base + "/" + h.name !in fs && env.renameOk
    requires var temp := TempPath(base, env);
      env.run == Exit(0, map[temp + ("/" + t) := Dir(m), temp + ("/" + t + "/" + c1) := Dir(m), temp + ("/" + t + "/" + c2) := Dir(m)])
    ensures var s := AddSpec(h, fs, base, env); var final := base + "/" + h.name;
      && s.outcome == Returned(0)
      && final + ("/" + t) in s.fs
      && final + ("/" + t + "/" + c1) in s.fs
      && final + ("/" + t + "/" + c2) in s.fs
      && forall k :: k in s.fs && Within(k, final) ==>
           k in {final, final + ("/" + t), final + ("/" + t + "/" + c1), final + ("/" + t + "/" + c2)}
  {
    var temp := TempPath(base, env);
    ChildPath(base, h.name);
    var k1, k2, k3 := temp + ("/" + t), temp + ("/" + t + "/" + c1), temp + ("/" + t + "/" + c2);
    assert env.run.entries.Keys == {k1, k2, k3};
    assert RunBelow(env.run, temp) by {
      assert temp + "/" <= k1 && temp + "/" <= k2 && temp + "/" <= k3;
    }
    assert Layout(h, fs, base, env);
    assert Extracted(h, fs, base, env).outcome == Returned(0);
    assert TempPath(base, env) == temp;
    LayoutPaths(h, fs, base, env);
    ExtractFrame(h, fs[temp := Dir(TempDirMode)], base, temp, env.fetch, env.run);
    StageSucceeds(h, fs, base, env);
    EntryInstalled(h, fs, base, env, "/" + t);
    EntryInstalled(h, fs, base, env, "/" + t + "/" + c1);
    EntryInstalled(h, fs, base, env, "/" + t + "/" + c2);
    assert Extracted(h, fs, base, env).fs == fs[temp := Dir(TempDirMode)] + env.run.entries;
    StageInstallsOnlyContent(h, fs, base, env);
    InstallListing(StageSpec(h, fs, base, env).fs, Extracted(h, fs, base, env).fs, fs, env.run.entries,
      temp, base + "/" + h.name, "/" + t, "/" + t + "/" + c1, "/" + t + "/" + c2);
  }

  /** If everything below `final` has its counterpart below `temp` in `e`,
      which holds `temp`, three entries below it and a tree with nothing at
      or below `temp`, then `final` holds just those three entries. */
  lemma InstallListing(s: Tree, e: Tree, fs: Tree, entries: Tree, temp: string, final: string, r1: string, r2: string, r3: string)
    requires e == fs[temp := Dir(TempDirMode)] + entries
    requires Absent(fs, temp) && entries.Keys == {temp + r1, temp + r2, temp + r3}
    requires forall k :: k in s && Within(k, final) ==> temp + k[|final|..] in e
    ensures forall k :: k in s && Within(k, final) ==> k in {final, final + r1, final + r2, final + r3}
  {
    forall k | k in s && Within(k, final)
      ensures k in {final, final + r1, final + r2, final + r3}
    {
      TreeEntryBelow(e, fs, entries, temp, final, k, r1, r2, r3);
    }
  }

  /** A path below `final` whose counterpart below `temp` is in a tree made of
      `temp`, the entries `temp + r1`, `temp + r2`, `temp + r3`, and a tree with
      nothing at or below `temp` is `final` or one of `final + r1`, `final + r2`,
      `final + r3`. */
  lemma TreeEntryBelow(t: Tree, fs: Tree, entries: Tree, temp: string, final: string, k: string, r1: string, r2: string, r3: string)
    requires t == fs[temp := Dir(TempDirMode)] + entries
    requires Absent(fs, temp) && entries.Keys == {temp + r1, temp + r2, temp + r3}
    requires Within(k, final) && temp + k[|final|..] in t
    ensures k in {final, final + r1, final + r2, final + r3}
  {
    var r := k[|final|..];
    assert k == final + r;
    assert (temp + r)[|temp|..] == r;
    if r == "" {
    } else if temp + r in entries {
      assert (temp + r1)[|temp|..] == r1;
      assert (temp + r2)[|temp|..] == r2;
      assert (temp + r3)[|temp|..] == r3;
    } else {
      assert false;
    }
  }
}
