/** The staging protocol shared by the archive, tar and squashfs overlay
    handlers: fetch or locate a package, unpack it into a fresh temporary
    directory next to the install, move the wanted sub-tree into place and
    clean up. The file system is a `Tree` owned by the handler object; the
    network, the unpacking tool, `mkdtemp` and `os.rename` are inputs. */
module Archives {
  import opened Wrappers
  import opened Strings
  import opened FileSystem

  /** Which of the three handler classes. */
  datatype Kind = Archive | Tar | Squashfs

  /** The handler's fixed settings: the owning overlay's name, the source URL,
      the branch (the empty string when the overlay names none), whether the
      kind's tool is available, the two cleaning switches of the
      configuration, and the extension the generic archive kind reports. */
  datatype Handler = Handler(
    kind: Kind,
    name: string,
    src: string,
    branch: string,
    supported: bool,
    cleanArchive: bool,
    cleanTar: bool,
    archiveExt: string)

  /** What the download connector gives back: a success flag and the
      content, or an exception. */
  datatype Fetch = Fetched(success: bool, content: string) | FetchRaised(message: string)

  /** What the unpacking tool does: exits with a code, having placed
      `entries` below the destination, or raises. */
  datatype Run = Exit(code: int, entries: Tree) | RunRaised(message: string)

  /** Everything outside the handler's control during one staging. */
  datatype Env = Env(tmpName: string, fetch: Fetch, run: Run, renameOk: bool)

  /** The exceptions the handlers raise. */
  datatype Failure =
    | FetcherUndefined
    | FetchFailed(message: string)
    | StoreFailed(pkg: string)
    | ExtractFailed(message: string)
    | MissingBranchPath(source: string)
    | RenameFailed(source: string, final: string)
    | AlreadyExists(target: string)

  /** A returned exit code or a raised exception. */
  datatype Outcome = Returned(code: int) | Raised(failure: Failure)

  /** The file system after a step, the tool invocations it made (argument
      lists, in order) and its outcome. */
  datatype Step = Step(fs: Tree, invoked: seq<seq<string>>, outcome: Outcome)

  // -------------------------------------------------------- tar extensions

  /** The suffixes the tar handler recognises, in the order it tries them. */
  const TarExtensions: seq<string> :=
    [".tar.bz2", ".tar.gz", ".tar.lzma", ".tar.xz", ".tar.Z", ".tgz", ".tbz", ".taz", ".tlz", ".txz"]

  /** The extension used when none of them matches. */
  const UnknownTarExtension := ".tar.noidea"

  /** The first candidate `src` ends with. */
  function FirstSuffix(src: string, cands: seq<string>): Option<string> {
    if cands == [] then None
    else if EndsWith(src, cands[0]) then Some(cands[0])
    else FirstSuffix(src, cands[1..])
  }

  /** The extension the tar handler gives the downloaded package. */
  function TarExtension(src: string): string {
    match FirstSuffix(src, TarExtensions)
    case Some(e) => e
    case None => UnknownTarExtension
  }

  /** The tar handler's loop over the candidate extensions. */
  method ChooseTarExtension(src: string) returns (ext: string)
    ensures ext == TarExtension(src)
  {
    ext := UnknownTarExtension;
    var i := 0;
    while i < |TarExtensions|
      invariant 0 <= i <= |TarExtensions|
      invariant FirstSuffix(src, TarExtensions) == FirstSuffix(src, TarExtensions[i..])
      invariant ext == UnknownTarExtension
    {
      if EndsWith(src, TarExtensions[i]) {
        ext := TarExtensions[i];
        break;
      }
      assert TarExtensions[i..][1..] == TarExtensions[i + 1..];
      i := i + 1;
    }
  }

  // ------------------------------------------------------------- packages

  /** A source without `file://` anywhere in it is downloaded. */
  predicate IsRemote(url: string) {
    !Contains(url, "file://")
  }

  /** A `file://` source names a package already on disk. */
  function LocalPath(url: string): string {
    ReplaceAll(url, "file://", "")
  }

  /** Where a downloaded package is stored. */
  function DownloadPath(h: Handler, base: string): string {
    match h.kind
    case Archive => PathJoin([base, h.name + h.archiveExt])
    case Tar => PathJoin([base, h.name + TarExtension(h.src)])
    case Squashfs => PathJoin([base, h.name])
  }

  /** The package the tool is pointed at. */
  function Package(h: Handler, base: string): string {
    if IsRemote(h.src) then DownloadPath(h, base) else LocalPath(h.src)
  }

  /** The path the download writes, when one is written. */
  function Written(h: Handler, base: string): Option<string> {
    if IsRemote(h.src) && h.kind != Archive then Some(DownloadPath(h, base)) else None
  }

  /** The configuration switch that asks for the package to be removed. */
  function CleanSetting(h: Handler): bool {
    if h.kind == Tar then h.cleanTar else h.cleanArchive
  }

  /** The arguments the tool receives: `tar -v -x -f PKG -C DEST`,
      `unsquashfs -d DEST -i -f PKG`, and for the generic archive kind its own
      `extract(pkg, dest)`. */
  function ToolArgs(kind: Kind, pkg: string, dest: string): (r: seq<string>)
    ensures pkg in r && dest in r
  {
    match kind
    case Tar => ["-v", "-x", "-f", pkg, "-C", dest]
    case Squashfs => ["-d", dest, "-i", "-f", pkg]
    case Archive => [pkg, dest]
  }

  /** The tool only places entries strictly below the destination. */
  ghost predicate RunBelow(run: Run, dest: string) {
    run.Exit? ==> forall k :: k in run.entries ==> dest + "/" <= k
  }

  // ----------------------------------------------------------- specification

  /** `_extract(base, src, dest)`. */
  function ExtractSpec(h: Handler, fs: Tree, base: string, dest: string, fetch: Fetch, run: Run): Step {
    if IsRemote(h.src) && h.kind == Archive then Step(fs, [], Raised(FetcherUndefined))
    else if IsRemote(h.src) && fetch.FetchRaised? then Step(fs, [], Raised(FetchFailed(fetch.message)))
    else
      var pkg := Package(h, base);
      var stored := if IsRemote(h.src) then WriteFile(fs, pkg, fetch.content) else Some(fs);
      if stored.None? then Step(fs, [], Raised(StoreFailed(pkg)))
      else
        var invoked := [ToolArgs(h.kind, pkg, dest)];
        match run
        case RunRaised(m) => Step(stored.value, invoked, Raised(ExtractFailed(m)))
        case Exit(code, entries) =>
          var placed := stored.value + entries;
          var cleaned := if IsRemote(h.src) && CleanSetting(h) then placed - {pkg} else placed;
          Step(cleaned, invoked, Returned(code))
  }

  /** The install directory of the overlay. */
  function FinalPath(h: Handler, base: string): string {
    PathJoin([base, h.name])
  }

  /** The directory `tempfile.mkdtemp(dir=base)` makes. */
  function TempPath(base: string, env: Env): string {
    OsPathJoin(base, env.tmpName)
  }

  /** The directory moved into place: the branch below the staging directory,
      or the staging directory itself. */
  function SourcePath(h: Handler, temp: string): string {
    if h.branch != "" then temp + "/" + h.branch else temp
  }

  /** `try_to_wipe(folder)`. */
  function Wipe(fs: Tree, folder: string): Tree {
    if folder in fs then RemoveTree(fs, folder) else fs
  }

  /** `if os.path.exists(final): self.delete(base)`. */
  function Cleared(fs: Tree, final: string): Tree {
    if final in fs then RemoveTree(fs, final) else fs
  }

  /** Renaming the staged tree into place and opening its permissions. */
  function Install(fs: Tree, source: string, final: string): Tree
    requires source in fs
  {
    RenameMoves(fs, source, final, source);
    assert Moved(source, source, final) == final;
    Chmod(Rename(fs, source, final), final, InstalledMode)
  }

  /** The part of `_add_unchecked` after a zero exit code: move the staged
      tree (or the branch inside it) over the install, then wipe the staging
      directory. */
  function PromoteSpec(h: Handler, fs: Tree, base: string, temp: string, renameOk: bool): (Tree, Outcome) {
    var final := FinalPath(h, base);
    var source := SourcePath(h, temp);
    if source !in fs then (fs, Raised(MissingBranchPath(source)))
    else
      var cleared := Cleared(fs, final);
      if !renameOk || source !in cleared then (cleared, Raised(RenameFailed(source, final)))
      else (Wipe(Install(cleared, source, final), temp), Returned(0))
  }

  /** The staging directory made, and the package unpacked into it. */
  function Extracted(h: Handler, fs: Tree, base: string, env: Env): Step {
    var temp := TempPath(base, env);
    ExtractSpec(h, fs[temp := Dir(TempDirMode)], base, temp, env.fetch, env.run)
  }

  /** `_add_unchecked(base)`. */
  function StageSpec(h: Handler, fs: Tree, base: string, env: Env): Step {
    var temp := TempPath(base, env);
    var e := Extracted(h, fs, base, env);
    if e.outcome.Raised? || e.outcome.code != 0 then Step(Wipe(e.fs, temp), e.invoked, e.outcome)
    else
      var p := PromoteSpec(h, e.fs, base, temp, env.renameOk);
      Step(p.0, e.invoked, p.1)
  }

  /** `add(base)`. */
  function AddSpec(h: Handler, fs: Tree, base: string, env: Env): Step {
    if !h.supported then Step(fs, [], Returned(1))
    else if FinalPath(h, base) in fs then Step(fs, [], Raised(AlreadyExists(FinalPath(h, base))))
    else StageSpec(h, fs, base, env)
  }

  /** `sync(base)`. */
  function SyncSpec(h: Handler, fs: Tree, base: string, env: Env): Step {
    if !h.supported then Step(fs, [], Returned(1))
    else StageSpec(h, fs, base, env)
  }

  /** What `mkdtemp` and the tool guarantee about one staging. */
  ghost predicate Staged(fs: Tree, base: string, env: Env) {
    && Component(env.tmpName)
    && Absent(fs, TempPath(base, env))
    && RunBelow(env.run, TempPath(base, env))
  }

  // ---------------------------------------------------------- the handler

  /** One archive, tar or squashfs handler object and the file system it
      works on; `commands` records every tool invocation. */
  class ArchiveSource {
    const h: Handler
    var fs: Tree
    var commands: seq<seq<string>>

    constructor (h: Handler, fs: Tree)
      ensures this.h == h && this.fs == fs && commands == []
    {
      this.h := h;
      this.fs := fs;
      commands := [];
    }

    /** `delete(base)`: the install directory and all below it go. */
    method Delete(base: string)
      modifies this
      ensures fs == RemoveTree(old(fs), FinalPath(h, base)) && commands == old(commands)
    {
      fs := RemoveTree(fs, FinalPath(h, base));
    }

    method TryToWipe(folder: string)
      modifies this
      ensures fs == Wipe(old(fs), folder) && commands == old(commands)
    {
      if folder in fs {
        fs := RemoveTree(fs, folder);
      }
    }

    /** `_extract(base, src, dest)`. */
    method Extract(base: string, dest: string, fetch: Fetch, run: Run) returns (out: Outcome)
      modifies this
      ensures var e := ExtractSpec(h, old(fs), base, dest, fetch, run);
        fs == e.fs && commands == old(commands) + e.invoked && out == e.outcome
    {
      var clean := CleanSetting(h);
      var pkg: string;
      if IsRemote(h.src) {
        if h.kind == Archive {
          return Raised(FetcherUndefined);
        }
        if fetch.FetchRaised? {
          return Raised(FetchFailed(fetch.message));
        }
        if h.kind == Tar {
          var ext := ChooseTarExtension(h.src);
          pkg := PathJoin([base, h.name + ext]);
        } else {
          pkg := PathJoin([base, h.name]);
        }
        if pkg in fs && fs[pkg].Dir? {
          return Raised(StoreFailed(pkg));
        }
        fs := WriteFile(fs, pkg, fetch.content).value;
      } else {
        clean := false;
        pkg := LocalPath(h.src);
      }
      commands := commands + [ToolArgs(h.kind, pkg, dest)];
      if run.RunRaised? {
        return Raised(ExtractFailed(run.message));
      }
      fs := fs + run.entries;
      if clean {
        fs := fs - {pkg};
      }
      out := Returned(run.code);
    }

    /** Moving the staged tree into place, once the tool exited with 0. */
    method Promote(base: string, temp: string, renameOk: bool) returns (out: Outcome)
      modifies this
      ensures (fs, out) == PromoteSpec(h, old(fs), base, temp, renameOk) && commands == old(commands)
    {
      var final := FinalPath(h, base);
      var source := if h.branch != "" then temp + "/" + h.branch else temp;
      if source in fs {
        if final in fs {
          Delete(base);
        }
        if !renameOk || source !in fs {
          return Raised(RenameFailed(source, final));
        }
        RenameMoves(fs, source, final, source);
        assert Moved(source, source, final) == final;
        fs := Rename(fs, source, final);
        fs := Chmod(fs, final, InstalledMode);
      } else {
        return Raised(MissingBranchPath(source));
      }
      TryToWipe(temp);
      out := Returned(0);
    }

    /** `_add_unchecked(base)`: `env.tmpName` is the name `mkdtemp` picks. */
    method AddUnchecked(base: string, env: Env) returns (out: Outcome)
      modifies this
      ensures var s := StageSpec(h, old(fs), base, env);
        fs == s.fs && commands == old(commands) + s.invoked && out == s.outcome
    {
      var temp := TempPath(base, env);
      fs := fs[temp := Dir(TempDirMode)];
      out := Extract(base, temp, env.fetch, env.run);
      if out.Raised? || out.code != 0 {
        TryToWipe(temp);
        return;
      }
      out := Promote(base, temp, env.renameOk);
    }

    /** `add(base)`: refuses to overwrite an existing install. */
    method Add(base: string, env: Env) returns (out: Outcome)
      modifies this
      ensures var s := AddSpec(h, old(fs), base, env);
        fs == s.fs && commands == old(commands) + s.invoked && out == s.outcome
    {
      if !h.supported {
        return Returned(1);
      }
      var target := FinalPath(h, base);
      if target in fs {
        return Raised(AlreadyExists(target));
      }
      out := AddUnchecked(base, env);
    }

    /** `sync(base)`: stages over whatever is installed. */
    method Sync(base: string, env: Env) returns (out: Outcome)
      modifies this
      ensures var s := SyncSpec(h, old(fs), base, env);
        fs == s.fs && commands == old(commands) + s.invoked && out == s.outcome
    {
      if !h.supported {
        return Returned(1);
      }
      out := AddUnchecked(base, env);
    }
  }
}
