/** The part of the file system the staging protocol touches: a finite map
    from absolute path to node, the handful of `os`/`shutil` operations the
    handlers call on it, and `layman.utils.path`, which builds the paths. */
module FileSystem {
  import opened Wrappers
  import opened Strings

  /** A directory or a regular file, with its permission bits. */
  datatype Node = Dir(mode: int) | File(mode: int, data: string)

  type Tree = map<string, Node>

  /** Mode of a directory made by `tempfile.mkdtemp`. */
  const TempDirMode := 0x1C0   // 0o700
  /** Mode `os.chmod` gives an installed overlay. */
  const InstalledMode := 0x1ED // 0o755
  /** Mode of a file newly made by `open(..., 'w+b')`, under umask 022. */
  const NewFileMode := 0x1A4   // 0o644

  /** `k` is `p` itself or lies below it. */
  predicate Within(k: string, p: string) {
    k == p || p + "/" <= k
  }

  /** No path lies below both `p` and `q`. */
  ghost predicate Apart(p: string, q: string) {
    forall k :: !(Within(k, p) && Within(k, q))
  }

  /** `a` and `b` agree at `k`: both lack it, or both hold the same node. */
  predicate Same(a: Tree, b: Tree, k: string) {
    (k in a <==> k in b) && (k in a ==> a[k] == b[k])
  }

  /** Nothing at or below `p` exists. */
  predicate Absent(fs: Tree, p: string) {
    forall k :: k in fs ==> !Within(k, p)
  }

  /** The entries at or below `p`, as they are. */
  function Subtree(fs: Tree, p: string): (r: Tree)
    ensures forall k :: k in r <==> k in fs && Within(k, p)
  {
    map k | k in fs && Within(k, p) :: fs[k]
  }

  /** Trees that agree at and below `p` have the same subtree there. */
  lemma SubtreeAgrees(a: Tree, b: Tree, p: string)
    requires forall k :: Within(k, p) ==> Same(a, b, k)
    ensures Subtree(a, p) == Subtree(b, p)
  {
    assert Subtree(a, p).Keys == Subtree(b, p).Keys;
  }

  /** `shutil.rmtree(p)`, or `os.unlink(p)` on a file: `p` and everything
      below it disappear, everything else stays. */
  function RemoveTree(fs: Tree, p: string): (r: Tree)
    ensures Absent(r, p)
    ensures forall k :: k in fs && !Within(k, p) ==> k in r && r[k] == fs[k]
    ensures forall k :: k in r ==> k in fs
  {
    map k | k in fs && !Within(k, p) :: fs[k]
  }

  /** Making a fresh path and removing it again changes nothing. */
  lemma RemoveFresh(fs: Tree, p: string, n: Node)
    requires Absent(fs, p)
    ensures RemoveTree(fs[p := n], p) == fs
  {
    assert RemoveTree(fs[p := n], p).Keys == fs.Keys;
  }

  /** The path `k`, below `src`, would have once `src` is renamed `dst`. */
  function Moved(k: string, src: string, dst: string): string
    requires Within(k, src)
  {
    dst + k[|src|..]
  }

  lemma MovedWithin(k: string, src: string, dst: string)
    requires Within(k, src)
    ensures Within(Moved(k, src, dst), dst)
  {
    if k != src {
      assert k[|src|..] == "/" + k[|src| + 1..];
      assert dst + "/" <= dst + k[|src|..];
    }
  }

  /** `os.rename(src, dst)`: the subtree at `src` reappears at `dst`,
      replacing whatever was below `dst`; the rest stays. */
  function Rename(fs: Tree, src: string, dst: string): Tree {
    MovedInjective(src, dst);
    var rest := map k | k in fs && !Within(k, src) && !Within(k, dst) :: fs[k];
    var moved := map k | k in fs && Within(k, src) :: Moved(k, src, dst) := fs[k];
    rest + moved
  }

  lemma MovedInjective(src: string, dst: string)
    ensures forall j, k :: Within(j, src) && Within(k, src) && Moved(j, src, dst) == Moved(k, src, dst) ==> j == k
  {
    forall j, k | Within(j, src) && Within(k, src) && Moved(j, src, dst) == Moved(k, src, dst)
      ensures j == k
    {
      assert j[|src|..] == Moved(j, src, dst)[|dst|..] == k[|src|..];
      assert j == j[..|src|] + j[|src|..];
      assert k == k[..|src|] + k[|src|..];
    }
  }

  /** Renaming keeps the content of every moved path. */
  lemma RenameMoves(fs: Tree, src: string, dst: string, k: string)
    requires k in fs && Within(k, src)
    ensures Moved(k, src, dst) in Rename(fs, src, dst)
    ensures Rename(fs, src, dst)[Moved(k, src, dst)] == fs[k]
  {
    MovedInjective(src, dst);
    var moved := map k | k in fs && Within(k, src) :: Moved(k, src, dst) := fs[k];
    assert Moved(k, src, dst) in moved;
  }

  /** Renaming removes `src`, and leaves alone what is apart from both ends. */
  lemma RenameFrame(fs: Tree, src: string, dst: string)
    requires Apart(src, dst)
    ensures forall k :: k in fs && !Within(k, src) && !Within(k, dst) ==> k in Rename(fs, src, dst) && Rename(fs, src, dst)[k] == fs[k]
    ensures forall k :: k in Rename(fs, src, dst) ==> !Within(k, src)
  {
    MovedInjective(src, dst);
    var moved := map k | k in fs && Within(k, src) :: Moved(k, src, dst) := fs[k];
    forall k | k in moved
      ensures Within(k, dst)
    {
      var j :| j in fs && Within(j, src) && k == Moved(j, src, dst);
      MovedWithin(j, src, dst);
    }
  }

  /** After a rename, a path outside `dst` is one that was there before. */
  lemma RenameKeepsOthers(fs: Tree, src: string, dst: string, k: string)
    requires k in Rename(fs, src, dst) && !Within(k, dst)
    ensures k in fs && Rename(fs, src, dst)[k] == fs[k]
  {
    MovedInjective(src, dst);
    var rest := map k | k in fs && !Within(k, src) && !Within(k, dst) :: fs[k];
    var moved := map k | k in fs && Within(k, src) :: Moved(k, src, dst) := fs[k];
    if k in moved {
      var j :| j in fs && Within(j, src) && k == Moved(j, src, dst);
      MovedWithin(j, src, dst);
    }
  }

  /** After a rename, whatever lies below `dst` came from below `src`. */
  lemma RenameOrigin(fs: Tree, src: string, dst: string)
    ensures forall k :: k in Rename(fs, src, dst) && Within(k, dst) ==> Within(k, dst) && src + k[|dst|..] in fs
  {
    forall k | k in Rename(fs, src, dst) && Within(k, dst)
      ensures src + k[|dst|..] in fs
    {
      RenameOriginAt(fs, src, dst, k);
    }
  }

  lemma RenameOriginAt(fs: Tree, src: string, dst: string, k: string)
    requires k in Rename(fs, src, dst) && Within(k, dst)
    ensures src + k[|dst|..] in fs
  {
    MovedInjective(src, dst);
    var moved := map k | k in fs && Within(k, src) :: Moved(k, src, dst) := fs[k];
    assert k in moved;
    var j :| j in fs && Within(j, src) && k == Moved(j, src, dst);
    assert k[|dst|..] == j[|src|..];
    WithinSplit(j, src);
  }

  /** A path within `p` is `p` followed by the rest of it. */
  lemma WithinSplit(j: string, p: string)
    requires Within(j, p)
    ensures j == p + j[|p|..]
  {
    assert j[..|p|] == p;
    assert j == j[..|p|] + j[|p|..];
  }

  /** `os.chmod(p, mode)` on an existing path. */
  function Chmod(fs: Tree, p: string, mode: int): (r: Tree)
    requires p in fs
    ensures r.Keys == fs.Keys && r[p].mode == mode
    ensures forall k :: k in fs && k != p ==> r[k] == fs[k]
  {
    fs[p := if fs[p].Dir? then Dir(mode) else File(mode, fs[p].data)]
  }

  /** `open(p, 'w+b').write(data)`: a directory in the way is an error
      (`None`); an existing file keeps its mode and loses its content. */
  function WriteFile(fs: Tree, p: string, data: string): (r: Option<Tree>)
    ensures r.None? <==> p in fs && fs[p].Dir?
    ensures r.Some? ==> p in r.value && r.value[p].File? && r.value[p].data == data
    ensures r.Some? ==> r.value.Keys == fs.Keys + {p}
    ensures r.Some? ==> forall k :: k in fs && k != p ==> r.value[k] == fs[k]
  {
    if p in fs && fs[p].Dir? then None
    else if p in fs then Some(fs[p := File(fs[p].mode, data)])
    else Some(fs[p := File(NewFileMode, data)])
  }

  // ------------------------------------------------------ layman.utils.path

  /** Each element followed by a separator. */
  function Slashed(parts: seq<string>): string {
    if parts == [] then "" else parts[0] + "/" + Slashed(parts[1..])
  }

  ghost predicate NoDoubleSlash(s: string) {
    forall i, j :: 0 <= i < j < |s| && j == i + 1 ==> !(s[i] == '/' && s[j] == '/')
  }

  /** Every run of separators in `s[i..]` collapsed into one. */
  function Squash(s: string, i: nat): (r: string)
    requires i <= |s|
    ensures i < |s| ==> r != [] && r[0] == s[i]
    ensures i == |s| ==> r == []
    ensures NoDoubleSlash(r)
    decreases |s| - i
  {
    if |s| - i < 2 then s[i..]
    else if s[i] == '/' && s[i + 1] == '/' then Squash(s, i + 1)
    else [s[i]] + Squash(s, i + 1)
  }

  /** `layman.utils.path`: the elements joined by single separators, with no
      separator at the end. */
  function PathJoin(parts: seq<string>): (r: string)
    ensures NoDoubleSlash(r)
    ensures r == [] || r[|r| - 1] != '/'
  {
    var s := Squash(Slashed(parts), 0);
    if s != [] && s[|s| - 1] == '/' then s[..|s| - 1] else s
  }

  lemma {:induction false} SquashNoDouble(s: string, i: nat)
    requires i <= |s| && NoDoubleSlash(s)
    ensures Squash(s, i) == s[i..]
    decreases |s| - i
  {
    if |s| - i >= 2 {
      SquashNoDouble(s, i + 1);
      assert [s[i]] + s[i + 1..] == s[i..];
    }
  }

  /** A base directory as layman's configuration gives it. */
  ghost predicate CanonicalDir(base: string) {
    base != [] && base[|base| - 1] != '/' && NoDoubleSlash(base)
  }

  /** A single path component. */
  predicate Component(name: string) {
    name != [] && '/' !in name
  }

  /** Python 2's `os.path.join(a, b)`: an absolute `b` replaces `a`;
      otherwise a separator is added only when `a` is non-empty and does
      not already end in one. */
  function OsPathJoin(a: string, b: string): (r: string)
    ensures b != [] && b[0] == '/' ==> r == b
    ensures (b == [] || b[0] != '/') ==> a <= r && r[|a|..] == (if a == [] || a[|a| - 1] == '/' then b else "/" + b)
  {
    if b != [] && b[0] == '/' then b
    else if a == [] || a[|a| - 1] == '/' then a + b
    else a + "/" + b
  }

  /** For a canonical directory and a component, `os.path.join` and
      `layman.utils.path` agree. */
  lemma OsPathJoinChild(base: string, name: string)
    requires CanonicalDir(base) && Component(name)
    ensures OsPathJoin(base, name) == PathJoin([base, name]) == base + "/" + name
  {
    ChildPath(base, name);
  }

  /** Joining a canonical directory and a component is plain concatenation. */
  lemma ChildPath(base: string, name: string)
    requires CanonicalDir(base) && Component(name)
    ensures PathJoin([base, name]) == base + "/" + name
  {
    var s := base + "/" + name + "/";
    assert Slashed([base, name]) == s by {
      assert [base, name][1..] == [name];
      assert [name][1..] == [];
      assert Slashed([name]) == name + "/";
    }
    forall i, j | 0 <= i < j < |s| && j == i + 1
      ensures !(s[i] == '/' && s[j] == '/')
    {
      if j < |base| {
        assert s[i] == base[i] && s[j] == base[j];
      } else if j == |base| {
        assert s[i] == base[|base| - 1];
      } else if j < |base| + 1 + |name| {
        assert s[j] == name[j - |base| - 1];
      } else {
        assert s[i] == name[|name| - 1];
      }
    }
    SquashNoDouble(s, 0);
    assert s[..|s| - 1] == base + "/" + name;
  }

  /** What lying below `base/n` says about the characters of a path. */
  lemma ChildChars(k: string, base: string, n: string)
    requires Component(n) && Within(k, base + "/" + n)
    ensures |k| >= |base| + 1 + |n|
    ensures k[|base| + 1..|base| + 1 + |n|] == n
    ensures |k| == |base| + 1 + |n| || k[|base| + 1 + |n|] == '/'
  {
    var p := base + "/" + n;
    assert k[..|p|] == p;
    assert p[|base| + 1..] == n;
  }

  /** Two different components of one directory name disjoint subtrees. */
  lemma SiblingsApart(base: string, n: string, m: string)
    requires Component(n) && Component(m) && n != m
    ensures Apart(base + "/" + n, base + "/" + m)
  {
    forall k | Within(k, base + "/" + n)
      ensures !Within(k, base + "/" + m)
    {
      ChildChars(k, base, n);
      var b := |base| + 1;
      if |n| < |m| && |k| >= b + |m| {
        assert k[b..b + |m|][|n|] == k[b + |n|];
      } else if |m| < |n| && |k| >= b + |m| {
        assert k[b..b + |n|][|m|] == k[b + |m|];
      } else if |k| >= b + |m| {
        assert k[b..b + |m|] == k[b..b + |n|];
      }
    }
  }

  /** The examples the path helper is documented and exercised with. */
  lemma PathJoinExample0()
    ensures PathJoin([]) == ""
  {
    assert Slashed([]) == "";
  }

  lemma PathJoinExample1()
    ensures PathJoin(["a"]) == "a"
  {
    assert Slashed(["a"]) == "a/";
  }

  lemma PathJoinExample2()
    ensures PathJoin(["a", "b"]) == "a/b"
  {
    var s := "a/b/";
    assert Slashed(["a", "b"]) == s;
    var q := Squash(s, 0);
    assert q == "a/b/";
    assert q[..|q| - 1] == "a/b";
  }

  lemma PathJoinExample3()
    ensures PathJoin(["a/", "b"]) == "a/b"
  {
    var s := "a//b/";
    assert Slashed(["a/", "b"]) == s;
    var q := Squash(s, 0);
    assert q == "a/b/";
    assert q[..|q| - 1] == "a/b";
  }

  lemma PathJoinExample4()
    ensures PathJoin(["/a/", "b"]) == "/a/b"
  {
    var s := "/a//b/";
    assert Slashed(["/a/", "b"]) == s;
    var q := Squash(s, 0);
    assert q == "/a/b/";
    assert q[..|q| - 1] == "/a/b";
  }

  lemma PathJoinExample5()
    ensures PathJoin(["/a", "/b/"]) == "/a/b"
  {
    var s := "/a//b//";
    assert Slashed(["/a", "/b/"]) == s;
    var q := Squash(s, 0);
    assert q == "/a/b/";
    assert q[..|q| - 1] == "/a/b";
  }

  lemma PathJoinExample6()
    ensures PathJoin(["/a/", "b/"]) == "/a/b"
  {
    var s := "/a//b//";
    assert Slashed(["/a/", "b/"]) == s;
    var q := Squash(s, 0);
    assert q == "/a/b/";
    assert q[..|q| - 1] == "/a/b";
  }

  lemma PathJoinExample7()
    ensures PathJoin(["/a/", "/b/"]) == "/a/b"
  {
    var s := "/a///b//";
    assert Slashed(["/a/", "/b/"]) == s;
    var q := Squash(s, 0);
    assert q == "/a/b/";
    assert q[..|q| - 1] == "/a/b";
  }

  lemma PathJoinExample8()
    ensures PathJoin(["/a/", "/b", "c/"]) == "/a/b/c"
  {
    var s := "/a///b/c//";
    assert Slashed(["/a/", "/b", "c/"]) == s;
    var q := Squash(s, 0);
    assert q == "/a/b/c/";
    assert q[..|q| - 1] == "/a/b/c";
  }
}
