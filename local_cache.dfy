/** clients/local.py: the on-disk cache of GitHub entries, as an in-memory directory tree
    under the cache root. */
module LocalCache {
  import opened Wrappers
  import opened Json
  import Text

  /** A path below the cache root, one directory or file name per segment; `[]` is the root. */
  type Path = seq<string>

  /** `os.path.join(root, filePath)` as a list of names: the string split on `/`, with the
      empty names a doubled `/` leaves dropped (the file system skips them). */
  function PathOf(filePath: string): (p: Path)
    ensures forall k :: 0 <= k < |p| ==> p[k] != "" && '/' !in p[k]
  {
    NonEmpty(Text.Split(filePath, '/'))
  }

  function NonEmpty(names: seq<string>): (r: seq<string>)
    requires forall n :: n in names ==> '/' !in n
    ensures forall k :: 0 <= k < |r| ==> r[k] != "" && '/' !in r[k]
  {
    if names == [] then []
    else (if names[0] == "" then [] else [names[0]]) + NonEmpty(names[1..])
  }

  /** `file_name if file_name else "data.json"` (lines 21, 38): a missing or empty name is
      the default. */
  function FileName(fileName: Option<string>): (name: string)
    ensures fileName.None? || fileName.value == "" ==> name == "data.json"
    ensures fileName.Some? && fileName.value != "" ==> name == fileName.value
  {
    if fileName.Some? && fileName.value != "" then fileName.value else "data.json"
  }

  /** The directories and the stored JSON files; a file is keyed by its directory's path
      followed by its name. */
  datatype Tree = Tree(dirs: set<Path>, files: map<Path, Data>)

  /** A file system tree: every prefix of a directory is a directory, every file sits in a
      directory, and no path is both. */
  ghost predicate ValidTree(t: Tree) {
    (forall d, k :: d in t.dirs && 0 <= k <= |d| ==> d[..k] in t.dirs) &&
    (forall f :: f in t.files ==> |f| >= 1 && f[..|f| - 1] in t.dirs && f !in t.dirs)
  }

  /** `os.path.exists`: a directory or a file. */
  predicate Exists(t: Tree, p: Path) {
    p in t.dirs || p in t.files
  }

  /** The paths `os.makedirs(p)` needs. */
  function Prefixes(p: Path): set<Path> {
    set k | 0 <= k <= |p| :: p[..k]
  }

  // ---------------------------------------------------------------------------------------
  // save / load / delete, as functions of the tree

  /** The tree after `save(data, p, name)` (lines 20-35), or None where it raises `OSError`.
      A path that does not exist is created with all its missing parents and the data stored
      as given; that fails when one of its parents is a file. An existing directory's file is
      replaced by the old object updated with the new one (`{**old, **new}`); that fails when
      the path is a file or the file is missing. */
  function Write(t: Tree, p: Path, name: string, data: Data): (r: Option<Tree>)
    ensures r.Some? && Exists(t, p) ==> p in t.dirs && p + [name] in t.files
    ensures r.Some? ==> (p + [name] in r.value.files &&
      r.value.files[p + [name]] == (if Exists(t, p) then t.files[p + [name]] + data else data))
    ensures r.Some? ==> t.dirs <= r.value.dirs && p in r.value.dirs
    ensures r.Some? ==> (forall f :: f in t.files && f != p + [name] ==>
      f in r.value.files && r.value.files[f] == t.files[f])
    ensures r.Some? ==> r.value.files.Keys == t.files.Keys + {p + [name]}
    ensures r.Some? ==> r.value.dirs == (if Exists(t, p) then t.dirs else t.dirs + Prefixes(p))
    ensures r.None? <==>
      if Exists(t, p) then !(p in t.dirs && p + [name] in t.files)
      else exists k :: 0 <= k < |p| && p[..k] in t.files
  {
    if !Exists(t, p) then
      if exists k :: 0 <= k < |p| && p[..k] in t.files then None
      else
        assert p[..|p|] == p;
        Some(Tree(t.dirs + Prefixes(p), t.files[p + [name] := data]))
    else if p in t.dirs && p + [name] in t.files then
      Some(Tree(t.dirs, t.files[p + [name] := t.files[p + [name]] + data]))
    else None
  }

  datatype ReadResult =
    | Hit(data: Data)
    /** `NoCachedData`: the directory does not exist. */
    | Missing
    /** The directory exists but the file cannot be opened (`OSError`). */
    | LoadFailed

  /** `load(p, name)` (lines 37-46). */
  function Read(t: Tree, p: Path, name: string): (r: ReadResult)
    ensures r == Missing <==> !Exists(t, p)
    ensures r.Hit? <==> Exists(t, p) && p + [name] in t.files && p in t.dirs
  {
    if !Exists(t, p) then Missing
    else if p in t.dirs && p + [name] in t.files then Hit(t.files[p + [name]])
    else LoadFailed
  }

  /** The tree after `shutil.rmtree(p)` with its errors ignored (line 50): the directory and
      everything under it; a missing path or a file is left alone. */
  function Rmtree(t: Tree, p: Path): Tree {
    if p in t.dirs then
      Tree((set d | d in t.dirs && !(p <= d)), (map f | f in t.files && !(p <= f) :: t.files[f]))
    else t
  }

  /** A directory with nothing under it, but the root. */
  predicate EmptyDir(t: Tree, d: Path) {
    d != [] && (forall x :: x in t.dirs ==> !(d < x)) && (forall f :: f in t.files ==> !(d < f))
  }

  /** What the bottom-up walk (lines 52-57) keeps: the root and every directory with a file
      somewhere under it. */
  function Pruned(t: Tree): Tree {
    Tree((set d | d in t.dirs && (d == [] || HasFileUnder(t, d))), t.files)
  }

  predicate HasFileUnder(t: Tree, d: Path) {
    exists f :: f in t.files && d < f
  }

  /** `delete(p)` (lines 48-57). */
  function Remove(t: Tree, p: Path): Tree {
    Pruned(Rmtree(t, p))
  }

  // ---------------------------------------------------------------------------------------
  // Properties of the tree operations

  lemma {:induction false} PrefixesArePrefixes(p: Path)
    ensures forall q :: q in Prefixes(p) <==> q <= p
  {
    forall q ensures q in Prefixes(p) <==> q <= p {
      if q <= p {
        assert q == p[..|q|];
      }
    }
  }

  /** Saving keeps the tree a tree. */
  lemma {:induction false} WriteValid(t: Tree, p: Path, name: string, data: Data)
    requires ValidTree(t)
    requires Write(t, p, name, data).Some?
    ensures ValidTree(Write(t, p, name, data).value)
  {
    var t' := Write(t, p, name, data).value;
    if !Exists(t, p) {
      PrefixesArePrefixes(p);
      forall q | q <= p ensures q !in t.files {
        if |q| < |p| {
          assert q == p[..|q|];
        } else {
          assert q == p;
        }
      }
      forall d, k | d in t'.dirs && 0 <= k <= |d| ensures d[..k] in t'.dirs {
        if d !in t.dirs {
          assert d <= p;
          assert d[..k] <= p;
        }
      }
      var f := p + [name];
      assert f[..|f| - 1] == p;
      assert f[..|p|] == p;
      forall g | g in t'.files ensures |g| >= 1 && g[..|g| - 1] in t'.dirs && g !in t'.dirs {
        if g == f {
          assert f !in t.dirs;
          assert f !in Prefixes(p);
        } else {
          assert g in t.files;
          assert g !in Prefixes(p);
        }
      }
    }
  }

  /** What was saved at a new path is what is loaded back. */
  lemma {:induction false} WriteThenReadNew(t: Tree, p: Path, name: string, data: Data)
    requires !Exists(t, p) && Write(t, p, name, data).Some?
    ensures Read(Write(t, p, name, data).value, p, name) == Hit(data)
  {
    PrefixesArePrefixes(p);
  }

  /** A save to an existing path succeeds exactly when a load would find the file, and then
      loads back the old object updated with the new one: new keys win, old-only keys stay. */
  lemma {:induction false} WriteThenReadExisting(t: Tree, p: Path, name: string, data: Data)
    requires Exists(t, p)
    ensures Write(t, p, name, data).Some? <==> Read(t, p, name).Hit?
    ensures Write(t, p, name, data).Some? ==>
      var r := Read(Write(t, p, name, data).value, p, name);
      r.Hit? && r.data == Read(t, p, name).data + data &&
      (forall k :: k in data ==> r.data[k] == data[k]) &&
      (forall k :: k in Read(t, p, name).data && k !in data ==> r.data[k] == Read(t, p, name).data[k])
  {
  }

  /** Two saves to a path that did not exist load back the first object updated with the
      second. */
  lemma {:induction false} SaveSaveLoad(t: Tree, p: Path, name: string, a: Data, b: Data)
    requires !Exists(t, p) && Write(t, p, name, a).Some?
    ensures Write(Write(t, p, name, a).value, p, name, b).Some?
    ensures Read(Write(Write(t, p, name, a).value, p, name, b).value, p, name) == Hit(a + b)
  {
    var t1 := Write(t, p, name, a).value;
    WriteThenReadNew(t, p, name, a);
    WriteThenReadExisting(t1, p, name, b);
  }

  /** Deleting keeps the tree a tree. */
  lemma {:induction false} RemoveValid(t: Tree, p: Path)
    requires ValidTree(t)
    ensures ValidTree(Remove(t, p))
  {
    var r := Rmtree(t, p);
    RmtreeValid(t, p);
    var q := Pruned(r);
    forall d, k | d in q.dirs && 0 <= k <= |d| ensures d[..k] in q.dirs {
      if d != [] {
        var f :| f in r.files && d < f;
        PrefixTrans(d[..k], d, f);
      }
    }
    forall f | f in q.files ensures |f| >= 1 && f[..|f| - 1] in q.dirs && f !in q.dirs {
      assert f[..|f| - 1] in r.dirs;
      assert f[..|f| - 1] == [] || f[..|f| - 1] < f;
    }
  }

  /** After a delete nothing under the deleted path is left, when it was a directory or
      missing. */
  lemma {:induction false} RemoveClearsSubtree(t: Tree, p: Path)
    requires ValidTree(t) && p !in t.files
    ensures forall x :: p <= x ==> x !in Remove(t, p).dirs && x !in Remove(t, p).files
  {
    if p !in t.dirs {
      forall x | p <= x ensures x !in t.dirs && x !in t.files {
        assert x[..|p|] == p;
        if x != p {
          assert p <= x[..|x| - 1];
          assert (x[..|x| - 1])[..|p|] == p;
        }
      }
    }
  }

  /** So a load of the deleted path is a miss. */
  lemma ReadAfterRemove(t: Tree, p: Path, name: string)
    requires ValidTree(t) && p !in t.files
    ensures Read(Remove(t, p), p, name) == Missing
  {
    RemoveClearsSubtree(t, p);
  }

  /** A delete changes no stored object outside the deleted path, nor which of them exist. */
  lemma {:induction false} RemoveKeepsOthers(t: Tree, p: Path)
    ensures forall f :: !(p <= f) ==>
      (f in Remove(t, p).files <==> f in t.files) &&
      (f in t.files ==> Remove(t, p).files[f] == t.files[f])
  {
  }

  /** After a delete no directory but the root is empty, and the root is kept unless the
      deleted path is the root itself. */
  lemma {:induction false} RemoveLeavesNoEmptyDir(t: Tree, p: Path)
    requires ValidTree(t)
    ensures forall d :: d in Remove(t, p).dirs ==> !EmptyDir(Remove(t, p), d)
    ensures p != [] && [] in t.dirs ==> [] in Remove(t, p).dirs
  {
    var q := Remove(t, p);
    forall d | d in q.dirs ensures !EmptyDir(q, d) {
      if d != [] {
        var f :| f in q.files && d < f;
      }
    }
    if p != [] && [] in t.dirs {
      assert !(p <= []);
    }
  }

  // ---------------------------------------------------------------------------------------
  // LocalCacheClient

  /** The depth of the deepest directory of `ds`: where the bottom-up walk starts. */
  method Deepest(ds: set<Path>) returns (level: nat)
    ensures forall d :: d in ds ==> |d| <= level
    ensures ds != {} ==> exists d :: d in ds && |d| == level
  {
    level := 0;
    var rest := ds;
    while rest != {}
      invariant rest <= ds
      invariant forall d :: d in ds && d !in rest ==> |d| <= level
      invariant (exists d :: d in ds && d !in rest) ==> exists d :: d in ds && |d| == level
      decreases |rest|
    {
      var d :| d in rest;
      if |d| > level || ds - rest == {} {
        level := |d|;
      }
      rest := rest - {d};
    }
  }

  class LocalCacheClient {
    var dirs: set<Path>
    var files: map<Path, Data>

    function State(): Tree
      reads this
    {
      Tree(dirs, files)
    }

    ghost predicate Valid()
      reads this
    {
      ValidTree(State())
    }

    /** `LocalCacheClient(dir_path)` (lines 14-18) over what is on disk: the root is created
        when it is missing. */
    constructor (disk: Tree)
      requires ValidTree(disk)
      ensures State() == Tree(disk.dirs + {[]}, disk.files)
      ensures Valid()
    {
      dirs := disk.dirs + {[]};
      files := disk.files;
    }

    /** `save(data, file_path, file_name)`; `ok` is false where it raises. */
    method Save(data: Data, filePath: string, fileName: Option<string>) returns (ok: bool)
      requires Valid()
      modifies this
      ensures ok <==> Write(old(State()), PathOf(filePath), FileName(fileName), data).Some?
      ensures ok ==> State() == Write(old(State()), PathOf(filePath), FileName(fileName), data).value
      ensures !ok ==> State() == old(State())
      ensures Valid()
    {
      var p := PathOf(filePath);
      var name := FileName(fileName);
      var w := Write(State(), p, name, data);
      if w.Some? {
        WriteValid(State(), p, name, data);
        if !(p in dirs || p in files) {
          dirs := dirs + Prefixes(p);
          files := files[p + [name] := data];
        } else {
          files := files[p + [name] := files[p + [name]] + data];
        }
        ok := true;
      } else {
        ok := false;
      }
    }

    /** `load(file_path, file_name)`. */
    method Load(filePath: string, fileName: Option<string>) returns (r: ReadResult)
      ensures r == Read(State(), PathOf(filePath), FileName(fileName))
    {
      var p := PathOf(filePath);
      var name := FileName(fileName);
      if !(p in dirs || p in files) {
        r := Missing;
      } else if p in dirs && p + [name] in files {
        r := Hit(files[p + [name]]);
      } else {
        r := LoadFailed;
      }
    }

    /** `delete(dir_path)`: the `rmtree`, then the bottom-up walk, deepest directories
        first, removing every directory but the root that has become empty. */
    method Delete(dirPath: string)
      requires Valid()
      modifies this
      ensures State() == Remove(old(State()), PathOf(dirPath))
      ensures Valid()
    {
      var p := PathOf(dirPath);
      RemoveValid(State(), p);
      if p in dirs {
        dirs := set d | d in dirs && !(p <= d);
        files := map f | f in files && !(p <= f) :: files[f];
      }
      ghost var removed := State();
      assert removed == Rmtree(old(State()), p);
      RmtreeValid(old(State()), p);

      var level := Deepest(dirs);

      while level > 0
        invariant files == removed.files
        invariant Pruned(removed).dirs <= dirs <= removed.dirs
        invariant forall d :: d in dirs && |d| > level ==> d in Pruned(removed).dirs
        decreases level
      {
        PruneStep(removed, dirs, level);
        dirs := PruneLevel(State(), level);
        level := level - 1;
      }
      assert dirs == Pruned(removed).dirs;
    }
  }

  lemma {:induction false} RmtreeValid(t: Tree, p: Path)
    requires ValidTree(t)
    ensures ValidTree(Rmtree(t, p))
  {
    var r := Rmtree(t, p);
    if p in t.dirs {
      forall d, k | d in r.dirs && 0 <= k <= |d| ensures d[..k] in r.dirs {
        PrefixTrans(p, d[..k], d);
      }
      forall f | f in r.files ensures |f| >= 1 && f[..|f| - 1] in r.dirs && f !in r.dirs {
        PrefixTrans(p, f[..|f| - 1], f);
      }
    }
  }

  lemma {:induction false} PrefixTrans(a: Path, b: Path, c: Path)
    ensures a <= b && b <= c ==> a <= c
    ensures a <= b && b < c ==> a < c
  {
    if a <= b && b <= c {
      assert c[..|b|][..|a|] == c[..|a|];
    }
  }

  /** A directory with a kept directory below it has a file below it. */
  lemma {:induction false} DeeperKept(t: Tree, dirs: set<Path>, d: Path, level: nat)
    requires forall x :: x in dirs && |x| > level ==> x in Pruned(t).dirs
    requires |d| == level
    ensures forall x :: x in dirs && d < x ==> HasFileUnder(t, d)
  {
    forall x | x in dirs && d < x ensures HasFileUnder(t, d) {
      var f :| f in t.files && x < f;
      PrefixTrans(d, x, f);
    }
  }

  /** One round of the walk: the directories at `level` that are empty go. */
  function PruneLevel(t: Tree, level: nat): set<Path> {
    set d | d in t.dirs && !(|d| == level && EmptyDir(t, d))
  }

  /** Once every deeper directory left is one the walk keeps, a round at `level` removes
      exactly the directories at `level` that it does not keep. */
  lemma {:induction false} PruneStep(t: Tree, dirs: set<Path>, level: nat)
    requires level > 0
    requires Pruned(t).dirs <= dirs <= t.dirs
    requires forall d :: d in dirs && |d| > level ==> d in Pruned(t).dirs
    ensures Pruned(t).dirs <= PruneLevel(Tree(dirs, t.files), level) <= t.dirs
    ensures forall d :: d in PruneLevel(Tree(dirs, t.files), level) && |d| >= level ==>
      d in Pruned(t).dirs
  {
    var n := PruneLevel(Tree(dirs, t.files), level);
    forall d | d in Pruned(t).dirs ensures d in n {
      if d != [] {
        var f :| f in t.files && d < f;
      }
    }
    forall d | d in n && |d| >= level ensures d in Pruned(t).dirs {
      if |d| == level {
        DeeperKept(t, dirs, d, level);
      }
    }
  }
}
