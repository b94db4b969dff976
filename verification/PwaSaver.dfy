/**
 Saving a fetched web app: the flat list of assets becomes a directory tree, built from the
 deepest directories up. The tree holds every asset at its path and nothing else.
 */
module PwaSaver {
  import opened Text
  import opened HashTree
  import opened PathPlan
  import opened Wrappers

  datatype Stored = Stored(cid: Cid, size: nat)

  function DirOf(path: string): string
  {
    Join(Parts(path)[..|Parts(path)| - 1], '/')
  }

  function InDirectory(dir: string): string -> bool
  {
    path => DirOf(path) == dir
  }

  function TopLevel(): string -> bool
  {
    path => '/' !in path
  }

  /** The path leads to the file of the asset. */
  predicate IsAsset(assets: seq<Asset>, p: seq<string>, t: Option<Target>)
  {
    HoldsFile(t, Blob, true, LastData(assets, Join(p, '/')))
  }

  /** Under `base`, the directory `c` resolves exactly the asset paths and their directories. */
  ghost predicate Matches(assets: seq<Asset>, c: Cid, base: seq<string>)
  {
    forall q: seq<string> | q != [] :: MatchesAt(assets, c, base, q)
  }

  predicate MatchesAt(assets: seq<Asset>, c: Cid, base: seq<string>, q: seq<string>)
  {
    var r := ResolvePath(c, q);
    if IsFile(assets, base + q) then IsAsset(assets, base + q, r)
    else if IsDir(assets, base + q) then r.Some? && r.value.kind == Dir
    else r.None?
  }

  // ---- stored files and directory entries ----

  function StoredFiles(assets: seq<Asset>): (m: map<string, Stored>)
    ensures forall a | a in assets :: a.path in m
    ensures forall p | p in m :: m[p].cid == PutFile(LastData(assets, p), true) && m[p].size == |LastData(assets, p)|
  {
    if assets == [] then map[]
    else
      var a := assets[|assets| - 1];
      assert assets == assets[..|assets| - 1] + [a];
      StoredFiles(assets[..|assets| - 1])[a.path := Stored(PutFile(a.data, true), |a.data|)]
  }

  function FileEntry(files: map<string, Stored>, path: string): Entry
    requires path in files
  {
    Entry(NameOf(path), files[path].cid, files[path].size, Blob, None)
  }

  function DirEntry(dirs: map<string, Cid>, path: string): Entry
    requires path in dirs
  {
    Entry(NameOf(path), dirs[path], 0, Dir, None)
  }

  function FileEntries(assets: seq<Asset>, files: map<string, Stored>, where: string -> bool): seq<Entry>
    requires forall a | a in assets :: a.path in files
  {
    if assets == [] then []
    else
      var a := assets[|assets| - 1];
      var rest := FileEntries(assets[..|assets| - 1], files, where);
      if where(a.path) then rest + [FileEntry(files, a.path)] else rest
  }

  function DirEntries(order: seq<string>, dirs: map<string, Cid>, where: string -> bool): seq<Entry>
    requires forall d | d in order :: d in dirs
  {
    if order == [] then []
    else
      var d := order[|order| - 1];
      var rest := DirEntries(order[..|order| - 1], dirs, where);
      if where(d) then rest + [DirEntry(dirs, d)] else rest
  }

  lemma {:induction false} FileEntriesNone(assets: seq<Asset>, files: map<string, Stored>, where: string -> bool, n: string)
    requires forall a | a in assets :: a.path in files
    requires Find(FileEntries(assets, files, where), n).None?
    ensures forall a | a in assets && where(a.path) :: NameOf(a.path) != n
  {
    if assets != [] {
      var a, rest := assets[|assets| - 1], assets[..|assets| - 1];
      if where(a.path) {
        FindAppend(FileEntries(rest, files, where), FileEntry(files, a.path), n);
      }
      FileEntriesNone(rest, files, where, n);
    }
  }

  lemma {:induction false} FileEntriesSome(assets: seq<Asset>, files: map<string, Stored>, where: string -> bool, n: string)
    returns (a: Asset)
    requires forall a | a in assets :: a.path in files
    requires Find(FileEntries(assets, files, where), n).Some?
    ensures a in assets && where(a.path) && NameOf(a.path) == n
    ensures Find(FileEntries(assets, files, where), n).value == FileEntry(files, a.path)
  {
    a := assets[|assets| - 1];
    var rest := assets[..|assets| - 1];
    if where(a.path) {
      FindAppend(FileEntries(rest, files, where), FileEntry(files, a.path), n);
    }
    if Find(FileEntries(rest, files, where), n).Some? {
      a := FileEntriesSome(rest, files, where, n);
    }
  }

  lemma {:induction false} DirEntriesNone(order: seq<string>, dirs: map<string, Cid>, where: string -> bool, n: string)
    requires forall d | d in order :: d in dirs
    requires Find(DirEntries(order, dirs, where), n).None?
    ensures forall d | d in order && where(d) :: NameOf(d) != n
  {
    if order != [] {
      var d, rest := order[|order| - 1], order[..|order| - 1];
      if where(d) {
        FindAppend(DirEntries(rest, dirs, where), DirEntry(dirs, d), n);
      }
      DirEntriesNone(rest, dirs, where, n);
    }
  }

  lemma {:induction false} DirEntriesSome(order: seq<string>, dirs: map<string, Cid>, where: string -> bool, n: string)
    returns (d: string)
    requires forall d | d in order :: d in dirs
    requires Find(DirEntries(order, dirs, where), n).Some?
    ensures d in order && where(d) && NameOf(d) == n
    ensures Find(DirEntries(order, dirs, where), n).value == DirEntry(dirs, d)
  {
    d := order[|order| - 1];
    var rest := order[..|order| - 1];
    if where(d) {
      FindAppend(DirEntries(rest, dirs, where), DirEntry(dirs, d), n);
    }
    if Find(DirEntries(rest, dirs, where), n).Some? {
      d := DirEntriesSome(rest, dirs, where, n);
    }
  }

  lemma {:induction false} FindConcat(a: seq<Entry>, b: seq<Entry>, n: string)
    ensures Find(a + b, n) == if Find(a, n).Some? then Find(a, n) else Find(b, n)
  {
    if a == [] {
      assert a + b == b;
    } else {
      FindConcat(a[1..], b, n);
      assert (a + b)[1..] == a[1..] + b;
    }
  }

  // ---- one directory ----

  /** `where` picks the paths lying directly in `base`. */
  ghost predicate PicksFrom(base: seq<string>, where: string -> bool, paths: set<string>)
  {
    forall p | p in paths :: where(p) <==> Parts(p)[..|Parts(p)| - 1] == base
  }

  ghost predicate GoodDirs(assets: seq<Asset>, order: seq<string>, dirs: map<string, Cid>)
  {
    forall d | d in order :: d in dirs && IsDir(assets, Parts(d)) && Matches(assets, dirs[d], Parts(d))
  }

  lemma GoodDirsExtend(assets: seq<Asset>, order: seq<string>, dirs: map<string, Cid>, dir: string, c: Cid)
    requires GoodDirs(assets, order, dirs) && IsDir(assets, Parts(dir)) && Matches(assets, c, Parts(dir))
    ensures GoodDirs(assets, order, dirs[dir := c]) && GoodDirs(assets, order + [dir], dirs[dir := c])
  {
  }

  /** Every subdirectory of `base` has been built, and built right. */
  ghost predicate Built(assets: seq<Asset>, base: seq<string>, order: seq<string>, dirs: map<string, Cid>)
  {
    && GoodDirs(assets, order, dirs)
    && (forall n: string | IsDir(assets, base + [n]) :: Join(base + [n], '/') in order)
  }

  lemma SnocParts(base: seq<string>, path: string)
    requires Parts(path)[..|Parts(path)| - 1] == base
    ensures Parts(path) == base + [NameOf(path)]
  {
  }

  lemma FileEntryIsAsset(assets: seq<Asset>, a: Asset, p: seq<string>)
    requires a in assets && p == Parts(a.path)
    ensures IsAsset(assets, p, Some(AsTarget(FileEntry(StoredFiles(assets), a.path))))
  {
    JoinSplit(a.path, '/');
    PutFileBytes(LastData(assets, a.path), true);
  }

  /** What the assembled entries of one directory hold under the name `n`. */
  lemma EntriesFind(assets: seq<Asset>, base: seq<string>, where: string -> bool,
                    order: seq<string>, dirs: map<string, Cid>, n: string)
    requires WellFormed(assets) && Built(assets, base, order, dirs)
    requires PicksFrom(base, where, (set a | a in assets :: a.path) + (set d | d in order))
    ensures var f := Find(FileEntries(assets, StoredFiles(assets), where) + DirEntries(order, dirs, where), n);
            if IsFile(assets, base + [n]) then
              f.Some? && IsAsset(assets, base + [n], Some(AsTarget(f.value)))
            else if IsDir(assets, base + [n]) then
              f.Some? && f.value.kind == Dir && Matches(assets, f.value.cid, base + [n])
            else f.None?
  {
    var files := StoredFiles(assets);
    var fes, des := FileEntries(assets, files, where), DirEntries(order, dirs, where);
    var p := base + [n];
    assert p[..|base|] == base;
    FindConcat(fes, des, n);
    if Find(fes, n).Some? {
      var a := FileEntriesSome(assets, files, where, n);
      SnocParts(base, a.path);
      FileEntryIsAsset(assets, a, p);
      assert IsFile(assets, p);
    } else {
      FileEntriesNone(assets, files, where, n);
      assert !IsFile(assets, p);
      if Find(des, n).Some? {
        var d := DirEntriesSome(order, dirs, where, n);
        SnocParts(base, d);
      } else {
        DirEntriesNone(order, dirs, where, n);
        if IsDir(assets, p) {
          PartsOfDir(assets, p);
        }
      }
    }
  }

  /** The entry under the first segment decides what a path resolves to. */
  lemma MatchesThrough(assets: seq<Asset>, base: seq<string>, c: Cid, f: Option<Entry>, q: seq<string>)
    requires WellFormed(assets) && q != []
    requires Child(c, q[0]) == f
    requires if IsFile(assets, base + [q[0]]) then
               f.Some? && IsAsset(assets, base + [q[0]], Some(AsTarget(f.value)))
             else if IsDir(assets, base + [q[0]]) then
               f.Some? && f.value.kind == Dir && Matches(assets, f.value.cid, base + [q[0]])
             else f.None?
    ensures MatchesAt(assets, c, base, q)
  {
    var p, t := base + [q[0]], q[1..];
    assert base + q == p + t;
    if t == [] {
      assert p + t == p;
    } else if IsFile(assets, p) {
      NothingBelowFile(assets, p, t);
    } else if IsDir(assets, p) {
      assert MatchesAt(assets, f.value.cid, p, t);
    } else if IsFile(assets, p + t) || IsDir(assets, p + t) {
      AboveIsDir(assets, p, t);
    }
  }

  lemma DirectoryMatches(le: Collation, assets: seq<Asset>, base: seq<string>, where: string -> bool,
                         order: seq<string>, dirs: map<string, Cid>)
    requires Reflexive(le) && WellFormed(assets) && Built(assets, base, order, dirs)
    requires PicksFrom(base, where, (set a | a in assets :: a.path) + (set d | d in order))
    ensures Matches(assets,
                    PutDirectory(le, FileEntries(assets, StoredFiles(assets), where) + DirEntries(order, dirs, where), true),
                    base)
  {
    var entries := FileEntries(assets, StoredFiles(assets), where) + DirEntries(order, dirs, where);
    var c := PutDirectory(le, entries, true);
    forall q: seq<string> | q != []
      ensures MatchesAt(assets, c, base, q)
    {
      var f := if q[0] == "" then None else Find(entries, q[0]);
      ChildOfPut(le, entries, true, q[0]);
      EntriesFind(assets, base, where, order, dirs, q[0]);
      NonEmptyNames(assets, base);
      MatchesThrough(assets, base, c, f, q);
    }
  }

  lemma PicksDirectory(assets: seq<Asset>, dir: string, paths: set<string>)
    requires WellFormed(assets) && IsDir(assets, Parts(dir))
    ensures PicksFrom(Parts(dir), InDirectory(dir), paths)
  {
    var base := Parts(dir);
    JoinSplit(dir, '/');
    NonEmptyNames(assets, []);
    assert [] + [""] == [""] == Split("", '/');
    forall p | p in paths
      ensures DirOf(p) == dir <==> Parts(p)[..|Parts(p)| - 1] == base
    {
      var up := Parts(p)[..|Parts(p)| - 1];
      if DirOf(p) == dir {
        if up != [] {
          SplitParts(p, '/');
          SplitJoin(up, '/');
        }
      }
    }
  }

  lemma PicksRoot(paths: set<string>)
    ensures PicksFrom([], TopLevel(), paths)
  {
    forall p | p in paths
      ensures '/' !in p <==> Parts(p)[..|Parts(p)| - 1] == []
    {
      if '/' !in p {
        SplitWhole(p, '/');
      } else {
        JoinSplit(p, '/');
        SplitParts(p, '/');
      }
    }
  }

  /** Deepest first, a directory's subdirectories are all built when its turn comes. */
  lemma SubdirsBuilt(assets: seq<Asset>, dirs: seq<string>, k: nat, built: seq<string>)
    requires Ascending(Depth, dirs) && k < |dirs|
    requires Lists(assets, dirs)
    requires forall j | k < j < |dirs| :: dirs[j] in built
    ensures forall n: string | IsDir(assets, Parts(dirs[k]) + [n]) :: Join(Parts(dirs[k]) + [n], '/') in built
  {
    forall n: string | IsDir(assets, Parts(dirs[k]) + [n])
      ensures Join(Parts(dirs[k]) + [n], '/') in built
    {
      var p := Parts(dirs[k]) + [n];
      var a :| a in assets && p < Parts(a.path);
      DirSetComplete(assets, a, p);
      PartsOfDir(assets, p);
      var j :| 0 <= j < |dirs| && dirs[j] == Join(p, '/');
      if j <= k {
        AscendingPair(Depth, dirs, j, k);
      }
    }
  }

  /** Builds every directory, deepest first. */
  method BuildDirectories(le: Collation, assets: seq<Asset>, files: map<string, Stored>, dirPaths: seq<string>)
    returns (order: seq<string>, dirs: map<string, Cid>)
    requires Reflexive(le) && files == StoredFiles(assets)
    requires Ascending(Depth, dirPaths)
    requires Lists(assets, dirPaths)
    ensures forall d | d in order :: d in dirs
    ensures forall d | d in DirSet(assets) :: d in order
    ensures WellFormed(assets) ==> GoodDirs(assets, order, dirs)
  {
    order, dirs := [], map[];
    var k := |dirPaths|;
    while k > 0
      invariant 0 <= k <= |dirPaths|
      invariant forall d | d in order :: d in dirs
      invariant forall j | k <= j < |dirPaths| :: dirPaths[j] in order
      invariant WellFormed(assets) ==> GoodDirs(assets, order, dirs)
    {
      k := k - 1;
      var dir := dirPaths[k];
      var c := BuildDirectory(le, assets, files, dirPaths, k, order, dirs);
      if dir !in order {
        order := order + [dir];
      }
      dirs := dirs[dir := c];
    }
  }

  method BuildDirectory(le: Collation, assets: seq<Asset>, files: map<string, Stored>, dirPaths: seq<string>, k: nat,
                        order: seq<string>, dirs: map<string, Cid>) returns (c: Cid)
    requires Reflexive(le) && files == StoredFiles(assets)
    requires Ascending(Depth, dirPaths) && Lists(assets, dirPaths)
    requires k < |dirPaths| && forall j | k < j < |dirPaths| :: dirPaths[j] in order
    requires forall d | d in order :: d in dirs
    requires WellFormed(assets) ==> GoodDirs(assets, order, dirs)
    ensures WellFormed(assets) ==>
              && GoodDirs(assets, order, dirs[dirPaths[k] := c])
              && GoodDirs(assets, order + [dirPaths[k]], dirs[dirPaths[k] := c])
  {
    var entries := CollectEntries(assets, files, order, dirs, InDirectory(dirPaths[k]));
    c := PutDirectory(le, entries, true);
    if WellFormed(assets) {
      OneDirectory(le, assets, dirPaths, k, order, dirs);
      GoodDirsExtend(assets, order, dirs, dirPaths[k], c);
    }
  }

  lemma OneDirectory(le: Collation, assets: seq<Asset>, dirPaths: seq<string>, k: nat, order: seq<string>, dirs: map<string, Cid>)
    requires Reflexive(le) && WellFormed(assets) && k < |dirPaths| && Ascending(Depth, dirPaths)
    requires Lists(assets, dirPaths)
    requires GoodDirs(assets, order, dirs)
    requires forall j | k < j < |dirPaths| :: dirPaths[j] in order
    ensures var where := InDirectory(dirPaths[k]);
            && IsDir(assets, Parts(dirPaths[k]))
            && Matches(assets,
                       PutDirectory(le, FileEntries(assets, StoredFiles(assets), where) + DirEntries(order, dirs, where), true),
                       Parts(dirPaths[k]))
  {
    var dir := dirPaths[k];
    var where := InDirectory(dir);
    SubdirsBuilt(assets, dirPaths, k, order);
    DirSetSound(assets, dir);
    PicksDirectory(assets, dir, (set a | a in assets :: a.path) + (set d | d in order));
    DirectoryMatches(le, assets, Parts(dir), where, order, dirs);
  }

  lemma RootDirectory(le: Collation, assets: seq<Asset>, order: seq<string>, dirs: map<string, Cid>)
    requires Reflexive(le) && WellFormed(assets)
    requires forall d | d in DirSet(assets) :: d in order
    requires GoodDirs(assets, order, dirs)
    ensures var where := TopLevel();
            Matches(assets,
                    PutDirectory(le, FileEntries(assets, StoredFiles(assets), where) + DirEntries(order, dirs, where), true),
                    [])
  {
    var where := TopLevel();
    forall n: string | IsDir(assets, [] + [n]) ensures Join([] + [n], '/') in order {
      var a :| a in assets && [] + [n] < Parts(a.path);
      DirSetComplete(assets, a, [] + [n]);
    }
    PicksRoot((set a | a in assets :: a.path) + (set d | d in order));
    DirectoryMatches(le, assets, [], where, order, dirs);
  }

  /**
   `savePWAToHashtree`: for assets with well-formed paths the root resolves every asset path to
   the asset's file and every directory of one to a directory, and resolves nothing else.
   */
  method SavePwa(le: Collation, assets: seq<Asset>) returns (root: Cid)
    requires Reflexive(le)
    ensures WellFormed(assets) ==> Matches(assets, root, [])
  {
    var files: map<string, Stored> := map[];
    for i := 0 to |assets|
      invariant files == StoredFiles(assets[..i])
    {
      assert assets[..i + 1][..i] == assets[..i];
      files := files[assets[i].path := Stored(PutFile(assets[i].data, true), |assets[i].data|)];
    }
    assert assets[..|assets|] == assets;
    var dirPaths := GetDirectoryPaths(le, assets);
    var order, dirs := BuildDirectories(le, assets, files, dirPaths);
    var where := TopLevel();
    var rootEntries := CollectEntries(assets, files, order, dirs, where);
    root := PutDirectory(le, rootEntries, true);
    if WellFormed(assets) {
      RootDirectory(le, assets, order, dirs);
    }
  }

  /** The two inner loops: files of a directory, then its subdirectories. */
  method CollectEntries(assets: seq<Asset>, files: map<string, Stored>, order: seq<string>, dirs: map<string, Cid>,
                        where: string -> bool) returns (entries: seq<Entry>)
    requires forall a | a in assets :: a.path in files
    requires forall d | d in order :: d in dirs
    ensures entries == FileEntries(assets, files, where) + DirEntries(order, dirs, where)
  {
    entries := [];
    for i := 0 to |assets|
      invariant entries == FileEntries(assets[..i], files, where)
    {
      assert assets[..i + 1][..i] == assets[..i];
      if where(assets[i].path) {
        entries := entries + [FileEntry(files, assets[i].path)];
      }
    }
    assert assets[..|assets|] == assets;
    ghost var fes := entries;
    for i := 0 to |order|
      invariant entries == fes + DirEntries(order[..i], dirs, where)
    {
      assert order[..i + 1][..i] == order[..i];
      if where(order[i]) {
        entries := entries + [DirEntry(dirs, order[i])];
      }
    }
    assert order[..|order|] == order;
  }
}
