/**
 The map tile crawler: many downloads in flight, one chain of root updates.

 A tile is downloaded by a task; a successful download appends an update to the chain, and the
 chain runs its updates one at a time, each reading the root when it begins and replacing it when
 it ends. The model takes every interleaving of these steps.
 */
module CrawlTiles {
  import opened Text
  import opened HashTree
  import opened Wrappers

  // ---- the tile grid ----

  datatype Tile = Tile(z: int, x: int, y: int)

  /** The tile range of one zoom level. */
  datatype ZoomInfo = ZoomInfo(zoom: int, minX: int, maxX: int, minY: int, maxY: int)

  function Extent(lo: int, hi: int): nat { if hi < lo then 0 else hi - lo + 1 }

  /** `estimateTileCounts`. */
  method EstimateTileCounts(infos: seq<ZoomInfo>) returns (total: nat)
    ensures total == |Grid(infos)|
  {
    total := 0;
    for i := 0 to |infos|
      invariant total == |Grid(infos[..i])|
    {
      var info := infos[i];
      var count := Extent(info.minX, info.maxX) * Extent(info.minY, info.maxY);
      BlockSize(info, info.maxX);
      assert infos[..i + 1][..i] == infos[..i];
      total := total + count;
    }
    assert infos[..|infos|] == infos;
  }

  function Column(z: int, x: int, minY: int, maxY: int): seq<Tile>
    decreases Extent(minY, maxY)
  {
    if maxY < minY then [] else Column(z, x, minY, maxY - 1) + [Tile(z, x, maxY)]
  }

  function Block(info: ZoomInfo, maxX: int): seq<Tile>
    decreases Extent(info.minX, maxX)
  {
    if maxX < info.minX then [] else Block(info, maxX - 1) + Column(info.zoom, maxX, info.minY, info.maxY)
  }

  /** The tiles in the order the crawler's nested loops visit them. */
  function Grid(infos: seq<ZoomInfo>): seq<Tile>
  {
    if infos == [] then []
    else
      var info := infos[|infos| - 1];
      Grid(infos[..|infos| - 1]) + Block(info, info.maxX)
  }

  ghost predicate Distinct<T>(s: seq<T>) {
    forall i, j | 0 <= i < j < |s| :: s[i] != s[j]
  }

  lemma {:induction false} ColumnTiles(z: int, x: int, minY: int, maxY: int)
    ensures |Column(z, x, minY, maxY)| == Extent(minY, maxY)
    ensures forall t :: t in Column(z, x, minY, maxY) <==> t.z == z && t.x == x && minY <= t.y <= maxY
    ensures Distinct(Column(z, x, minY, maxY))
    decreases Extent(minY, maxY)
  {
    if minY <= maxY {
      ColumnTiles(z, x, minY, maxY - 1);
      var c := Column(z, x, minY, maxY - 1);
      assert forall i | 0 <= i < |c| :: c[i] in c;
    }
  }

  lemma {:induction false} BlockSize(info: ZoomInfo, maxX: int)
    ensures |Block(info, maxX)| == Extent(info.minX, maxX) * Extent(info.minY, info.maxY)
    decreases Extent(info.minX, maxX)
  {
    if info.minX <= maxX {
      BlockSize(info, maxX - 1);
      ColumnTiles(info.zoom, maxX, info.minY, info.maxY);
      var w, h := Extent(info.minX, maxX - 1), Extent(info.minY, info.maxY);
      assert Extent(info.minX, maxX) == w + 1 && (w + 1) * h == w * h + h;
    }
  }

  lemma DistinctConcat<T>(a: seq<T>, b: seq<T>)
    requires Distinct(a) && Distinct(b) && forall x | x in a :: x !in b
    ensures Distinct(a + b)
  {
    assert forall i | 0 <= i < |a| :: a[i] in a;
    assert forall i | 0 <= i < |b| :: b[i] in b;
  }

  lemma {:induction false} BlockTiles(info: ZoomInfo, maxX: int)
    ensures forall t :: t in Block(info, maxX) <==>
                        t.z == info.zoom && info.minX <= t.x <= maxX && info.minY <= t.y <= info.maxY
    ensures Distinct(Block(info, maxX))
    decreases Extent(info.minX, maxX)
  {
    if info.minX <= maxX {
      BlockTiles(info, maxX - 1);
      ColumnTiles(info.zoom, maxX, info.minY, info.maxY);
      DistinctConcat(Block(info, maxX - 1), Column(info.zoom, maxX, info.minY, info.maxY));
    }
  }

  predicate InRange(info: ZoomInfo, t: Tile)
  {
    t.z == info.zoom && info.minX <= t.x <= info.maxX && info.minY <= t.y <= info.maxY
  }

  /** The tiles visited are those in the range of their zoom level, and none is visited twice. */
  lemma {:induction false} GridDistinct(infos: seq<ZoomInfo>)
    requires forall i, j | 0 <= i < j < |infos| :: infos[i].zoom != infos[j].zoom
    ensures Distinct(Grid(infos))
    ensures forall t :: t in Grid(infos) <==> exists i | 0 <= i < |infos| :: InRange(infos[i], t)
  {
    if infos != [] {
      var info, rest := infos[|infos| - 1], infos[..|infos| - 1];
      GridDistinct(rest);
      BlockTiles(info, info.maxX);
      forall t ensures t in Block(info, info.maxX) <==> InRange(info, t) {
      }
      forall t | t in Grid(rest) ensures t !in Block(info, info.maxX) {
        var i :| 0 <= i < |rest| && InRange(rest[i], t);
        assert rest[i] == infos[i];
      }
      DistinctConcat(Grid(rest), Block(info, info.maxX));
      forall t ensures t in Grid(infos) <==> exists i | 0 <= i < |infos| :: InRange(infos[i], t) {
        if t in Grid(rest) {
          var i :| 0 <= i < |rest| && InRange(rest[i], t);
          assert InRange(infos[i], t);
        }
        if i :| 0 <= i < |infos| && InRange(infos[i], t) {
          assert i < |rest| ==> InRange(rest[i], t);
        }
        if t in Block(info, info.maxX) { assert InRange(infos[|infos| - 1], t); }
      }
    }
  }

  // ---- creating directories on the way ----

  function EmptyDir(le: Collation): Cid { PutDirectory(le, [], false) }

  function NewDir(le: Collation, name: string): Entry { Entry(name, EmptyDir(le), 0, Dir, None) }

  /** `ensureDirs`, from the segment at `i` on; `None` when it throws. */
  function EnsureDirs(le: Collation, root: Cid, parts: seq<string>, i: nat): Option<Cid>
    requires i <= |parts|
    decreases |parts| - i
  {
    if i == |parts| then Some(root)
    else
      var existing := ResolvePath(root, parts[..i + 1]);
      if existing.Some? && existing.value.kind == Dir then EnsureDirs(le, root, parts, i + 1)
      else
        match SetEntry(le, root, parts[..i], NewDir(le, parts[i]))
        case None => None
        case Some(r) => EnsureDirs(le, r, parts, i + 1)
  }

  method EnsureDirsLoop(le: Collation, root: Cid, parts: seq<string>) returns (r: Option<Cid>)
    requires Segments(parts)
    ensures r == EnsureDirs(le, root, parts, 0)
  {
    var nextRoot := root;
    for i := 0 to |parts|
      invariant EnsureDirs(le, nextRoot, parts, i) == EnsureDirs(le, root, parts, 0)
    {
      var turn := EnsureOne(le, nextRoot, parts, i);
      if turn.None? { return None; }
      nextRoot := turn.value;
    }
    r := Some(nextRoot);
  }

  /** The body of the loop. */
  method EnsureOne(le: Collation, root: Cid, parts: seq<string>, i: nat) returns (r: Option<Cid>)
    requires Segments(parts) && i < |parts|
    ensures EnsureDirs(le, root, parts, i) == if r.None? then None else EnsureDirs(le, r.value, parts, i + 1)
  {
    var existing := ResolvePathLoop(root, parts[..i + 1]);
    if existing.Some? && existing.value.kind == Dir { return Some(root); }
    SegmentsPrefix(parts, i);
    r := SetEntryLoop(le, root, parts[..i], NewDir(le, parts[i]));
  }

  /** A tree without a single key, as the crawler writes it. */
  predicate Keyless(id: Cid)
    decreases id.block
  {
    !id.key && (id.block.DirBlock? ==> forall e | e in id.block.links :: Keyless(e.cid))
  }

  predicate KeylessEntries(es: seq<Entry>) { forall e | e in es :: Keyless(e.cid) }

  lemma {:induction false} InsertMembers(le: Collation, e: Entry, s: seq<Entry>)
    ensures forall x | x in Insert(le, e, s) :: x == e || x in s
  {
    if s != [] && !le(e.name, s[0].name) {
      InsertMembers(le, e, s[1..]);
    }
  }

  lemma {:induction false} KeylessPut(le: Collation, es: seq<Entry>)
    requires KeylessEntries(es)
    ensures KeylessEntries(Sort(le, es)) && Keyless(PutDirectory(le, es, false))
  {
    if es != [] {
      KeylessPut(le, es[1..]);
      InsertMembers(le, es[0], Sort(le, es[1..]));
    }
  }

  lemma {:induction false} KeylessReplace(es: seq<Entry>, n: string, c: Cid)
    requires KeylessEntries(es) && Keyless(c)
    ensures KeylessEntries(Replace(es, n, c))
  {
    if es != [] {
      KeylessReplace(es[1..], n, c);
    }
  }

  lemma {:induction false} KeylessUpsert(es: seq<Entry>, e: Entry)
    requires KeylessEntries(es) && Keyless(e.cid)
    ensures KeylessEntries(Upsert(es, e))
  {
    WithoutMembers(es, e.name);
  }

  lemma {:induction false} WithoutMembers(es: seq<Entry>, n: string)
    ensures forall x | x in Without(es, n) :: x in es
  {
    if es != [] {
      WithoutMembers(es[1..], n);
    }
  }

  lemma KeylessListing(id: Cid)
    requires Keyless(id)
    ensures ListDirectory(id).Some? && KeylessEntries(ListDirectory(id).value)
  {
    if id.block.DirBlock? {
      NamedMembers(id.block.links);
    }
  }

  lemma {:induction false} KeylessUniform(root: Cid, path: seq<string>)
    requires Keyless(root) && ResolvePath(root, path).Some?
    ensures Uniform(root, path) && Keyless(ResolvePath(root, path).value.cid)
    decreases |path|
  {
    if path != [] {
      KeylessListing(root);
      var e := Child(root, path[0]).value;
      assert |path| == 1 ==> path[1..] == [];
      KeylessUniform(e.cid, path[1..]);
    }
  }

  lemma {:induction false} KeylessGraft(le: Collation, dir: Cid, path: seq<string>, child: Cid)
    requires Keyless(dir) && Uniform(dir, path) && Walk(dir, path).Some? && Keyless(child)
    ensures Keyless(Graft(le, dir, path, child))
    decreases |path|
  {
    if path != [] {
      KeylessListing(dir);
      var sub := Child(dir, path[0]).value.cid;
      KeylessGraft(le, sub, path[1..], child);
      var g := Graft(le, sub, path[1..], child);
      KeylessReplace(ListDirectory(dir).value, path[0], g);
      KeylessPut(le, Replace(ListDirectory(dir).value, path[0], g));
    }
  }

  /** Where the path resolves, setting an entry succeeds and the tree stays free of keys. */
  lemma KeylessSet(le: Collation, root: Cid, path: seq<string>, e: Entry)
    requires Keyless(root) && ResolvePath(root, path).Some? && Keyless(e.cid)
    ensures Uniform(root, path)
    ensures SetEntry(le, root, path, e).Some? && Keyless(SetEntry(le, root, path, e).value)
  {
    KeylessUniform(root, path);
    UniformWalk(root, path);
    var dir := Walk(root, path).value;
    KeylessListing(dir);
    var es := ListDirectory(dir).value;
    KeylessUpsert(es, e);
    KeylessPut(le, Upsert(es, e));
    KeylessGraft(le, root, path, PutDirectory(le, Upsert(es, e), false));
  }

  /** No prefix of `parts` resolves to anything but a directory. */
  ghost predicate NoFileOn(root: Cid, parts: seq<string>)
  {
    forall j | 0 < j <= |parts| :: ResolvePath(root, parts[..j]).Some? ==> ResolvePath(root, parts[..j]).value.kind == Dir
  }

  ghost predicate DirsUpTo(root: Cid, parts: seq<string>, i: nat)
    requires i <= |parts|
  {
    forall j | 0 < j <= i :: ResolvePath(root, parts[..j]).Some? && ResolvePath(root, parts[..j]).value.kind == Dir
  }

  lemma EmptyDirHoldsNothing(le: Collation, t: seq<string>)
    requires t != []
    ensures ResolvePath(EmptyDir(le), t).None?
  {
    assert Child(EmptyDir(le), t[0]).None?;
  }

  lemma BelowEmptyDir(le: Collation, root: Cid, r: Cid, p: seq<string>, t: seq<string>)
    requires t != [] && ResolvePath(root, p).None? && ResolvePath(r, p) == Some(Target(EmptyDir(le), Dir, 0, None))
    ensures ResolvePath(r, p + t) == ResolvePath(root, p + t)
  {
    ResolveCompose(root, p, t);
    ResolveCompose(r, p, t);
    EmptyDirHoldsNothing(le, t);
  }

  /** One turn of the loop that has to create a directory. */
  lemma EnsureStep(le: Collation, root: Cid, parts: seq<string>, i: nat)
    requires Reflexive(le) && Keyless(root) && i < |parts| && "" !in parts && DirsUpTo(root, parts, i)
    ensures var r := SetEntry(le, root, parts[..i], NewDir(le, parts[i]));
            r.Some? && Keyless(r.value) && DirsUpTo(r.value, parts, i + 1)
  {
    var path, e := parts[..i], NewDir(le, parts[i]);
    KeylessSet(le, root, path, e);
    var r := SetEntry(le, root, path, e).value;
    forall j | 0 < j <= i + 1
      ensures ResolvePath(r, parts[..j]).Some? && ResolvePath(r, parts[..j]).value.kind == Dir
    {
      if j == i + 1 {
        assert parts[i] in parts && path + [parts[i]] == parts[..j];
        ReadBack(le, root, path, e);
      } else {
        assert parts[..j] == path[..j];
        UniformIsUniformAbove(root, path);
        SetEntryAbove(le, root, path, e, path[..j]);
      }
    }
  }

  lemma EnsureStepFrame(le: Collation, root: Cid, parts: seq<string>, i: nat, q: seq<string>)
    requires Reflexive(le) && Keyless(root) && i < |parts| && "" !in parts && DirsUpTo(root, parts, i)
    requires ResolvePath(root, parts[..i + 1]).None?
    requires !(q <= parts[..i + 1])
    ensures var r := SetEntry(le, root, parts[..i], NewDir(le, parts[i]));
            r.Some? && ResolvePath(r.value, q) == ResolvePath(root, q)
  {
    var path, e := parts[..i], NewDir(le, parts[i]);
    EnsureStep(le, root, parts, i);
    assert i > 0 ==> parts[..i] == path;
    KeylessSet(le, root, path, e);
    var r := SetEntry(le, root, path, e).value;
    assert path + [parts[i]] == parts[..i + 1];
    if parts[..i + 1] <= q {
      var t := q[i + 1..];
      assert q == parts[..i + 1] + t && t != [];
      assert parts[i] in parts;
      ReadBack(le, root, path, e);
      BelowEmptyDir(le, root, r, parts[..i + 1], t);
    } else {
      assert path <= parts[..i + 1];
      SetEntryFrame(le, root, path, e, q);
    }
  }

  /** `ensureDirs` always ends with every prefix a directory, and never throws. */
  lemma {:induction false} EnsureDirsMakesDirs(le: Collation, root: Cid, parts: seq<string>, i: nat)
    requires Reflexive(le) && Keyless(root) && i <= |parts| && "" !in parts && DirsUpTo(root, parts, i)
    ensures var r := EnsureDirs(le, root, parts, i);
            r.Some? && Keyless(r.value) && DirsUpTo(r.value, parts, |parts|)
    decreases |parts| - i
  {
    if i < |parts| {
      var existing := ResolvePath(root, parts[..i + 1]);
      if existing.Some? && existing.value.kind == Dir {
        EnsureDirsMakesDirs(le, root, parts, i + 1);
      } else {
        EnsureStep(le, root, parts, i);
        EnsureDirsMakesDirs(le, SetEntry(le, root, parts[..i], NewDir(le, parts[i])).value, parts, i + 1);
      }
    }
  }

  /** When no file stands in the way, `ensureDirs` disturbs nothing outside the prefixes themselves. */
  lemma {:induction false} EnsureDirsFrame(le: Collation, root: Cid, parts: seq<string>, i: nat, q: seq<string>)
    requires Reflexive(le) && Keyless(root) && i <= |parts| && "" !in parts && DirsUpTo(root, parts, i)
    requires NoFileOn(root, parts) && !(q <= parts)
    ensures EnsureDirs(le, root, parts, i).Some?
    ensures ResolvePath(EnsureDirs(le, root, parts, i).value, q) == ResolvePath(root, q)
    decreases |parts| - i
  {
    if i < |parts| {
      var existing := ResolvePath(root, parts[..i + 1]);
      if existing.Some? && existing.value.kind == Dir {
        EnsureDirsFrame(le, root, parts, i + 1, q);
      } else {
        assert existing.None?;
        EnsureStep(le, root, parts, i);
        var r := SetEntry(le, root, parts[..i], NewDir(le, parts[i])).value;
        assert q <= parts[..i + 1] ==> q <= parts;
        EnsureStepFrame(le, root, parts, i, q);
        forall j | 0 < j <= |parts|
          ensures ResolvePath(r, parts[..j]).Some? ==> ResolvePath(r, parts[..j]).value.kind == Dir
        {
          if j > i + 1 {
            EnsureStepFrame(le, root, parts, i, parts[..j]);
          }
        }
        EnsureDirsFrame(le, r, parts, i + 1, q);
      }
    }
  }

  ghost predicate KeepsFiles(root: Cid, r: Cid)
  {
    forall q: seq<string> | ResolvePath(root, q).Some? && ResolvePath(root, q).value.kind != Dir ::
      ResolvePath(r, q) == ResolvePath(root, q)
  }

  lemma FileIsOffPath(root: Cid, parts: seq<string>, q: seq<string>)
    requires NoFileOn(root, parts) && ResolvePath(root, q).Some? && ResolvePath(root, q).value.kind != Dir
    ensures !(q <= parts)
  {
    var p := parts[..if |q| <= |parts| then |q| else 0];
    assert q <= parts ==> q == p;
  }

  lemma ClearPathKeepsFiles(le: Collation, root: Cid, parts: seq<string>)
    requires Reflexive(le) && Keyless(root) && "" !in parts && NoFileOn(root, parts)
    ensures EnsureDirs(le, root, parts, 0).Some?
    ensures KeepsFiles(root, EnsureDirs(le, root, parts, 0).value)
  {
    EnsureDirsMakesDirs(le, root, parts, 0);
    forall q: seq<string> | ResolvePath(root, q).Some? && ResolvePath(root, q).value.kind != Dir
      ensures ResolvePath(EnsureDirs(le, root, parts, 0).value, q) == ResolvePath(root, q)
    {
      FileIsOffPath(root, parts, q);
      EnsureDirsFrame(le, root, parts, 0, q);
    }
  }

  lemma BlockedPathLosesFile(root: Cid, r: Cid, parts: seq<string>, j: nat)
    requires 0 < j <= |parts| && DirsUpTo(r, parts, |parts|)
    requires ResolvePath(root, parts[..j]).Some? && ResolvePath(root, parts[..j]).value.kind != Dir
    ensures !KeepsFiles(root, r)
  {
    var q := parts[..j];
    assert ResolvePath(r, q).value.kind == Dir;
  }

  /**
   `ensureDirs` leaves every file that resolved in place exactly when no file stands on the path
   it has to turn into directories; a file on the path is replaced by an empty directory.
   */
  lemma EnsureDirsKeepsFilesIff(le: Collation, root: Cid, parts: seq<string>)
    requires Reflexive(le) && Keyless(root) && "" !in parts
    ensures EnsureDirs(le, root, parts, 0).Some?
    ensures NoFileOn(root, parts) <==> KeepsFiles(root, EnsureDirs(le, root, parts, 0).value)
  {
    EnsureDirsMakesDirs(le, root, parts, 0);
    if NoFileOn(root, parts) {
      ClearPathKeepsFiles(le, root, parts);
    } else {
      var j :| 0 < j <= |parts| && ResolvePath(root, parts[..j]).Some? && ResolvePath(root, parts[..j]).value.kind != Dir;
      BlockedPathLosesFile(root, EnsureDirs(le, root, parts, 0).value, parts, j);
    }
  }

  // ---- storing one tile ----

  function TileDir(t: Tile): seq<string> { ["tiles", Numeral(t.z), Numeral(t.x)] }

  function TileName(ext: string, t: Tile): string { Numeral(t.y) + "." + ext }

  function TilePath(ext: string, t: Tile): seq<string> { TileDir(t) + [TileName(ext, t)] }

  function TileEntry(ext: string, t: Tile, data: seq<bv8>): Entry
  {
    Entry(TileName(ext, t), PutFile(data, false), |data|, File, None)
  }

  /** The update a successful download appends to the chain. */
  function StoreTile(le: Collation, ext: string, root: Cid, t: Tile, data: seq<bv8>): Option<Cid>
  {
    match EnsureDirs(le, root, TileDir(t), 0)
    case None => None
    case Some(r) => SetEntry(le, r, TileDir(t), TileEntry(ext, t, data))
  }

  lemma SuffixCancel(a: string, b: string, s: string)
    requires a + s == b + s
    ensures a == b
  {
    assert |a| == |b|;
    assert a == (a + s)[..|a|] && b == (b + s)[..|b|];
  }

  /** Different tiles have different paths, none of them that of the metadata. */
  lemma TilePathInjective(ext: string, t: Tile, u: Tile)
    requires TilePath(ext, t) == TilePath(ext, u)
    ensures t == u
    ensures TilePath(ext, t) != ["meta.json"]
  {
    var p, q := TilePath(ext, t), TilePath(ext, u);
    assert Numeral(t.z) == p[1] == q[1] == Numeral(u.z);
    assert Numeral(t.x) == p[2] == q[2] == Numeral(u.x);
    assert TileName(ext, t) == p[3] == q[3] == TileName(ext, u);
    SuffixCancel(Numeral(t.y) + ".", Numeral(u.y) + ".", ext);
    SuffixCancel(Numeral(t.y), Numeral(u.y), ".");
    NumeralInjective(t.z, u.z);
    NumeralInjective(t.x, u.x);
    NumeralInjective(t.y, u.y);
  }

  /** Storing a tile succeeds, stores it, and changes nothing else. */
  lemma StoreTileLaw(le: Collation, ext: string, root: Cid, t: Tile, data: seq<bv8>)
    requires Reflexive(le) && Keyless(root) && NoFileOn(root, TileDir(t))
    ensures var r := StoreTile(le, ext, root, t, data);
            && r.Some? && Keyless(r.value) && DirsUpTo(r.value, TileDir(t), 3)
            && HoldsFile(ResolvePath(r.value, TilePath(ext, t)), File, false, data)
  {
    var dir := TileDir(t);
    assert dir[0] != "" && dir[1] != "" && dir[2] != "";
    EnsureDirsMakesDirs(le, root, dir, 0);
    var mid := EnsureDirs(le, root, dir, 0).value;
    var e := TileEntry(ext, t, data);
    assert dir[..3] == dir;
    KeylessSet(le, mid, dir, e);
    ReadBack(le, mid, dir, e);
    PutFileBytes(data, false);
    forall j | 0 < j <= 3
      ensures var r := SetEntry(le, mid, dir, e).value;
              ResolvePath(r, dir[..j]).Some? && ResolvePath(r, dir[..j]).value.kind == Dir
    {
      UniformIsUniformAbove(mid, dir);
      SetEntryAbove(le, mid, dir, e, dir[..j]);
    }
  }

  lemma StoreTileFrame(le: Collation, ext: string, root: Cid, t: Tile, data: seq<bv8>, q: seq<string>)
    requires Reflexive(le) && Keyless(root) && NoFileOn(root, TileDir(t))
    requires !(q <= TileDir(t)) && !(TilePath(ext, t) <= q)
    ensures StoreTile(le, ext, root, t, data).Some?
    ensures ResolvePath(StoreTile(le, ext, root, t, data).value, q) == ResolvePath(root, q)
  {
    var dir := TileDir(t);
    assert dir[0] != "" && dir[1] != "" && dir[2] != "";
    EnsureDirsMakesDirs(le, root, dir, 0);
    EnsureDirsFrame(le, root, dir, 0, q);
    var mid := EnsureDirs(le, root, dir, 0).value;
    var e := TileEntry(ext, t, data);
    assert dir[..3] == dir;
    KeylessSet(le, mid, dir, e);
    SetEntryFrame(le, mid, dir, e, q);
  }

  // ---- the run ----

  datatype Fetched = Data(bytes: seq<bv8>) | Status(code: int) | Failed

  datatype Update = Update(tile: Tile, data: seq<bv8>)

  datatype Running = Running(update: Update, captured: Cid)

  /**
   A task is in one of four places: downloading, waiting in the chain, running at its head, or
   settled and waiting to be dropped from the task set.
   */
  datatype State = State(
    next: nat,
    fetching: set<Tile>,
    chain: seq<Update>,
    running: Option<Running>,
    settled: set<Tile>,
    root: Cid,
    processed: nat, succeeded: nat, skipped: nat, failed: nat)

  datatype Event = Start | FetchEnd(tile: Tile, result: Fetched) | Begin | End | Drop(tile: Tile)

  datatype Config = Config(tiles: seq<Tile>, concurrency: real, le: Collation, ext: string, meta: seq<bv8>)

  function InFlight(s: State): nat
  {
    |s.fetching| + |s.chain| + (if s.running.Some? then 1 else 0) + |s.settled|
  }

  predicate Enabled(c: Config, s: State, ev: Event)
  {
    match ev
    case Start => s.next < |c.tiles| && InFlight(s) as real < c.concurrency
    case FetchEnd(t, _) => t in s.fetching
    case Begin => s.running.None? && s.chain != []
    case End =>
      && s.running.Some?
      && StoreTile(c.le, c.ext, s.running.value.captured, s.running.value.update.tile, s.running.value.update.data).Some?
    case Drop(t) => t in s.settled
  }

  function Step(c: Config, s: State, ev: Event): State
    requires Enabled(c, s, ev)
  {
    match ev
    case Start => s.(next := s.next + 1, fetching := s.fetching + {c.tiles[s.next]})
    case FetchEnd(t, result) =>
      var s' := s.(fetching := s.fetching - {t}, processed := s.processed + 1);
      if result.Data? && result.bytes != [] then
        s'.(succeeded := s.succeeded + 1, chain := s.chain + [Update(t, result.bytes)])
      else if result == Status(404) then s'.(skipped := s.skipped + 1, settled := s.settled + {t})
      else s'.(failed := s.failed + 1, settled := s.settled + {t})
    case Begin => s.(chain := s.chain[1..], running := Some(Running(s.chain[0], s.root)))
    case End =>
      var u := s.running.value.update;
      s.(running := None, settled := s.settled + {u.tile},
         root := StoreTile(c.le, c.ext, s.running.value.captured, u.tile, u.data).value)
    case Drop(t) => s.(settled := s.settled - {t})
  }

  /** A sequence of events, each enabled when it happens. */
  ghost predicate Runs(c: Config, s: State, events: seq<Event>, end: State)
    decreases |events|
  {
    if events == [] then s == end
    else Enabled(c, s, events[0]) && Runs(c, Step(c, s, events[0]), events[1..], end)
  }

  /** The run begins once `meta.json` and the `tiles` directory are in place. */
  ghost predicate Initial(c: Config, s: State)
  {
    && s == State(0, {}, [], None, {}, s.root, 0, 0, 0, 0)
    && RootReady(c, s.root)
  }

  ghost predicate RootReady(c: Config, root: Cid)
  {
    && Keyless(root)
    && HoldsFile(ResolvePath(root, ["meta.json"]), File, false, c.meta)
    && forall t | t in c.tiles :: NoFileOn(root, TileDir(t))
  }

  function MetaEntry(bytes: seq<bv8>): Entry { Entry("meta.json", PutFile(bytes, false), |bytes|, File, None) }

  /** In the first root, holding only `meta.json`, nothing else resolves. */
  lemma OnlyMeta(le: Collation, bytes: seq<bv8>, q: seq<string>)
    requires Reflexive(le) && q != [] && q[0] != "meta.json"
    ensures var r := SetEntry(le, EmptyDir(le), [], MetaEntry(bytes));
            r.Some? && ResolvePath(r.value, q).None?
  {
    KeylessSet(le, EmptyDir(le), [], MetaEntry(bytes));
    SetEntryFrame(le, EmptyDir(le), [], MetaEntry(bytes), q);
    EmptyDirHoldsNothing(le, q);
  }

  /** The two updates awaited before the first download leave a root the run can start from. */
  lemma FirstRootReady(c: Config)
    requires Reflexive(c.le)
    ensures var r := SetEntry(c.le, EmptyDir(c.le), [], MetaEntry(c.meta));
            && r.Some? && EnsureDirs(c.le, r.value, ["tiles"], 0).Some?
            && RootReady(c, EnsureDirs(c.le, r.value, ["tiles"], 0).value)
            && forall t :: ResolvePath(EnsureDirs(c.le, r.value, ["tiles"], 0).value, TilePath(c.ext, t)).None?
  {
    var bytes, e := c.meta, MetaEntry(c.meta);
    KeylessSet(c.le, EmptyDir(c.le), [], e);
    ReadBack(c.le, EmptyDir(c.le), [], e);
    PutFileBytes(bytes, false);
    var r := SetEntry(c.le, EmptyDir(c.le), [], e).value;
    assert [] + ["meta.json"] == ["meta.json"];
    OnlyMeta(c.le, bytes, ["tiles"]);
    assert ["tiles"][..1] == ["tiles"];
    EnsureDirsMakesDirs(c.le, r, ["tiles"], 0);
    EnsureDirsFrame(c.le, r, ["tiles"], 0, ["meta.json"]);
    var r' := EnsureDirs(c.le, r, ["tiles"], 0).value;
    forall t, j | t in c.tiles && 0 < j <= 3
      ensures ResolvePath(r', TileDir(t)[..j]).Some? ==> ResolvePath(r', TileDir(t)[..j]).value.kind == Dir
    {
      var p := TileDir(t)[..j];
      if j == 1 {
        assert p == ["tiles"];
      } else {
        OnlyMeta(c.le, bytes, p);
        EnsureDirsFrame(c.le, r, ["tiles"], 0, p);
      }
    }
    forall t ensures ResolvePath(r', TilePath(c.ext, t)).None? {
      OnlyMeta(c.le, bytes, TilePath(c.ext, t));
      EnsureDirsFrame(c.le, r, ["tiles"], 0, TilePath(c.ext, t));
    }
  }

  ghost predicate Good(c: Config) { Reflexive(c.le) && Distinct(c.tiles) && c.concurrency > 0.0 }

  /** The tiles whose update has not ended yet. */
  function Waiting(chain: seq<Update>, running: Option<Running>): set<Tile>
  {
    (set u | u in chain :: u.tile) + (if running.Some? then {running.value.update.tile} else {})
  }

  ghost predicate UpdateKnown(stored: map<Tile, seq<bv8>>, u: Update)
  {
    u.tile in stored && stored[u.tile] == u.data
  }

  /** The chain and the running update carry distinct downloads. */
  ghost predicate ChainPlaced(chain: seq<Update>, running: Option<Running>, stored: map<Tile, seq<bv8>>)
  {
    && (forall u | u in chain :: UpdateKnown(stored, u))
    && (running.Some? ==> UpdateKnown(stored, running.value.update) && running.value.update !in chain)
    && Distinct(chain)
  }

  // ---- what the events say ----

  function Front(events: seq<Event>): seq<Event>
    requires events != []
  {
    events[..|events| - 1]
  }

  function Last(events: seq<Event>): Event
    requires events != []
  {
    events[|events| - 1]
  }

  /** The download came back with bytes. */
  predicate Downloaded(ev: Event) { ev.FetchEnd? && ev.result.Data? && ev.result.bytes != [] }

  /** The bytes of each tile whose download came back with some. */
  function Downloads(events: seq<Event>): map<Tile, seq<bv8>>
    decreases |events|
  {
    if events == [] then map[]
    else
      var before, ev := Downloads(Front(events)), Last(events);
      if Downloaded(ev) then before[ev.tile := ev.result.bytes] else before
  }

  function Count(b: bool): nat { if b then 1 else 0 }

  function Missing(events: seq<Event>): nat
    decreases |events|
  {
    if events == [] then 0
    else Missing(Front(events)) + Count(Last(events).FetchEnd? && Last(events).result == Status(404))
  }

  /** The downloads that ended in any other way. */
  function Broken(events: seq<Event>): nat
    decreases |events|
  {
    if events == [] then 0
    else
      var ev := Last(events);
      Broken(Front(events)) + Count(ev.FetchEnd? && !Downloaded(ev) && ev.result != Status(404))
  }

  /** The tiles whose download has ended, as often as it has. */
  function Ended(events: seq<Event>): multiset<Tile>
    decreases |events|
  {
    if events == [] then multiset{}
    else if Last(events).FetchEnd? then Ended(Front(events)) + multiset{Last(events).tile}
    else Ended(Front(events))
  }

  /** The tasks started and not dropped yet. */
  function Tasks(events: seq<Event>): int
    decreases |events|
  {
    if events == [] then 0
    else Tasks(Front(events)) + Count(Last(events).Start?) - Count(Last(events).Drop?)
  }

  lemma OneMore(events: seq<Event>, ev: Event)
    ensures var after := events + [ev];
            && Downloads(after) == (if Downloaded(ev) then Downloads(events)[ev.tile := ev.result.bytes] else Downloads(events))
            && Missing(after) == Missing(events) + Count(ev.FetchEnd? && ev.result == Status(404))
            && Broken(after) == Broken(events) + Count(ev.FetchEnd? && !Downloaded(ev) && ev.result != Status(404))
            && Ended(after) == (if ev.FetchEnd? then Ended(events) + multiset{ev.tile} else Ended(events))
            && Tasks(after) == Tasks(events) + Count(ev.Start?) - Count(ev.Drop?)
  {
    var after := events + [ev];
    assert Front(after) == events && Last(after) == ev;
  }

  // ---- what every state keeps to ----

  ghost predicate Started(c: Config, s: State, t: Tile)
    requires s.next <= |c.tiles|
  {
    t in c.tiles[..s.next]
  }

  ghost predicate Counts(c: Config, events: seq<Event>, s: State)
  {
    && s.next <= |c.tiles|
    && InFlight(s) as real < c.concurrency + 1.0 && InFlight(s) == Tasks(events)
    && s.processed + |s.fetching| == s.next
    && s.processed == s.succeeded + s.skipped + s.failed
    && s.succeeded == |Downloads(events)| && s.skipped == Missing(events) && s.failed == Broken(events)
  }

  /** Every tile started is downloading, or its download has ended once. */
  ghost predicate Tallied(c: Config, events: seq<Event>, s: State)
  {
    s.next <= |c.tiles| && Ended(events) + multiset(s.fetching) == multiset(c.tiles[..s.next])
  }

  /** Every started tile is in at most one place. */
  ghost predicate Places(c: Config, s: State, stored: map<Tile, seq<bv8>>)
  {
    && s.next <= |c.tiles|
    && (forall t | t in s.fetching :: Started(c, s, t) && t !in stored)
    && (forall t | t in stored :: Started(c, s, t))
    && (forall t | t in s.settled :: Started(c, s, t) && t !in s.fetching && t !in Waiting(s.chain, s.running))
    && ChainPlaced(s.chain, s.running, stored)
  }

  /** Whatever has left the chain is in the tree, and a running update holds the current root; other tiles are as they were. */
  ghost predicate Resolved(c: Config, first: Cid, s: State, stored: map<Tile, seq<bv8>>)
  {
    && RootReady(c, s.root)
    && (s.running.Some? ==> s.running.value.captured == s.root)
    && forall t :: TileAt(c, first, s, stored, t)
  }

  ghost predicate TileAt(c: Config, first: Cid, s: State, stored: map<Tile, seq<bv8>>, t: Tile)
  {
    var now := ResolvePath(s.root, TilePath(c.ext, t));
    if t in stored && t !in Waiting(s.chain, s.running) then HoldsFile(now, File, false, stored[t])
    else now == ResolvePath(first, TilePath(c.ext, t))
  }

  /** What holds after every step of every run. */
  ghost predicate Inv(c: Config, first: Cid, events: seq<Event>, s: State)
  {
    Counts(c, events, s) && Tallied(c, events, s) && Places(c, s, Downloads(events)) && Resolved(c, first, s, Downloads(events))
  }

  lemma WaitingKnown(chain: seq<Update>, running: Option<Running>, stored: map<Tile, seq<bv8>>)
    requires ChainPlaced(chain, running, stored)
    ensures forall t | t in Waiting(chain, running) :: t in stored
    ensures running.Some? ==> running.value.update.tile !in Waiting(chain, None)
  {
  }

  lemma NextIsNew(c: Config, s: State, stored: map<Tile, seq<bv8>>)
    requires Good(c) && Places(c, s, stored) && s.next < |c.tiles|
    ensures var t := c.tiles[s.next];
            t !in s.fetching && t !in stored && t !in s.settled && t !in Waiting(s.chain, s.running)
  {
    assert !Started(c, s, c.tiles[s.next]);
    WaitingKnown(s.chain, s.running, stored);
  }

  lemma RunningIsAlone(c: Config, s: State, stored: map<Tile, seq<bv8>>)
    requires Places(c, s, stored) && s.running.Some?
    ensures var t := s.running.value.update.tile;
            && t !in s.settled && t !in Waiting(s.chain, None) && Started(c, s, t)
            && Waiting(s.chain, None) == Waiting(s.chain, s.running) - {t}
  {
    assert s.running.value.update.tile in Waiting(s.chain, s.running);
    WaitingKnown(s.chain, s.running, stored);
  }

  lemma StartCounts(c: Config, events: seq<Event>, s: State)
    requires Good(c) && Counts(c, events, s) && Places(c, s, Downloads(events)) && Enabled(c, s, Start)
    ensures Counts(c, events + [Start], Step(c, s, Start)) && Work(c, Step(c, s, Start)) < Work(c, s)
  {
    OneMore(events, Start);
    NextIsNew(c, s, Downloads(events));
  }

  lemma TallyStart(ended: multiset<Tile>, fetching: set<Tile>, started: seq<Tile>, t: Tile)
    requires ended + multiset(fetching) == multiset(started) && t !in fetching
    ensures ended + multiset(fetching + {t}) == multiset(started + [t])
  {
    assert multiset(fetching + {t}) == multiset(fetching) + multiset{t};
  }

  lemma TallyEnd(ended: multiset<Tile>, fetching: set<Tile>, t: Tile)
    requires t in fetching
    ensures ended + multiset{t} + multiset(fetching - {t}) == ended + multiset(fetching)
  {
    assert multiset(fetching - {t}) == multiset(fetching) - multiset{t};
  }

  lemma StepTallies(c: Config, events: seq<Event>, s: State, ev: Event)
    requires Tallied(c, events, s) && Enabled(c, s, ev)
    requires s.next < |c.tiles| ==> c.tiles[s.next] !in s.fetching
    ensures Tallied(c, events + [ev], Step(c, s, ev))
  {
    OneMore(events, ev);
    var s' := Step(c, s, ev);
    if ev.Start? {
      var t, before := c.tiles[s.next], c.tiles[..s.next];
      assert c.tiles[..s.next + 1] == before + [t];
      TallyStart(Ended(events), s.fetching, before, t);
      assert s'.fetching == s.fetching + {t} && s'.next == s.next + 1;
    } else if ev.FetchEnd? {
      TallyEnd(Ended(events), s.fetching, ev.tile);
      assert s'.fetching == s.fetching - {ev.tile} && s'.next == s.next;
    } else {
      assert s'.fetching == s.fetching && s'.next == s.next;
    }
  }

  lemma FetchingIsNew(c: Config, s: State, stored: map<Tile, seq<bv8>>, t: Tile)
    requires Places(c, s, stored) && t in s.fetching
    ensures t !in s.settled && t !in stored
  {
  }

  lemma FetchCounts(c: Config, events: seq<Event>, s: State, t: Tile, result: Fetched)
    requires Counts(c, events, s) && Enabled(c, s, FetchEnd(t, result)) && t !in s.settled && t !in Downloads(events)
    ensures var s' := Step(c, s, FetchEnd(t, result));
            Counts(c, events + [FetchEnd(t, result)], s') && Work(c, s') < Work(c, s)
  {
    OneMore(events, FetchEnd(t, result));
    assert |s.fetching - {t}| == |s.fetching| - 1 && |s.settled + {t}| == |s.settled| + 1;
    if Downloaded(FetchEnd(t, result)) {
      assert |Downloads(events)[t := result.bytes]| == |Downloads(events)| + 1;
    }
  }

  lemma EndCounts(c: Config, events: seq<Event>, s: State)
    requires Good(c) && Counts(c, events, s) && Places(c, s, Downloads(events)) && Enabled(c, s, End)
    ensures Counts(c, events + [End], Step(c, s, End)) && Work(c, Step(c, s, End)) < Work(c, s)
  {
    OneMore(events, End);
    RunningIsAlone(c, s, Downloads(events));
  }

  lemma BeginCounts(c: Config, events: seq<Event>, s: State)
    requires Counts(c, events, s) && Enabled(c, s, Begin)
    ensures Counts(c, events + [Begin], Step(c, s, Begin)) && Work(c, Step(c, s, Begin)) < Work(c, s)
  {
    OneMore(events, Begin);
  }

  lemma DropCounts(c: Config, events: seq<Event>, s: State, t: Tile)
    requires Counts(c, events, s) && Enabled(c, s, Drop(t))
    ensures Counts(c, events + [Drop(t)], Step(c, s, Drop(t))) && Work(c, Step(c, s, Drop(t))) < Work(c, s)
  {
    OneMore(events, Drop(t));
    assert |s.settled - {t}| == |s.settled| - 1;
  }

  lemma StepKeepsCounts(c: Config, events: seq<Event>, s: State, ev: Event)
    requires Good(c) && Counts(c, events, s) && Places(c, s, Downloads(events)) && Enabled(c, s, ev)
    ensures Counts(c, events + [ev], Step(c, s, ev)) && Work(c, Step(c, s, ev)) < Work(c, s)
  {
    match ev
    case Start => StartCounts(c, events, s);
    case FetchEnd(t, result) =>
      FetchingIsNew(c, s, Downloads(events), t);
      FetchCounts(c, events, s, t, result);
    case Begin => BeginCounts(c, events, s);
    case End => EndCounts(c, events, s);
    case Drop(t) => DropCounts(c, events, s, t);
  }

  lemma StartKeepsPlaces(c: Config, s: State, stored: map<Tile, seq<bv8>>)
    requires Good(c) && Places(c, s, stored) && Enabled(c, s, Start)
    ensures Places(c, Step(c, s, Start), stored)
  {
    var s' := Step(c, s, Start);
    NextIsNew(c, s, stored);
    assert c.tiles[..s.next + 1] == c.tiles[..s.next] + [c.tiles[s.next]];
    assert forall t | Started(c, s, t) :: Started(c, s', t);
  }

  lemma ChainPush(chain: seq<Update>, running: Option<Running>, stored: map<Tile, seq<bv8>>, u: Update)
    requires ChainPlaced(chain, running, stored) && u.tile !in stored
    ensures ChainPlaced(chain + [u], running, stored[u.tile := u.data])
    ensures Waiting(chain + [u], running) == Waiting(chain, running) + {u.tile}
  {
    assert forall v | v in chain :: UpdateKnown(stored, v) && UpdateKnown(stored[u.tile := u.data], v);
    assert forall v | v in chain + [u] :: v in chain || v == u;
    forall i | 0 <= i < |chain| ensures chain[i] != u {
      assert UpdateKnown(stored, chain[i]);
    }
  }

  lemma ChainShift(chain: seq<Update>, stored: map<Tile, seq<bv8>>, captured: Cid)
    requires ChainPlaced(chain, None, stored) && chain != []
    ensures ChainPlaced(chain[1..], Some(Running(chain[0], captured)), stored)
    ensures Waiting(chain[1..], Some(Running(chain[0], captured))) == Waiting(chain, None)
  {
    assert chain == [chain[0]] + chain[1..];
    assert forall u | u in chain[1..] :: u in chain;
  }

  /** What is downloaded once the event has happened. */
  function With(stored: map<Tile, seq<bv8>>, ev: Event): map<Tile, seq<bv8>>
  {
    if Downloaded(ev) then stored[ev.tile := ev.result.bytes] else stored
  }

  lemma FetchKeepsPlaces(c: Config, s: State, stored: map<Tile, seq<bv8>>, t: Tile, result: Fetched)
    requires Good(c) && Places(c, s, stored) && Enabled(c, s, FetchEnd(t, result))
    ensures Places(c, Step(c, s, FetchEnd(t, result)), With(stored, FetchEnd(t, result)))
  {
    WaitingKnown(s.chain, s.running, stored);
    assert Started(c, s, t);
    if Downloaded(FetchEnd(t, result)) {
      ChainPush(s.chain, s.running, stored, Update(t, result.bytes));
    }
  }

  lemma EndKeepsPlaces(c: Config, s: State, stored: map<Tile, seq<bv8>>)
    requires Good(c) && Places(c, s, stored) && Enabled(c, s, End)
    ensures Places(c, Step(c, s, End), stored)
  {
    RunningIsAlone(c, s, stored);
    WaitingKnown(s.chain, s.running, stored);
  }

  lemma RootAfterStore(c: Config, root: Cid, t: Tile, data: seq<bv8>)
    requires Reflexive(c.le) && RootReady(c, root) && t in c.tiles
    ensures StoreTile(c.le, c.ext, root, t, data).Some?
    ensures RootReady(c, StoreTile(c.le, c.ext, root, t, data).value)
  {
    StoreTileLaw(c.le, c.ext, root, t, data);
    var r := StoreTile(c.le, c.ext, root, t, data).value;
    assert ["meta.json"][0] != TileDir(t)[0];
    StoreTileFrame(c.le, c.ext, root, t, data, ["meta.json"]);
    forall u, j | u in c.tiles && 0 < j <= 3
      ensures ResolvePath(r, TileDir(u)[..j]).Some? ==> ResolvePath(r, TileDir(u)[..j]).value.kind == Dir
    {
      var p := TileDir(u)[..j];
      assert NoFileOn(root, TileDir(u));
      if p <= TileDir(t) {
        assert p == TileDir(t)[..j];
      } else {
        StoreTileFrame(c.le, c.ext, root, t, data, p);
      }
    }
  }

  lemma OtherTileUntouched(c: Config, root: Cid, u: Update, t: Tile)
    requires Reflexive(c.le) && RootReady(c, root) && u.tile in c.tiles && t != u.tile
    ensures StoreTile(c.le, c.ext, root, u.tile, u.data).Some?
    ensures ResolvePath(StoreTile(c.le, c.ext, root, u.tile, u.data).value, TilePath(c.ext, t)) ==
            ResolvePath(root, TilePath(c.ext, t))
  {
    if TilePath(c.ext, u.tile) == TilePath(c.ext, t) {
      TilePathInjective(c.ext, u.tile, t);
    }
    assert |TilePath(c.ext, t)| == |TilePath(c.ext, u.tile)| == 4;
    StoreTileFrame(c.le, c.ext, root, u.tile, u.data, TilePath(c.ext, t));
  }

  /** The update at the head of the chain never fails. */
  lemma EndEnabled(c: Config, first: Cid, s: State, stored: map<Tile, seq<bv8>>)
    requires Good(c) && Places(c, s, stored) && Resolved(c, first, s, stored) && s.running.Some?
    ensures Enabled(c, s, End)
  {
    RunningIsAlone(c, s, stored);
    RootAfterStore(c, s.root, s.running.value.update.tile, s.running.value.update.data);
  }

  lemma EndKeepsResolved(c: Config, first: Cid, s: State, stored: map<Tile, seq<bv8>>)
    requires Good(c) && Places(c, s, stored) && Resolved(c, first, s, stored) && Enabled(c, s, End)
    ensures Resolved(c, first, Step(c, s, End), stored)
  {
    var u := s.running.value.update;
    var s' := Step(c, s, End);
    RunningIsAlone(c, s, stored);
    RootAfterStore(c, s.root, u.tile, u.data);
    StoreTileLaw(c.le, c.ext, s.root, u.tile, u.data);
    assert UpdateKnown(stored, u);
    forall t ensures TileAt(c, first, s', stored, t) {
      assert TileAt(c, first, s, stored, t);
      if t != u.tile { OtherTileUntouched(c, s.root, u, t); }
    }
  }

  /** Only the end of an update releases a tile from the chain, and only into the tree. */
  lemma SameRootResolved(c: Config, first: Cid, s: State, stored: map<Tile, seq<bv8>>, s': State, stored': map<Tile, seq<bv8>>)
    requires Resolved(c, first, s, stored) && s'.root == s.root
    requires s'.running.Some? ==> s'.running.value.captured == s.root
    requires forall t :: (t in stored' && t !in Waiting(s'.chain, s'.running)) <==> (t in stored && t !in Waiting(s.chain, s.running))
    requires forall t | t in stored :: t in stored' && stored'[t] == stored[t]
    ensures Resolved(c, first, s', stored')
  {
    forall t ensures TileAt(c, first, s', stored', t) {
      assert TileAt(c, first, s, stored, t);
    }
  }

  lemma WaitingAfter(c: Config, s: State, stored: map<Tile, seq<bv8>>, ev: Event)
    requires Good(c) && Places(c, s, stored) && Enabled(c, s, ev) && !ev.End?
    ensures var s', stored' := Step(c, s, ev), With(stored, ev);
            && (forall t :: (t in stored' && t !in Waiting(s'.chain, s'.running)) <==> (t in stored && t !in Waiting(s.chain, s.running)))
            && (forall t | t in stored :: t in stored' && stored'[t] == stored[t])
  {
    if Downloaded(ev) {
      ChainPush(s.chain, s.running, stored, Update(ev.tile, ev.result.bytes));
    } else if ev.Begin? {
      ChainShift(s.chain, stored, s.root);
    }
  }

  lemma StepKeepsResolved(c: Config, first: Cid, s: State, stored: map<Tile, seq<bv8>>, ev: Event)
    requires Good(c) && Places(c, s, stored) && Resolved(c, first, s, stored) && Enabled(c, s, ev)
    ensures Resolved(c, first, Step(c, s, ev), With(stored, ev))
  {
    if ev.End? {
      EndKeepsResolved(c, first, s, stored);
    } else {
      WaitingAfter(c, s, stored, ev);
      SameRootResolved(c, first, s, stored, Step(c, s, ev), With(stored, ev));
    }
  }

  lemma BeginKeepsPlaces(c: Config, s: State, stored: map<Tile, seq<bv8>>)
    requires Good(c) && Places(c, s, stored) && Enabled(c, s, Begin)
    ensures Places(c, Step(c, s, Begin), stored)
  {
    ChainShift(s.chain, stored, s.root);
  }

  lemma StepKeepsPlaces(c: Config, s: State, stored: map<Tile, seq<bv8>>, ev: Event)
    requires Good(c) && Places(c, s, stored) && Enabled(c, s, ev)
    ensures Places(c, Step(c, s, ev), With(stored, ev))
  {
    match ev
    case Start => StartKeepsPlaces(c, s, stored);
    case FetchEnd(t, result) => FetchKeepsPlaces(c, s, stored, t, result);
    case Begin => BeginKeepsPlaces(c, s, stored);
    case End => EndKeepsPlaces(c, s, stored);
    case Drop(t) =>
      assert forall u | Started(c, s, u) :: Started(c, Step(c, s, ev), u);
  }

  lemma StepKeepsInv(c: Config, first: Cid, before: seq<Event>, s: State, ev: Event, after: seq<Event>)
    requires Good(c) && Inv(c, first, before, s) && Enabled(c, s, ev) && after == before + [ev]
    ensures Inv(c, first, after, Step(c, s, ev))
  {
    OneMore(before, ev);
    StepKeepsCounts(c, before, s, ev);
    if s.next < |c.tiles| { NextIsNew(c, s, Downloads(before)); }
    StepTallies(c, before, s, ev);
    StepKeepsPlaces(c, s, Downloads(before), ev);
    StepKeepsResolved(c, first, s, Downloads(before), ev);
  }

  /** What every step keeps, every run keeps. */
  lemma {:induction false} RunKeeps(c: Config, p: (seq<Event>, State) -> bool, before: seq<Event>, s: State, events: seq<Event>, end: State, all: seq<Event>)
    requires forall e, x, ev | p(e, x) && Enabled(c, x, ev) :: p(e + [ev], Step(c, x, ev))
    requires p(before, s) && Runs(c, s, events, end) && all == before + events
    ensures p(all, end)
    decreases |events|
  {
    if events == [] {
      assert all == before;
    } else {
      var next := before + [events[0]];
      assert all == next + events[1..];
      RunKeeps(c, p, next, Step(c, s, events[0]), events[1..], end, all);
    }
  }

  ghost function InvOf(c: Config, first: Cid): (seq<Event>, State) -> bool
  {
    (events: seq<Event>, s: State) => Inv(c, first, events, s)
  }

  lemma Reached(c: Config, s: State, events: seq<Event>, end: State)
    requires Good(c) && Initial(c, s) && Runs(c, s, events, end)
    ensures Inv(c, s.root, events, end)
  {
    assert forall t :: TileAt(c, s.root, s, map[], t);
    assert [] + events == events;
    var p := InvOf(c, s.root);
    forall e, x, ev | p(e, x) && Enabled(c, x, ev) ensures p(e + [ev], Step(c, x, ev)) {
      StepKeepsInv(c, s.root, e, x, ev, e + [ev]);
    }
    RunKeeps(c, p, [], s, events, end, events);
  }

  /** The state in which the crawler prints its result. */
  predicate Finished(c: Config, s: State)
  {
    s.next == |c.tiles| && InFlight(s) == 0
  }

  /**
   For every interleaving: the tasks in flight never outgrow `concurrency`, and when the run finishes
   the download of every visited tile has ended once, and was counted for what it was; the final root
   has `meta.json`, at the path of every tile that came back with bytes a file of just these, and at
   the path of every other tile what it had. No update is lost.
   */
  lemma CrawlCorrect(c: Config, s: State, events: seq<Event>, end: State)
    requires Good(c) && Initial(c, s) && Runs(c, s, events, end)
    ensures Tasks(events) as real < c.concurrency + 1.0
    ensures Finished(c, end) ==>
              && Tasks(events) == 0 && Ended(events) == multiset(c.tiles) && end.processed == |c.tiles|
              && end.succeeded == |Downloads(events)| && end.skipped == Missing(events) && end.failed == Broken(events)
              && HoldsFile(ResolvePath(end.root, ["meta.json"]), File, false, c.meta)
              && forall t ::
                   var now := ResolvePath(end.root, TilePath(c.ext, t));
                   if t in Downloads(events) then HoldsFile(now, File, false, Downloads(events)[t])
                   else now == ResolvePath(s.root, TilePath(c.ext, t))
  {
    Reached(c, s, events, end);
    if Finished(c, end) {
      assert end.chain == [] && end.running == None && end.fetching == {};
      assert c.tiles[..end.next] == c.tiles;
      forall t ensures var now := ResolvePath(end.root, TilePath(c.ext, t));
                       if t in Downloads(events) then HoldsFile(now, File, false, Downloads(events)[t])
                       else now == ResolvePath(s.root, TilePath(c.ext, t))
      {
        assert TileAt(c, s.root, end, Downloads(events), t);
      }
    }
  }

  /** Whole-number limits are kept exactly. */
  lemma IntegerConcurrency(c: Config, s: State, events: seq<Event>, end: State, limit: nat)
    requires Good(c) && Initial(c, s) && Runs(c, s, events, end) && c.concurrency == limit as real
    ensures 0 <= Tasks(events) <= limit
  {
    Reached(c, s, events, end);
  }

  // ---- the run always finishes ----

  function Work(c: Config, s: State): int
  {
    5 * (|c.tiles| - s.next) + 4 * |s.fetching| + 3 * |s.chain| + (if s.running.Some? then 2 else 0) + |s.settled|
  }

  /** Until it has finished, the crawler always has a step to take, and every step uses up work. */
  lemma Progress(c: Config, first: Cid, events: seq<Event>, s: State)
    requires Good(c) && Inv(c, first, events, s)
    ensures Finished(c, s) || exists ev :: Enabled(c, s, ev)
    ensures forall ev | Enabled(c, s, ev) :: 0 <= Work(c, Step(c, s, ev)) < Work(c, s)
  {
    if !Finished(c, s) {
      if InFlight(s) == 0 {
        assert Enabled(c, s, Start);
      } else if s.fetching != {} {
        var t :| t in s.fetching;
        assert Enabled(c, s, FetchEnd(t, Failed));
      } else if s.running.Some? {
        EndEnabled(c, first, s, Downloads(events));
        assert Enabled(c, s, End);
      } else if s.chain != [] {
        assert Enabled(c, s, Begin);
      } else {
        var t :| t in s.settled;
        assert Enabled(c, s, Drop(t));
      }
    }
    forall ev | Enabled(c, s, ev)
      ensures 0 <= Work(c, Step(c, s, ev)) < Work(c, s)
    {
      StepKeepsCounts(c, events, s, ev);
    }
  }

  lemma {:induction false} WorkBounds(c: Config, first: Cid, before: seq<Event>, s: State, events: seq<Event>, end: State)
    requires Good(c) && Inv(c, first, before, s) && Runs(c, s, events, end)
    ensures |events| <= Work(c, s)
    decreases |events|
  {
    if events != [] {
      Progress(c, first, before, s);
      StepKeepsInv(c, first, before, s, events[0], before + [events[0]]);
      WorkBounds(c, first, before + [events[0]], Step(c, s, events[0]), events[1..], end);
    }
  }

  /**
   A crawl cannot go on for ever: it takes at most five steps for each tile, and while it has not
   finished there is a step to take.
   */
  lemma RunsAreBounded(c: Config, s: State, events: seq<Event>, end: State)
    requires Good(c) && Initial(c, s) && Runs(c, s, events, end)
    ensures |events| <= 5 * |c.tiles|
    ensures Finished(c, end) || exists ev :: Enabled(c, end, ev)
  {
    assert forall t :: TileAt(c, s.root, s, map[], t);
    WorkBounds(c, s.root, [], s, events, end);
    Reached(c, s, events, end);
    Progress(c, s.root, events, end);
  }
}
