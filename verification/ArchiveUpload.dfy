/**
 Extracting an archive into an existing directory of a tree: all directories first, shallowest first,
 then the files in archive order, each by one `setEntry` on the growing root. Directories and files
 are stored encrypted, whatever the root is: under a plain root a new directory becomes plain with
 the first entry that is set in it.
 */
module ArchiveUpload {
  import opened Text
  import opened HashTree
  import opened PathPlan
  import opened Wrappers

  // ---- writing under a base directory ----

  /** One `setEntry` of the upload; the path is relative to the base directory. */
  datatype Write = MakeDir(path: seq<string>) | MakeFile(path: seq<string>, data: seq<bv8>)

  function Parent(p: seq<string>): seq<string> { if p == [] then [] else p[..|p| - 1] }

  function LastSegment(p: seq<string>): string { if p == [] then "" else p[|p| - 1] }

  function EntryOf(le: Collation, w: Write): Entry
  {
    match w
    case MakeDir(p) => Entry(LastSegment(p), PutDirectory(le, [], true), 0, Dir, None)
    case MakeFile(p, data) => Entry(LastSegment(p), PutFile(data, true), |data|, Blob, None)
  }

  function WriteOne(le: Collation, root: Cid, base: seq<string>, w: Write): Option<Cid>
  {
    SetEntryAt(le, root, base + Parent(w.path), EntryOf(le, w))
  }

  /** The writes in order; `None` when one of them throws. */
  function Apply(le: Collation, root: Cid, base: seq<string>, writes: seq<Write>): Option<Cid>
    decreases |writes|
  {
    if writes == [] then Some(root)
    else
      match WriteOne(le, root, base, writes[0])
      case None => None
      case Some(r) => Apply(le, r, base, writes[1..])
  }

  /** What a path below the base shows after some writes. */
  datatype View = Nothing | Directory | FileHere(data: seq<bv8>) | Untouched

  /** The last write at the path or above it decides. */
  function Seen(writes: seq<Write>, q: seq<string>): View
  {
    if writes == [] then Untouched
    else
      var w := writes[|writes| - 1];
      if w.path == q then (if w.MakeDir? then Directory else FileHere(w.data))
      else if w.path < q then Nothing
      else Seen(writes[..|writes| - 1], q)
  }

  predicate Shows(view: View, now: Option<Target>, before: Option<Target>)
  {
    match view
    case Nothing => now.None?
    case Directory => now.Some? && now.value.kind == Dir
    case FileHere(data) => HoldsFile(now, Blob, true, data)
    case Untouched => now == before
  }

  // ---- directories an edit can enter ----

  /** A directory as the upload makes it: encrypted and empty. */
  const MADE := Cid(Sealed(DirBlock([])), true)

  /** The directory is read as the root is, with a key or without, or it is the `last` one and was just made. */
  ghost predicate OpensAt(root: Cid, path: seq<string>, last: bool)
  {
    var t := ResolvePath(root, path);
    t.Some? && ((t.value.cid.key == root.key && ListDirectory(t.value.cid).Some?) || (last && t.value.cid == MADE))
  }

  /** Every directory along the path can be entered. The plain editor must be able to join the path. */
  ghost predicate Opens(root: Cid, path: seq<string>)
  {
    (root.key || Segments(path)) && forall j | 0 <= j <= |path| :: OpensAt(root, path[..j], j == |path|)
  }

  lemma ResolveTail(root: Cid, path: seq<string>, j: nat)
    requires path != [] && Child(root, path[0]).Some? && 0 < j < |path|
    ensures ResolvePath(root, path[..j + 1]) == ResolvePath(Child(root, path[0]).value.cid, path[1..][..j])
  {
    assert path[..j + 1][1..] == path[1..][..j];
  }

  /** An edit of a plain tree reaches a directory that was just made, and lists it as empty. */
  ghost predicate EndsMade(root: Cid, path: seq<string>)
  {
    && !root.key && path != [] && UniformAbove(root, path)
    && ResolvePath(root, path).Some? && ResolvePath(root, path).value.cid == MADE
    && Walk(root, path).Some? && ListDirectory(Walk(root, path).value) == Some([])
  }

  lemma SegmentsTail(path: seq<string>)
    requires Segments(path) && path != []
    ensures Segments(path[1..])
  {
    assert forall p | p in path[1..] :: p in path;
  }

  lemma OpensTail(root: Cid, path: seq<string>)
    requires Opens(root, path) && |path| > 1
    ensures Child(root, path[0]).Some?
    ensures Child(root, path[0]).value.cid.key == root.key && Opens(Child(root, path[0]).value.cid, path[1..])
  {
    assert OpensAt(root, path[..1], false);
    var sub := Child(root, path[0]).value.cid;
    if !root.key { SegmentsTail(path); }
    forall j | 0 <= j <= |path[1..]| ensures OpensAt(sub, path[1..][..j], j == |path[1..]|) {
      assert OpensAt(root, path[..j + 1], j + 1 == |path|);
      if j > 0 {
        ResolveTail(root, path, j);
      }
    }
  }

  lemma {:induction false} OpensShape(root: Cid, path: seq<string>)
    requires Opens(root, path)
    ensures Uniform(root, path) || EndsMade(root, path)
    decreases |path|
  {
    assert OpensAt(root, path[..|path|], true) && path[..|path|] == path;
    if |path| == 1 {
      var sub := Child(root, path[0]).value.cid;
      assert path[1..] == [] && Uniform(sub, []);
      if sub.key != root.key {
        assert sub == MADE && Walk(root, path) == Walk(Cid(MADE.block, false), path[1..]);
      }
    } else if |path| > 1 {
      OpensTail(root, path);
      OpensShape(Child(root, path[0]).value.cid, path[1..]);
    }
  }

  /** In a directory that can be entered, an entry can be set. */
  lemma OpensSet(le: Collation, root: Cid, path: seq<string>, e: Entry)
    requires Opens(root, path)
    ensures UniformAbove(root, path) && SetEntry(le, root, path, e).Some?
    ensures SetEntryAt(le, root, path, e) == SetEntry(le, root, path, e)
  {
    OpensShape(root, path);
    SetEntryAtSegments(le, root, path, e);
    if Uniform(root, path) {
      UniformIsUniformAbove(root, path);
      UniformWalk(root, path);
      assert path[..|path|] == path;
      assert OpensAt(root, path[..|path|], true);
    }
  }

  lemma MadeHoldsNothing(n: string)
    ensures Child(MADE, n).None?
  {
    assert ListDirectory(MADE) == Some([]);
  }

  /** Nothing outside the entry is disturbed. */
  lemma SetFrame(le: Collation, root: Cid, path: seq<string>, e: Entry, q: seq<string>)
    requires Reflexive(le) && Opens(root, path)
    requires !(path + [e.name] <= q) && !(q <= path)
    ensures SetEntry(le, root, path, e).Some? && ResolvePath(SetEntry(le, root, path, e).value, q) == ResolvePath(root, q)
  {
    OpensSet(le, root, path, e);
    OpensShape(root, path);
    if Uniform(root, path) {
      SetEntryFrame(le, root, path, e, q);
    } else {
      forall n: string | n != e.name ensures Child(MADE, n).None? { MadeHoldsNothing(n); }
      LossySame(le, root, path, e, q);
    }
  }

  lemma PutLists(le: Collation, entries: seq<Entry>, encrypted: bool)
    ensures ListDirectory(PutDirectory(le, entries, encrypted)).Some?
  {
  }

  /** After an edit, the rewritten directories can be entered again. */
  lemma {:induction false} GraftOpens(le: Collation, dir: Cid, path: seq<string>, child: Cid, q: seq<string>)
    requires Reflexive(le) && Walk(dir, path).Some? && q <= path
    requires child.key == dir.key && ListDirectory(child).Some?
    ensures Graft(le, dir, path, child).key == dir.key && OpensAt(Graft(le, dir, path, child), q, false)
    decreases |path|
  {
    if path != [] {
      var sub := Follow(dir.key, Child(dir, path[0]).value.cid).value;
      PutLists(le, Replace(ListDirectory(dir).value, path[0], Graft(le, sub, path[1..], child)), dir.key);
      if q != [] {
        GraftChild(le, dir, path, child, path[0]);
        GraftOpens(le, sub, path[1..], child, q[1..]);
      }
    }
  }

  /** A directory that could be entered, and is not the one replaced, can still be entered. */
  lemma SetKeepsOpens(le: Collation, root: Cid, path: seq<string>, e: Entry, x: seq<string>)
    requires Reflexive(le) && Opens(root, path) && Opens(root, x)
    requires !(path + [e.name] <= x)
    ensures SetEntry(le, root, path, e).Some? && SetEntry(le, root, path, e).value.key == root.key
    ensures Opens(SetEntry(le, root, path, e).value, x)
  {
    OpensSet(le, root, path, e);
    var r := SetEntry(le, root, path, e).value;
    var entries := Upsert(ListDirectory(Walk(root, path).value).value, e);
    var child := PutDirectory(le, entries, root.key);
    PutLists(le, entries, root.key);
    GraftOpens(le, root, path, child, path);
    forall j | 0 <= j <= |x| ensures OpensAt(r, x[..j], j == |x|) {
      var y := x[..j];
      assert OpensAt(root, y, j == |x|);
      if y <= path {
        GraftOpens(le, root, path, child, y);
      } else {
        assert y <= x;
        SetFrame(le, root, path, e, y);
      }
    }
  }

  lemma SegmentsSnoc(path: seq<string>, name: string)
    requires Segments(path) && name != "" && '/' !in name
    ensures Segments(path + [name])
  {
  }

  /** The rewritten directory can be entered, and so can the entry when it is a directory that was just made. */
  lemma RewrittenOpens(le: Collation, root: Cid, path: seq<string>, e: Entry)
    requires Reflexive(le) && SetEntry(le, root, path, e).Some? && (root.key || Segments(path))
    ensures var r := SetEntry(le, root, path, e).value; r.key == root.key && Opens(r, path)
    ensures e.name != "" && e.cid == MADE && (root.key || '/' !in e.name) ==>
              Opens(SetEntry(le, root, path, e).value, path + [e.name])
  {
    var r, x := SetEntry(le, root, path, e).value, path + [e.name];
    var entries := Upsert(ListDirectory(Walk(root, path).value).value, e);
    var child := PutDirectory(le, entries, root.key);
    PutLists(le, entries, root.key);
    GraftOpens(le, root, path, child, path);
    forall j | 0 <= j <= |path| ensures OpensAt(r, path[..j], false) {
      GraftOpens(le, root, path, child, path[..j]);
    }
    if e.name != "" && e.cid == MADE && (root.key || '/' !in e.name) {
      ReadBack(le, root, path, e);
      if !root.key { SegmentsSnoc(path, e.name); }
      forall j | 0 <= j <= |x| ensures OpensAt(r, x[..j], j == |x|) {
        if j <= |path| { assert x[..j] == path[..j]; } else { assert x[..j] == x; }
      }
    }
  }

  lemma SetOpensNew(le: Collation, root: Cid, path: seq<string>, e: Entry)
    requires Reflexive(le) && Opens(root, path) && e.name != "" && e.cid == MADE && (root.key || '/' !in e.name)
    ensures SetEntry(le, root, path, e).Some? && Opens(SetEntry(le, root, path, e).value, path + [e.name])
  {
    OpensSet(le, root, path, e);
    RewrittenOpens(le, root, path, e);
  }

  // ---- one write ----

  lemma FreshHoldsNothing(le: Collation, w: Write, t: seq<string>)
    requires t != []
    ensures ResolvePath(EntryOf(le, w).cid, t).None?
  {
    assert Child(EntryOf(le, w).cid, t[0]).None?;
  }

  lemma PathOf(base: seq<string>, p: seq<string>)
    requires p != []
    ensures base + Parent(p) + [LastSegment(p)] == base + p
  {
  }

  lemma PrefixUnderBase(base: seq<string>, p: seq<string>, q: seq<string>)
    ensures base + p <= base + q <==> p <= q
  {
    if p <= q {
      assert base + q == base + p + q[|p|..];
    }
    if base + p <= base + q {
      assert q[..|p|] == (base + q)[|base|..|base| + |p|] == p;
    }
  }

  /** A path the write can be carried out at. */
  ghost predicate CanWrite(le: Collation, root: Cid, base: seq<string>, w: Write)
  {
    Reflexive(le) && w.path != [] && Segments(w.path) && Opens(root, base + Parent(w.path))
  }

  lemma WriteSucceeds(le: Collation, root: Cid, base: seq<string>, w: Write)
    requires CanWrite(le, root, base, w)
    ensures WriteOne(le, root, base, w).Some? && LastSegment(w.path) != "" && '/' !in LastSegment(w.path)
    ensures WriteOne(le, root, base, w) == SetEntry(le, root, base + Parent(w.path), EntryOf(le, w))
    ensures base + Parent(w.path) + [LastSegment(w.path)] == base + w.path
    ensures UniformAbove(root, base + Parent(w.path))
    ensures ResolvePath(WriteOne(le, root, base, w).value, base + w.path) ==
            Some(AsTarget(EntryOf(le, w)))
  {
    assert LastSegment(w.path) in w.path;
    OpensSet(le, root, base + Parent(w.path), EntryOf(le, w));
    PathOf(base, w.path);
    ReadBack(le, root, base + Parent(w.path), EntryOf(le, w));
  }

  lemma Continuation(base: seq<string>, p: seq<string>, q: seq<string>) returns (t: seq<string>)
    requires p < q
    ensures t != [] && base + q == base + p + t
  {
    t := q[|p|..];
  }

  lemma BelowFresh(le: Collation, r: Cid, p: seq<string>, w: Write, t: seq<string>)
    requires t != [] && ResolvePath(r, p) == Some(AsTarget(EntryOf(le, w)))
    ensures ResolvePath(r, p + t).None?
  {
    ResolveCompose(r, p, t);
    FreshHoldsNothing(le, w, t);
  }

  /** Nothing is left below a path that was just written. */
  lemma WriteClears(le: Collation, root: Cid, base: seq<string>, w: Write, q: seq<string>)
    requires CanWrite(le, root, base, w) && w.path < q
    ensures WriteOne(le, root, base, w).Some?
    ensures ResolvePath(WriteOne(le, root, base, w).value, base + q).None?
  {
    WriteSucceeds(le, root, base, w);
    var t := Continuation(base, w.path, q);
    BelowFresh(le, WriteOne(le, root, base, w).value, base + w.path, w, t);
  }

  lemma WriteAbove(le: Collation, root: Cid, base: seq<string>, w: Write, q: seq<string>)
    requires CanWrite(le, root, base, w) && q <= Parent(w.path)
    ensures WriteOne(le, root, base, w).Some?
    ensures var r := WriteOne(le, root, base, w).value;
            && ResolvePath(root, base + q).Some? && ResolvePath(r, base + q).Some?
            && ResolvePath(r, base + q).value.kind == ResolvePath(root, base + q).value.kind
  {
    WriteSucceeds(le, root, base, w);
    PrefixUnderBase(base, q, Parent(w.path));
    SetEntryAbove(le, root, base + Parent(w.path), EntryOf(le, w), base + q);
  }

  /** Every path that is neither at, below nor above the written one reads as before. */
  lemma WriteElsewhere(le: Collation, root: Cid, base: seq<string>, w: Write, q: seq<string>)
    requires CanWrite(le, root, base, w) && !(w.path <= q) && !(q <= Parent(w.path))
    ensures WriteOne(le, root, base, w).Some?
    ensures ResolvePath(WriteOne(le, root, base, w).value, base + q) == ResolvePath(root, base + q)
  {
    WriteSucceeds(le, root, base, w);
    PrefixUnderBase(base, w.path, q);
    PrefixUnderBase(base, q, Parent(w.path));
    SetFrame(le, root, base + Parent(w.path), EntryOf(le, w), base + q);
  }

  /** Paths outside the base directory are never touched. */
  lemma WriteOutside(le: Collation, root: Cid, base: seq<string>, w: Write, q: seq<string>)
    requires CanWrite(le, root, base, w) && !(q <= base) && !(base <= q)
    ensures WriteOne(le, root, base, w).Some?
    ensures ResolvePath(WriteOne(le, root, base, w).value, q) == ResolvePath(root, q)
  {
    var e, path := EntryOf(le, w), base + Parent(w.path);
    WriteSucceeds(le, root, base, w);
    var k := Diverge(base, q);
    assert (path + [e.name])[k] == base[k] && path[k] == base[k];
    SetFrame(le, root, path, e, q);
  }

  lemma WriteKeepsOpens(le: Collation, root: Cid, base: seq<string>, w: Write, x: seq<string>)
    requires CanWrite(le, root, base, w) && Opens(root, base + x) && !(w.path <= x)
    ensures WriteOne(le, root, base, w).Some? && WriteOne(le, root, base, w).value.key == root.key
    ensures Opens(WriteOne(le, root, base, w).value, base + x)
  {
    WriteSucceeds(le, root, base, w);
    PrefixUnderBase(base, w.path, x);
    SetKeepsOpens(le, root, base + Parent(w.path), EntryOf(le, w), base + x);
  }

  lemma WriteOpensNew(le: Collation, root: Cid, base: seq<string>, w: Write)
    requires CanWrite(le, root, base, w) && w.MakeDir?
    ensures WriteOne(le, root, base, w).Some? && Opens(WriteOne(le, root, base, w).value, base + w.path)
  {
    WriteSucceeds(le, root, base, w);
    SetOpensNew(le, root, base + Parent(w.path), EntryOf(le, w));
  }

  // ---- a sequence of writes ----

  /** The write goes into the base directory or into a directory made before and still there. */
  predicate ParentedAt(writes: seq<Write>, i: nat)
    requires i < |writes|
  {
    var p := writes[i].path;
    p != [] && Segments(p) && (Parent(p) == [] || Seen(writes[..i], Parent(p)) == Directory)
  }

  predicate Parented(writes: seq<Write>)
  {
    forall i | 0 <= i < |writes| :: ParentedAt(writes, i)
  }

  lemma SeenNext(writes: seq<Write>, i: nat, q: seq<string>)
    requires i < |writes|
    ensures var w := writes[i];
            Seen(writes[..i + 1], q) ==
            if w.path == q then (if w.MakeDir? then Directory else FileHere(w.data))
            else if w.path < q then Nothing
            else Seen(writes[..i], q)
  {
    assert writes[..i + 1][..i] == writes[..i];
  }

  lemma ParentMade(writes: seq<Write>, i: nat, x: seq<string>, y: seq<string>)
    requires i < |writes| && Parented(writes) && writes[i].path == x && y < x && y != []
    ensures y <= Parent(x) && Seen(writes[..i], Parent(x)) == Directory
  {
    assert ParentedAt(writes, i);
  }

  /** Directories made by the run lie in directories made by the run. */
  lemma {:induction false} DirectoriesAbove(writes: seq<Write>, i: nat, x: seq<string>, y: seq<string>)
    requires i <= |writes| && Parented(writes) && Seen(writes[..i], x) == Directory && y <= x && y != []
    ensures Seen(writes[..i], y) == Directory
  {
    if i > 0 {
      var w := writes[i - 1];
      SeenNext(writes, i - 1, x);
      SeenNext(writes, i - 1, y);
      if w.path == x {
        if y != x {
          ParentMade(writes, i - 1, x, y);
          DirectoriesAbove(writes, i - 1, Parent(x), y);
        }
      } else {
        DirectoriesAbove(writes, i - 1, x, y);
      }
    }
  }

  ghost predicate MadeDirsOpen(base: seq<string>, writes: seq<Write>, r: Cid)
  {
    Opens(r, base) && forall x: seq<string> | Seen(writes, x) == Directory :: Opens(r, base + x)
  }

  ghost predicate ShowsAt(root: Cid, base: seq<string>, writes: seq<Write>, r: Cid, q: seq<string>)
  {
    Shows(Seen(writes, q), ResolvePath(r, base + q), ResolvePath(root, base + q))
  }

  ghost predicate SameOutside(root: Cid, base: seq<string>, r: Cid)
  {
    forall q: seq<string> | !(q <= base) && !(base <= q) :: ResolvePath(r, q) == ResolvePath(root, q)
  }

  ghost predicate Progressed(root: Cid, base: seq<string>, writes: seq<Write>, r: Cid)
  {
    && MadeDirsOpen(base, writes, r)
    && (forall q: seq<string> | q != [] :: ShowsAt(root, base, writes, r, q))
    && SameOutside(root, base, r)
  }

  lemma NextCanWrite(le: Collation, base: seq<string>, writes: seq<Write>, i: nat, r: Cid)
    requires Reflexive(le) && Parented(writes) && i < |writes| && MadeDirsOpen(base, writes[..i], r)
    ensures CanWrite(le, r, base, writes[i]) && WriteOne(le, r, base, writes[i]).Some?
  {
    assert ParentedAt(writes, i);
    assert base + [] == base;
    WriteSucceeds(le, r, base, writes[i]);
  }

  lemma NextOpens(le: Collation, base: seq<string>, writes: seq<Write>, i: nat, r: Cid)
    requires Reflexive(le) && Parented(writes) && i < |writes| && MadeDirsOpen(base, writes[..i], r)
    ensures WriteOne(le, r, base, writes[i]).Some?
    ensures MadeDirsOpen(base, writes[..i + 1], WriteOne(le, r, base, writes[i]).value)
  {
    NextCanWrite(le, base, writes, i, r);
    var r' := WriteOne(le, r, base, writes[i]).value;
    assert base + [] == base;
    WriteKeepsOpens(le, r, base, writes[i], []);
    forall x: seq<string> | Seen(writes[..i + 1], x) == Directory ensures Opens(r', base + x) {
      SeenNext(writes, i, x);
      if writes[i].path == x {
        WriteOpensNew(le, r, base, writes[i]);
      } else {
        WriteKeepsOpens(le, r, base, writes[i], x);
      }
    }
  }

  /** A write shows what it says. */
  lemma WriteShows(le: Collation, w: Write, before: Option<Target>)
    ensures Shows(if w.MakeDir? then Directory else FileHere(w.data), Some(AsTarget(EntryOf(le, w))), before)
  {
  }

  /** At the path of the next write, and on the way to it. */
  lemma NextAtOrAbove(le: Collation, root: Cid, base: seq<string>, writes: seq<Write>, i: nat, r: Cid, q: seq<string>)
    requires Reflexive(le) && Parented(writes) && i < |writes| && MadeDirsOpen(base, writes[..i], r)
    requires q != [] && (q == writes[i].path || q <= Parent(writes[i].path)) && ShowsAt(root, base, writes[..i], r, q)
    ensures WriteOne(le, r, base, writes[i]).Some?
    ensures ShowsAt(root, base, writes[..i + 1], WriteOne(le, r, base, writes[i]).value, q)
  {
    var w := writes[i];
    NextCanWrite(le, base, writes, i, r);
    SeenNext(writes, i, q);
    WriteSucceeds(le, r, base, w);
    if w.path == q {
      WriteShows(le, w, ResolvePath(root, base + q));
    } else {
      assert ParentedAt(writes, i);
      DirectoriesAbove(writes, i, Parent(w.path), q);
      WriteAbove(le, r, base, w, q);
    }
  }

  lemma NextShows(le: Collation, root: Cid, base: seq<string>, writes: seq<Write>, i: nat, r: Cid, q: seq<string>)
    requires Reflexive(le) && Parented(writes) && i < |writes| && MadeDirsOpen(base, writes[..i], r)
    requires q != [] && ShowsAt(root, base, writes[..i], r, q)
    ensures WriteOne(le, r, base, writes[i]).Some?
    ensures ShowsAt(root, base, writes[..i + 1], WriteOne(le, r, base, writes[i]).value, q)
  {
    var w := writes[i];
    if q == w.path || q <= Parent(w.path) {
      NextAtOrAbove(le, root, base, writes, i, r, q);
    } else {
      NextCanWrite(le, base, writes, i, r);
      SeenNext(writes, i, q);
      if w.path < q { WriteClears(le, r, base, w, q); } else { WriteElsewhere(le, r, base, w, q); }
    }
  }

  lemma ProgressStep(le: Collation, root: Cid, base: seq<string>, writes: seq<Write>, i: nat, r: Cid)
    requires Reflexive(le) && Parented(writes) && i < |writes| && Progressed(root, base, writes[..i], r)
    ensures WriteOne(le, r, base, writes[i]).Some?
    ensures Progressed(root, base, writes[..i + 1], WriteOne(le, r, base, writes[i]).value)
  {
    NextCanWrite(le, base, writes, i, r);
    NextOpens(le, base, writes, i, r);
    var r' := WriteOne(le, r, base, writes[i]).value;
    var next := writes[..i + 1];
    forall q: seq<string> | q != [] ensures ShowsAt(root, base, next, r', q) {
      NextShows(le, root, base, writes, i, r, q);
    }
    forall q: seq<string> | !(q <= base) && !(base <= q) ensures ResolvePath(r', q) == ResolvePath(root, q) {
      WriteOutside(le, r, base, writes[i], q);
    }
  }

  /** No write throws, and the final root shows exactly what the writes say. */
  lemma {:induction false} WritesProgress(le: Collation, root: Cid, base: seq<string>, writes: seq<Write>, i: nat, r: Cid)
    requires Reflexive(le) && Parented(writes) && i <= |writes| && Progressed(root, base, writes[..i], r)
    ensures Apply(le, r, base, writes[i..]).Some?
    ensures Progressed(root, base, writes, Apply(le, r, base, writes[i..]).value)
    decreases |writes| - i
  {
    if i == |writes| {
      assert writes[..i] == writes;
    } else {
      ProgressStep(le, root, base, writes, i, r);
      assert writes[i..][1..] == writes[i + 1..];
      WritesProgress(le, root, base, writes, i + 1, WriteOne(le, r, base, writes[i]).value);
    }
  }

  // ---- directories, then files ----

  /** Directory paths in order of length. */
  predicate ByLength(ps: seq<seq<string>>)
  {
    forall i, j | 0 <= i < j < |ps| :: |ps[i]| <= |ps[j]|
  }

  function DirWrites(ps: seq<seq<string>>): seq<Write>
  {
    seq(|ps|, i requires 0 <= i < |ps| => MakeDir(ps[i]))
  }

  predicate DirAbove(ps: seq<seq<string>>, q: seq<string>)
  {
    exists i | 0 <= i < |ps| :: ps[i] < q
  }

  lemma DirsSnoc(ps: seq<seq<string>>, q: seq<string>)
    requires ps != []
    ensures DirAbove(ps, q) <==> ps[|ps| - 1] < q || DirAbove(ps[..|ps| - 1], q)
    ensures q in ps <==> ps[|ps| - 1] == q || q in ps[..|ps| - 1]
    ensures DirWrites(ps)[..|ps| - 1] == DirWrites(ps[..|ps| - 1])
  {
    var rest := ps[..|ps| - 1];
    assert ps == rest + [ps[|ps| - 1]];
    assert forall i | 0 <= i < |rest| :: rest[i] == ps[i];
  }

  lemma LongestAbove(ps: seq<seq<string>>, q: seq<string>)
    requires ByLength(ps) && ps != [] && ps[|ps| - 1] < q
    ensures q !in ps
  {
    assert forall i | 0 <= i < |ps| - 1 :: |ps[i]| <= |ps[|ps| - 1]|;
  }

  /** Shallowest first, a directory that was made is never cleared by a later one. */
  lemma {:induction false} SeenDirs(ps: seq<seq<string>>, q: seq<string>)
    requires ByLength(ps)
    ensures Seen(DirWrites(ps), q) == if q in ps then Directory else if DirAbove(ps, q) then Nothing else Untouched
  {
    if ps != [] {
      SeenDirs(ps[..|ps| - 1], q);
      DirsSnoc(ps, q);
      if ps[|ps| - 1] < q {
        LongestAbove(ps, q);
      }
    }
  }

  datatype PathFile = PathFile(path: seq<string>, data: seq<bv8>)

  function FileWrites(fs: seq<PathFile>): seq<Write>
  {
    seq(|fs|, i requires 0 <= i < |fs| => MakeFile(fs[i].path, fs[i].data))
  }

  predicate HasFile(fs: seq<PathFile>, q: seq<string>)
  {
    exists i | 0 <= i < |fs| :: fs[i].path == q
  }

  predicate FileAbove(fs: seq<PathFile>, q: seq<string>)
  {
    exists i | 0 <= i < |fs| :: fs[i].path < q
  }

  /** Of several files with one path, the last one stays. */
  function LastAt(fs: seq<PathFile>, q: seq<string>): seq<bv8>
  {
    if fs == [] then []
    else if fs[|fs| - 1].path == q then fs[|fs| - 1].data
    else LastAt(fs[..|fs| - 1], q)
  }

  /** No file path continues another. */
  predicate Apart(fs: seq<PathFile>)
  {
    forall i, j | 0 <= i < |fs| && 0 <= j < |fs| :: !(fs[i].path < fs[j].path)
  }

  lemma FilesSnoc(fs: seq<PathFile>, q: seq<string>)
    requires fs != []
    ensures HasFile(fs, q) <==> fs[|fs| - 1].path == q || HasFile(fs[..|fs| - 1], q)
    ensures FileAbove(fs, q) <==> fs[|fs| - 1].path < q || FileAbove(fs[..|fs| - 1], q)
  {
    var rest := fs[..|fs| - 1];
    assert forall i | 0 <= i < |rest| :: rest[i] == fs[i];
  }

  lemma ApartAbove(fs: seq<PathFile>, q: seq<string>)
    requires Apart(fs) && FileAbove(fs, q)
    ensures !HasFile(fs, q)
  {
  }

  lemma FileWritesSnoc(dirs: seq<Write>, fs: seq<PathFile>)
    requires fs != []
    ensures var writes, n := dirs + FileWrites(fs), |fs| - 1;
            && writes[..|writes| - 1] == dirs + FileWrites(fs[..n])
            && writes[|writes| - 1] == MakeFile(fs[n].path, fs[n].data)
  {
  }

  lemma {:induction false} SeenFiles(dirs: seq<Write>, fs: seq<PathFile>, q: seq<string>)
    requires Apart(fs)
    ensures Seen(dirs + FileWrites(fs), q) ==
            if HasFile(fs, q) then FileHere(LastAt(fs, q))
            else if FileAbove(fs, q) then Nothing
            else Seen(dirs, q)
  {
    var writes := dirs + FileWrites(fs);
    if fs == [] {
      assert writes == dirs;
    } else {
      var rest := fs[..|fs| - 1];
      assert Apart(rest);
      SeenFiles(dirs, rest, q);
      FileWritesSnoc(dirs, fs);
      FilesSnoc(fs, q);
      if FileAbove(fs, q) {
        ApartAbove(fs, q);
      }
    }
  }

  // ---- the plan of an archive ----

  function DirPaths(dirs: seq<string>): seq<seq<string>>
  {
    seq(|dirs|, i requires 0 <= i < |dirs| => Parts(dirs[i]))
  }

  function FilePaths(files: seq<Asset>): seq<PathFile>
  {
    seq(|files|, i requires 0 <= i < |files| => PathFile(Parts(files[i].path), files[i].data))
  }

  function Plan(dirs: seq<string>, files: seq<Asset>): seq<Write>
  {
    DirWrites(DirPaths(dirs)) + FileWrites(FilePaths(files))
  }

  /** A proper prefix of the path is a file or a directory of the archive. */
  ghost predicate Below(files: seq<Asset>, q: seq<string>)
  {
    exists k | 0 < k < |q| :: IsFile(files, q[..k]) || IsDir(files, q[..k])
  }

  /** What extraction should leave at a path below the base. */
  ghost function Expected(files: seq<Asset>, q: seq<string>): View
  {
    if IsFile(files, q) then FileHere(LastAt(FilePaths(files), q))
    else if IsDir(files, q) then Directory
    else if Below(files, q) then Nothing
    else Untouched
  }

  lemma DirPathsByLength(dirs: seq<string>)
    requires Ascending(Depth, dirs)
    ensures ByLength(DirPaths(dirs))
  {
    var ps := DirPaths(dirs);
    forall i, j | 0 <= i < j < |ps| ensures |ps[i]| <= |ps[j]| {
      AscendingPair(Depth, dirs, i, j);
    }
  }

  lemma DirPathsHas(files: seq<Asset>, dirs: seq<string>, q: seq<string>)
    requires Lists(files, dirs)
    ensures q in DirPaths(dirs) <==> IsDir(files, q)
  {
    var ps := DirPaths(dirs);
    if IsDir(files, q) {
      var a :| a in files && q < Parts(a.path);
      DirSetComplete(files, a, q);
      PartsOfDir(files, q);
      var i :| 0 <= i < |dirs| && dirs[i] == Join(q, '/');
      assert ps[i] == q;
    }
    if i :| 0 <= i < |ps| && ps[i] == q {
      assert dirs[i] in dirs;
      DirSetSound(files, dirs[i]);
    }
  }

  lemma FilePathsHas(files: seq<Asset>, q: seq<string>)
    ensures HasFile(FilePaths(files), q) <==> IsFile(files, q)
  {
    var fs := FilePaths(files);
    if IsFile(files, q) {
      var a :| a in files && Parts(a.path) == q;
      var i :| 0 <= i < |files| && files[i] == a;
      assert fs[i].path == q;
    }
    if i :| 0 <= i < |fs| && fs[i].path == q {
      assert files[i] in files;
    }
  }

  lemma FilePathsApart(files: seq<Asset>)
    requires WellFormed(files)
    ensures Apart(FilePaths(files))
  {
    var fs := FilePaths(files);
    forall i, j | 0 <= i < |fs| && 0 <= j < |fs| ensures !(fs[i].path < fs[j].path) {
      assert files[i] in files && files[j] in files;
    }
  }

  lemma AboveIsBelow(files: seq<Asset>, p: seq<string>, q: seq<string>)
    requires p < q && (IsFile(files, p) || IsDir(files, p))
    ensures Below(files, q)
  {
    assert q[..|p|] == p;
    if IsFile(files, p) {
      var a :| a in files && Parts(a.path) == p;
    }
  }

  lemma FileAboveMeansBelow(files: seq<Asset>, q: seq<string>)
    requires WellFormed(files) && FileAbove(FilePaths(files), q)
    ensures Below(files, q) && !IsFile(files, q) && !IsDir(files, q)
  {
    var fs := FilePaths(files);
    var i :| 0 <= i < |fs| && fs[i].path < q;
    var p := fs[i].path;
    assert HasFile(fs, p);
    FilePathsHas(files, p);
    AboveIsBelow(files, p, q);
    assert q == p + q[|p|..];
    NothingBelowFile(files, p, q[|p|..]);
  }

  lemma DirAboveMeansBelow(files: seq<Asset>, dirs: seq<string>, q: seq<string>)
    requires Lists(files, dirs)
    ensures Below(files, q) <==>
            FileAbove(FilePaths(files), q) || DirAbove(DirPaths(dirs), q)
  {
    var ps, fs := DirPaths(dirs), FilePaths(files);
    if i :| 0 <= i < |ps| && ps[i] < q {
      DirPathsHas(files, dirs, ps[i]);
      AboveIsBelow(files, ps[i], q);
    }
    if i :| 0 <= i < |fs| && fs[i].path < q {
      FilePathsHas(files, fs[i].path);
      AboveIsBelow(files, fs[i].path, q);
    }
    if k :| 0 < k < |q| && (IsFile(files, q[..k]) || IsDir(files, q[..k])) {
      var p := q[..k];
      FilePathsHas(files, p);
      DirPathsHas(files, dirs, p);
      assert p < q && (p in ps || HasFile(fs, p));
    }
  }

  /** The order of the writes gives exactly the expected view. */
  lemma PlanSeen(files: seq<Asset>, dirs: seq<string>, q: seq<string>)
    requires WellFormed(files) && Lists(files, dirs) && Ascending(Depth, dirs)
    ensures Seen(Plan(dirs, files), q) == Expected(files, q)
  {
    DirPathsByLength(dirs);
    DirPathsHas(files, dirs, q);
    FilePathsHas(files, q);
    FilePathsApart(files);
    SeenDirs(DirPaths(dirs), q);
    SeenFiles(DirWrites(DirPaths(dirs)), FilePaths(files), q);
    DirAboveMeansBelow(files, dirs, q);
    if FileAbove(FilePaths(files), q) {
      FileAboveMeansBelow(files, q);
    }
  }

  lemma DirNames(files: seq<Asset>, p: seq<string>)
    requires WellFormed(files) && (IsDir(files, p) || IsFile(files, p))
    ensures p != [] && Segments(p)
  {
    var a :| a in files && p <= Parts(a.path);
    SplitParts(a.path, '/');
    assert forall s | s in p :: s in Parts(a.path);
  }

  lemma ParentIsDir(files: seq<Asset>, p: seq<string>)
    requires (IsDir(files, p) || IsFile(files, p)) && Parent(p) != []
    ensures IsDir(files, Parent(p))
  {
    var a :| a in files && p <= Parts(a.path);
    assert Parent(p) < Parts(a.path);
  }

  /** The first writes of a plan are its first directories, then all of them and its first files. */
  lemma PlanPrefix(ps: seq<seq<string>>, fs: seq<PathFile>, i: nat)
    requires i <= |ps| + |fs|
    ensures (DirWrites(ps) + FileWrites(fs))[..i] ==
            if i < |ps| then DirWrites(ps[..i]) else DirWrites(ps) + FileWrites(fs[..i - |ps|])
  {
  }

  /** In order of length, a listed parent stands before its child. */
  lemma EarlierParent(ps: seq<seq<string>>, i: nat)
    requires ByLength(ps) && i < |ps| && ps[i] != [] && Parent(ps[i]) in ps
    ensures Seen(DirWrites(ps[..i]), Parent(ps[i])) == Directory
  {
    var j :| 0 <= j < |ps| && ps[j] == Parent(ps[i]);
    assert j < i && ps[..i][j] == Parent(ps[i]);
    SeenDirs(ps[..i], Parent(ps[i]));
  }

  /** A directory's parent is made before it. */
  lemma DirWriteParented(files: seq<Asset>, dirs: seq<string>, i: nat)
    requires WellFormed(files) && Lists(files, dirs) && Ascending(Depth, dirs) && i < |dirs|
    ensures ParentedAt(Plan(dirs, files), i)
  {
    var p := DirPaths(dirs)[i];
    DirPathsByLength(dirs);
    DirPathsHas(files, dirs, p);
    PlannedPath(files, dirs, p);
    PlanPrefix(DirPaths(dirs), FilePaths(files), i);
    if Parent(p) != [] {
      EarlierParent(DirPaths(dirs), i);
    }
  }

  /** Every planned path is made of names, and lies in the base or in a planned directory. */
  lemma PlannedPath(files: seq<Asset>, dirs: seq<string>, p: seq<string>)
    requires WellFormed(files) && Lists(files, dirs) && (IsDir(files, p) || IsFile(files, p))
    ensures p != [] && Segments(p)
    ensures Parent(p) == [] || Parent(p) in DirPaths(dirs)
  {
    DirNames(files, p);
    if Parent(p) != [] {
      ParentIsDir(files, p);
      DirPathsHas(files, dirs, Parent(p));
    }
  }

  lemma FileParentStays(ps: seq<seq<string>>, fs: seq<PathFile>, k: nat)
    requires ByLength(ps) && Apart(fs) && k < |fs| && fs[k].path != [] && Parent(fs[k].path) in ps
    ensures Seen(DirWrites(ps) + FileWrites(fs[..k]), Parent(fs[k].path)) == Directory
  {
    var p := fs[k].path;
    assert Parent(p) < p;
    var before := fs[..k];
    forall i | 0 <= i < k ensures !(before[i].path <= Parent(p)) {
      assert !(fs[i].path < fs[k].path);
    }
    SeenDirs(ps, Parent(p));
    SeenFiles(DirWrites(ps), before, Parent(p));
  }

  lemma FileWriteParented(ps: seq<seq<string>>, fs: seq<PathFile>, writes: seq<Write>, i: nat)
    requires ByLength(ps) && Apart(fs) && writes == DirWrites(ps) + FileWrites(fs) && |ps| <= i < |writes|
    requires var p := fs[i - |ps|].path; p != [] && Segments(p) && (Parent(p) == [] || Parent(p) in ps)
    ensures ParentedAt(writes, i)
  {
    PlanPrefix(ps, fs, i);
    if Parent(fs[i - |ps|].path) != [] {
      FileParentStays(ps, fs, i - |ps|);
    }
  }

  lemma PlanParented(files: seq<Asset>, dirs: seq<string>)
    requires WellFormed(files) && Lists(files, dirs) && Ascending(Depth, dirs)
    ensures Parented(Plan(dirs, files))
  {
    var ps, fs, writes := DirPaths(dirs), FilePaths(files), Plan(dirs, files);
    DirPathsByLength(dirs);
    FilePathsApart(files);
    forall i | 0 <= i < |writes| ensures ParentedAt(writes, i) {
      if i < |dirs| {
        DirWriteParented(files, dirs, i);
      } else {
        var p := fs[i - |ps|].path;
        assert HasFile(fs, p);
        FilePathsHas(files, p);
        PlannedPath(files, dirs, p);
        FileWriteParented(ps, fs, writes, i);
      }
    }
  }

  /** The tree after extraction, below the base and outside it. */
  ghost predicate Extracted(root: Cid, base: seq<string>, files: seq<Asset>, r: Cid)
  {
    && (forall q: seq<string> | q != [] :: Shows(Expected(files, q), ResolvePath(r, base + q), ResolvePath(root, base + q)))
    && SameOutside(root, base, r)
  }

  /**
   Whenever the base directory can be entered and the archive's paths do not conflict, no
   `setEntry` fails, every archive path resolves to its last content, every directory of one is
   there, nothing else is left below them, and all other paths read as before.
   */
  lemma ExtractionCorrect(le: Collation, root: Cid, base: seq<string>, files: seq<Asset>, dirs: seq<string>)
    requires Reflexive(le) && Opens(root, base)
    requires WellFormed(files) && Lists(files, dirs) && Ascending(Depth, dirs)
    ensures Apply(le, root, base, Plan(dirs, files)).Some?
    ensures Extracted(root, base, files, Apply(le, root, base, Plan(dirs, files)).value)
  {
    var writes := Plan(dirs, files);
    PlanParented(files, dirs);
    assert writes[..0] == [] && writes[0..] == writes;
    assert Progressed(root, base, [], root);
    WritesProgress(le, root, base, writes, 0, root);
    var r := Apply(le, root, base, writes).value;
    forall q: seq<string> | q != []
      ensures Shows(Expected(files, q), ResolvePath(r, base + q), ResolvePath(root, base + q))
    {
      PlanSeen(files, dirs, q);
      assert ShowsAt(root, base, writes, r, q);
    }
  }

  // ---- when the base directory cannot be entered ----

  lemma {:induction false} UniformPrefix(dir: Cid, path: seq<string>, j: nat)
    requires Uniform(dir, path) && j <= |path|
    ensures Uniform(dir, path[..j]) && ResolvePath(dir, path[..j]).Some?
    ensures j < |path| ==> Child(ResolvePath(dir, path[..j]).value.cid, path[j]).Some?
    decreases |path|
  {
    if j > 0 {
      assert path[..j][1..] == path[1..][..j - 1];
      UniformPrefix(Child(dir, path[0]).value.cid, path[1..], j - 1);
    }
  }

  /** A uniform path can be entered if its end can be listed. */
  lemma UniformOpens(root: Cid, path: seq<string>)
    requires Uniform(root, path) && (root.key || Segments(path))
    requires Walk(root, path).Some? && ListDirectory(Walk(root, path).value).Some?
    ensures Opens(root, path)
  {
    forall j | 0 <= j <= |path| ensures OpensAt(root, path[..j], j == |path|) {
      UniformPrefix(root, path, j);
      UniformWalk(root, path[..j]);
      if j == |path| { assert path[..j] == path; }
    }
  }

  /** A name at the top of the archive. */
  predicate TopName(files: seq<Asset>, n: string) { IsFile(files, [n]) || IsDir(files, [n]) }

  lemma UntouchedIff(files: seq<Asset>, q: seq<string>)
    requires q != []
    ensures Expected(files, q) == Untouched <==> !TopName(files, q[0])
  {
    var top := q[..1];
    assert top == [q[0]];
    if IsFile(files, q) || IsDir(files, q) {
      TopOfPath(files, q);
    } else if Below(files, q) {
      var k :| 0 < k < |q| && (IsFile(files, q[..k]) || IsDir(files, q[..k]));
      TopOfPath(files, q[..k]);
    }
    if TopName(files, q[0]) && |q| > 1 {
      assert 0 < 1 < |q| && (IsFile(files, q[..1]) || IsDir(files, q[..1]));
    }
    if TopName(files, q[0]) && |q| == 1 { assert q == top; }
  }

  lemma TopOfPath(files: seq<Asset>, q: seq<string>)
    requires q != [] && (IsFile(files, q) || IsDir(files, q))
    ensures TopName(files, q[0])
  {
    var a :| a in files && q <= Parts(a.path);
    var top := [q[0]];
    assert Parts(a.path)[0] == q[0];
    if top != Parts(a.path) { assert top < Parts(a.path); }
  }

  /** The base is an encrypted directory at the end of a plain path: an edit takes it to be empty. */
  ghost predicate Hidden(root: Cid, base: seq<string>)
  {
    && !root.key && Segments(base) && base != [] && UniformAbove(root, base)
    && ResolvePath(root, base).Some? && ResolvePath(root, base).value.cid.key
    && Walk(root, base).Some? && ListDirectory(Walk(root, base).value) == Some([])
  }

  function Emptied(le: Collation, root: Cid, base: seq<string>): Cid
    requires Walk(root, base).Some?
  {
    Graft(le, root, base, PutDirectory(le, [], false))
  }

  lemma EmptiedBelow(le: Collation, root: Cid, base: seq<string>, q: seq<string>)
    requires Reflexive(le) && Hidden(root, base) && q != []
    ensures ResolvePath(Emptied(le, root, base), base + q).None?
  {
    GraftBelow(le, root, base, PutDirectory(le, [], false), q);
    ChildOfPut(le, [], false, q[0]);
  }

  lemma GraftOutside(le: Collation, root: Cid, base: seq<string>, child: Cid, q: seq<string>)
    requires Reflexive(le) && Hidden(root, base) && !(q <= base) && !(base <= q)
    ensures ResolvePath(Graft(le, root, base, child), q) == ResolvePath(root, q)
  {
    var k := Diverge(base, q);
    GraftBeside(le, root, base, child, q, k);
  }

  lemma FirstIsSet(le: Collation, root: Cid, base: seq<string>, writes: seq<Write>)
    requires Reflexive(le) && Hidden(root, base) && Parented(writes) && writes != []
    ensures var w, r := writes[0], WriteOne(le, root, base, writes[0]);
            && w.path == [LastSegment(w.path)] && LastSegment(w.path) != ""
            && r.Some? && r == SetEntry(le, root, base, EntryOf(le, w))
            && ResolvePath(r.value, base + w.path) == Some(AsTarget(EntryOf(le, w)))
  {
    var w := writes[0];
    assert ParentedAt(writes, 0) && writes[..0] == [];
    assert Parent(w.path) == [] && base + [] == base && LastSegment(w.path) in w.path;
    SetEntryAtSegments(le, root, base, EntryOf(le, w));
    ReadBack(le, root, base, EntryOf(le, w));
  }

  /** What the first write leaves beside it: nothing. */
  lemma FirstBeside(le: Collation, root: Cid, base: seq<string>, e: Entry, q: seq<string>)
    requires Reflexive(le) && Hidden(root, base) && SetEntry(le, root, base, e).Some? && q != [] && q[0] != e.name
    ensures ResolvePath(SetEntry(le, root, base, e).value, base + q).None?
  {
    GraftBelow(le, root, base, PutDirectory(le, Upsert([], e), false), q);
    UpsertChild(le, Walk(root, base).value, e, false, q[0]);
  }

  lemma FirstShows(le: Collation, root: Cid, base: seq<string>, writes: seq<Write>, q: seq<string>)
    requires Reflexive(le) && Hidden(root, base) && Parented(writes) && writes != [] && q != []
    ensures WriteOne(le, root, base, writes[0]).Some?
    ensures ShowsAt(Emptied(le, root, base), base, writes[..1], WriteOne(le, root, base, writes[0]).value, q)
  {
    var w := writes[0];
    FirstIsSet(le, root, base, writes);
    assert writes[..0] == [];
    SeenNext(writes, 0, q);
    EmptiedBelow(le, root, base, q);
    var r := WriteOne(le, root, base, w).value;
    if w.path == q {
      WriteShows(le, w, ResolvePath(Emptied(le, root, base), base + q));
    } else if w.path < q {
      var t := Continuation(base, w.path, q);
      BelowFresh(le, r, base + w.path, w, t);
    } else {
      assert w.path <= q <==> q[0] == EntryOf(le, w).name;
      FirstBeside(le, root, base, EntryOf(le, w), q);
    }
  }

  /** The first write starts the directory afresh, and the run goes on as below an empty one. */
  lemma FirstProgress(le: Collation, root: Cid, base: seq<string>, writes: seq<Write>)
    requires Reflexive(le) && Hidden(root, base) && Parented(writes) && writes != []
    ensures WriteOne(le, root, base, writes[0]).Some?
    ensures Progressed(Emptied(le, root, base), base, writes[..1], WriteOne(le, root, base, writes[0]).value)
  {
    var w, e, empty := writes[0], EntryOf(le, writes[0]), Emptied(le, root, base);
    assert ParentedAt(writes, 0) && writes[..0] == [];
    assert base + [] == base && w.path == [LastSegment(w.path)] && LastSegment(w.path) in w.path;
    SetEntryAtSegments(le, root, base, e);
    RewrittenOpens(le, root, base, e);
    var r := WriteOne(le, root, base, w).value;
    forall x: seq<string> | Seen(writes[..1], x) == Directory ensures Opens(r, base + x) {
      SeenNext(writes, 0, x);
    }
    forall q: seq<string> | q != [] ensures ShowsAt(empty, base, writes[..1], r, q) {
      FirstShows(le, root, base, writes, q);
    }
    forall q: seq<string> | !(q <= base) && !(base <= q) ensures ResolvePath(r, q) == ResolvePath(empty, q) {
      GraftOutside(le, root, base, PutDirectory(le, Upsert([], e), false), q);
      GraftOutside(le, root, base, PutDirectory(le, [], false), q);
    }
  }

  lemma PlanNotEmpty(files: seq<Asset>, dirs: seq<string>)
    requires Lists(files, dirs)
    ensures Plan(dirs, files) == [] <==> files == []
  {
    if files == [] && dirs != [] {
      DirsHaveFiles(files, dirs);
    }
  }

  ghost predicate OnlyTopNames(dir: Cid, files: seq<Asset>)
  {
    forall n: string | Child(dir, n).Some? :: TopName(files, n)
  }

  /** What the run leaves of an encrypted directory that it takes to be empty: what the archive itself puts there. */
  lemma HiddenExtraction(le: Collation, root: Cid, base: seq<string>, files: seq<Asset>, dirs: seq<string>)
    requires Reflexive(le) && Hidden(root, base) && files != []
    requires WellFormed(files) && Lists(files, dirs) && Ascending(Depth, dirs)
    ensures Apply(le, root, base, Plan(dirs, files)).Some?
    ensures Extracted(root, base, files, Apply(le, root, base, Plan(dirs, files)).value)
            <==> OnlyTopNames(ResolvePath(root, base).value.cid, files)
  {
    var writes, empty, target := Plan(dirs, files), Emptied(le, root, base), ResolvePath(root, base).value.cid;
    PlanParented(files, dirs);
    PlanNotEmpty(files, dirs);
    FirstProgress(le, root, base, writes);
    WritesProgress(le, empty, base, writes, 1, WriteOne(le, root, base, writes[0]).value);
    var r := Apply(le, root, base, writes).value;
    forall q: seq<string> | q != []
      ensures Shows(Expected(files, q), ResolvePath(r, base + q), None)
      ensures ResolvePath(root, base + q) == ResolvePath(target, q)
    {
      PlanSeen(files, dirs, q);
      assert ShowsAt(empty, base, writes, r, q);
      EmptiedBelow(le, root, base, q);
      ResolveCompose(root, base, q);
    }
    forall q: seq<string> | !(q <= base) && !(base <= q) ensures ResolvePath(r, q) == ResolvePath(root, q) {
      GraftOutside(le, root, base, PutDirectory(le, [], false), q);
    }
    HiddenIff(root, base, files, r, target);
  }

  lemma HiddenIff(root: Cid, base: seq<string>, files: seq<Asset>, r: Cid, target: Cid)
    requires forall q: seq<string> | q != [] :: Shows(Expected(files, q), ResolvePath(r, base + q), None)
    requires forall q: seq<string> | q != [] :: ResolvePath(root, base + q) == ResolvePath(target, q)
    requires SameOutside(root, base, r)
    ensures Extracted(root, base, files, r) <==> OnlyTopNames(target, files)
  {
    if OnlyTopNames(target, files) {
      forall q: seq<string> | q != []
        ensures Shows(Expected(files, q), ResolvePath(r, base + q), ResolvePath(root, base + q))
      {
        UntouchedIff(files, q);
        assert Shows(Expected(files, q), ResolvePath(r, base + q), None);
        if !TopName(files, q[0]) { assert Child(target, q[0]).None?; }
      }
    }
    if Extracted(root, base, files, r) {
      forall n: string | Child(target, n).Some? ensures TopName(files, n) {
        UntouchedIff(files, [n]);
        assert Shows(Expected(files, [n]), ResolvePath(r, base + [n]), None);
        assert ResolvePath(target, [n]).Some?;
      }
    }
  }

  /** The first write needs the base directory; without it the run throws. */
  lemma StartsIff(le: Collation, root: Cid, base: seq<string>, files: seq<Asset>, dirs: seq<string>)
    requires files != [] && (root.key || Segments(base))
    requires WellFormed(files) && Lists(files, dirs) && Ascending(Depth, dirs)
    ensures Apply(le, root, base, Plan(dirs, files)).Some? ==>
              Walk(root, base).Some? && ListDirectory(Walk(root, base).value).Some?
  {
    var writes := Plan(dirs, files);
    PlanParented(files, dirs);
    PlanNotEmpty(files, dirs);
    assert ParentedAt(writes, 0) && writes[..0] == [];
    assert base + [] == base;
    SetEntryAtSegments(le, root, base, EntryOf(le, writes[0]));
  }

  /**
   On every encrypted root and every well-keyed plain one: extraction goes through exactly when the
   base directory is reached and listed by the first edit, or there is nothing to extract. It then
   leaves the tree as it should exactly when the base carries a key as the root does, or holds no
   names but those at the top of the archive, which are replaced anyway. So only an encrypted
   directory that stood at the end of a plain path before can lose entries.
   */
  lemma ExtractionIff(le: Collation, root: Cid, base: seq<string>, files: seq<Asset>, dirs: seq<string>)
    requires Reflexive(le) && (root.key || (WellKeyed(root) && Segments(base)))
    requires WellFormed(files) && Lists(files, dirs) && Ascending(Depth, dirs)
    ensures Apply(le, root, base, Plan(dirs, files)).Some?
            <==> files == [] || (Walk(root, base).Some? && ListDirectory(Walk(root, base).value).Some?)
    ensures files != [] && Apply(le, root, base, Plan(dirs, files)).Some? ==>
              && ResolvePath(root, base).Some?
              && var target := ResolvePath(root, base).value.cid;
                 Extracted(root, base, files, Apply(le, root, base, Plan(dirs, files)).value)
                 <==> target.key == root.key || OnlyTopNames(target, files)
  {
    PlanNotEmpty(files, dirs);
    if files != [] {
      StartsIff(le, root, base, files, dirs);
      if Walk(root, base).Some? && ListDirectory(Walk(root, base).value).Some? {
        if root.key { KeyedWalkUniform(root, base); } else { PlainWalk(root, base); }
        if Uniform(root, base) {
          UniformWalk(root, base);
          UniformOpens(root, base);
          ExtractionCorrect(le, root, base, files, dirs);
        } else {
          HiddenExtraction(le, root, base, files, dirs);
        }
      }
    }
  }

  // ---- the loops of the source ----

  /** The root to start from: without one, an empty encrypted directory would do as well. */
  function From(le: Collation, root: Option<Cid>): Cid
  {
    if root.Some? then root.value else PutDirectory(le, [], true)
  }

  /** Without a root, the first entry makes an encrypted tree of its own. */
  lemma FirstWrite(le: Collation, w: Write)
    requires Parent(w.path) == []
    ensures WriteOne(le, From(le, None), [], w) == Some(PutDirectory(le, [EntryOf(le, w)], true))
  {
    var e := EntryOf(le, w);
    assert ListDirectory(From(le, None)) == Some([]);
    assert Upsert([], e) == [e];
  }

  /** A write can be made: there is a root, or the write goes into the root of a new tree. */
  predicate CanStart(root: Option<Cid>, base: seq<string>, writes: seq<Write>)
  {
    root.None? ==> base == [] && (writes != [] ==> Parent(writes[0].path) == [])
  }

  /** One `setEntry`, or the first directory of a new tree. */
  method WriteNext(le: Collation, root: Option<Cid>, base: seq<string>, w: Write) returns (r: Option<Cid>)
    requires CanStart(root, base, [w])
    ensures r == WriteOne(le, From(le, root), base, w)
  {
    if root.Some? {
      r := SetEntryLoop(le, root.value, base + Parent(w.path), EntryOf(le, w));
    } else {
      FirstWrite(le, w);
      r := Some(PutDirectory(le, [EntryOf(le, w)], true));
    }
  }

  lemma NextWrite(le: Collation, root: Cid, base: seq<string>, all: seq<Write>, i: nat)
    requires i < |all|
    ensures all[i..] == [all[i]] + all[i + 1..]
    ensures Apply(le, root, base, all[i..]) ==
            match WriteOne(le, root, base, all[i]) case None => None case Some(r) => Apply(le, r, base, all[i + 1..])
  {
    assert all[i..][0] == all[i] && all[i..][1..] == all[i + 1..];
  }

  method CreateDirectories(le: Collation, root: Option<Cid>, base: seq<string>, dirs: seq<string>, ghost rest: seq<Write>)
    returns (ok: bool, current: Option<Cid>)
    requires CanStart(root, base, DirWrites(DirPaths(dirs)) + rest)
    ensures Apply(le, From(le, root), base, DirWrites(DirPaths(dirs)) + rest) ==
            if ok then Apply(le, From(le, current), base, rest) else None
    ensures ok ==> CanStart(current, base, rest) && (current.None? <==> root.None? && dirs == [])
  {
    current := root;
    ghost var all := DirWrites(DirPaths(dirs)) + rest;
    for i := 0 to |dirs|
      invariant CanStart(current, base, all[i..]) && (current.None? <==> root.None? && i == 0)
      invariant Apply(le, From(le, current), base, all[i..]) == Apply(le, From(le, root), base, all)
    {
      var w := MakeDir(Parts(dirs[i]));
      assert all[i] == w;
      NextWrite(le, From(le, current), base, all, i);
      var next := WriteNext(le, current, base, w);
      if next.None? { return false, None; }
      current := next;
    }
    assert all[|dirs|..] == rest;
    ok := true;
  }

  method AddFiles(le: Collation, root: Option<Cid>, base: seq<string>, files: seq<Asset>) returns (ok: bool, current: Option<Cid>)
    requires CanStart(root, base, FileWrites(FilePaths(files)))
    ensures Apply(le, From(le, root), base, FileWrites(FilePaths(files))) == if ok then Some(From(le, current)) else None
    ensures ok ==> (current.None? <==> root.None? && files == [])
  {
    current := root;
    ghost var all := FileWrites(FilePaths(files));
    for i := 0 to |files|
      invariant CanStart(current, base, all[i..]) && (current.None? <==> root.None? && i == 0)
      invariant Apply(le, From(le, current), base, all[i..]) == Apply(le, From(le, root), base, all)
    {
      var w := MakeFile(Parts(files[i].path), files[i].data);
      assert all[i] == w;
      NextWrite(le, From(le, current), base, all, i);
      var next := WriteNext(le, current, base, w);
      if next.None? { return false, None; }
      current := next;
    }
    assert all[|files|..] == [];
    ok := true;
  }

  /** Extraction below `base`, on any root or without one. */
  method ExtractInto(le: Collation, root: Option<Cid>, base: seq<string>, files: seq<Asset>) returns (ok: bool, r: Option<Cid>)
    requires Reflexive(le) && WellFormed(files)
    requires root.None? ==> base == []
    ensures Opens(From(le, root), base) ==> ok && (r.None? <==> root.None? && files == [])
    ensures Opens(From(le, root), base) ==> Extracted(From(le, root), base, files, From(le, r))
  {
    var dirs := GetDirectoryPaths((a, b) => true, files);
    ghost var writes := Plan(dirs, files);
    PlanParented(files, dirs);
    if writes != [] { assert ParentedAt(writes, 0) && writes[..0] == []; }
    ok, r := CreateDirectories(le, root, base, dirs, FileWrites(FilePaths(files)));
    if ok {
      ok, r := AddFiles(le, r, base, files);
    }
    if Opens(From(le, root), base) {
      ExtractionCorrect(le, From(le, root), base, files, dirs);
      if dirs != [] { DirsHaveFiles(files, dirs); }
    }
  }

  lemma DirsHaveFiles(files: seq<Asset>, dirs: seq<string>)
    requires Lists(files, dirs) && dirs != []
    ensures files != []
  {
    assert dirs[0] in dirs;
    DirSetSound(files, dirs[0]);
    var a :| a in files && Parts(dirs[0]) < Parts(a.path);
    assert |files| > 0;
  }

  /** The new subdirectory, if one is asked for. */
  function Subdir(le: Collation, name: string): Entry { Entry(name, PutDirectory(le, [], true), 0, Dir, None) }

  predicate Asked(subdir: Option<string>) { subdir.Some? && subdir.value != "" }

  function BasePath(current: seq<string>, subdir: Option<string>): seq<string>
  {
    if Asked(subdir) then current + [subdir.value] else current
  }

  /** The root the extraction works on: with the subdirectory in it, if one is asked for. */
  function Prepared(le: Collation, root: Option<Cid>, current: seq<string>, subdir: Option<string>): Option<Cid>
  {
    if !Asked(subdir) then Some(From(le, root))
    else if root.None? then Some(PutDirectory(le, [Subdir(le, subdir.value)], true))
    else SetEntryAt(le, root.value, current, Subdir(le, subdir.value))
  }

  lemma EmptyOpens(le: Collation)
    ensures Opens(From(le, None), [])
  {
    var root := From(le, None);
    assert ListDirectory(root) == Some([]);
    var here: seq<string> := [];
    forall j | 0 <= j <= |here| ensures OpensAt(root, here[..j], j == |here|) {
      assert here[..j] == here;
    }
  }

  /** The subdirectory can be entered, and nothing outside it has changed. */
  lemma PreparedOpens(le: Collation, root: Option<Cid>, current: seq<string>, subdir: Option<string>)
    requires Reflexive(le) && Opens(From(le, root), current) && (root.None? ==> current == [])
    requires Asked(subdir) ==> From(le, root).key || '/' !in subdir.value
    ensures Prepared(le, root, current, subdir).Some?
    ensures Opens(Prepared(le, root, current, subdir).value, BasePath(current, subdir))
    ensures SameOutside(From(le, root), BasePath(current, subdir), Prepared(le, root, current, subdir).value)
  {
    if Asked(subdir) {
      var start, e, base := From(le, root), Subdir(le, subdir.value), BasePath(current, subdir);
      if root.None? {
        FirstWrite(le, MakeDir([subdir.value]));
        assert Parent([subdir.value]) == [] && [] + [] == current;
      }
      OpensSet(le, start, current, e);
      assert SetEntry(le, start, current, e) == Prepared(le, root, current, subdir);
      SetOpensNew(le, start, current, e);
      forall q: seq<string> | !(q <= base) && !(base <= q)
        ensures ResolvePath(Prepared(le, root, current, subdir).value, q) == ResolvePath(start, q)
      {
        assert q <= current ==> q <= base;
        SetFrame(le, start, current, e, q);
      }
    }
  }

  /** A new subdirectory is empty, whatever stood there. */
  lemma PreparedEmpty(le: Collation, root: Option<Cid>, current: seq<string>, subdir: Option<string>, q: seq<string>)
    requires Reflexive(le) && Opens(From(le, root), current) && (root.None? ==> current == [])
    requires Asked(subdir) && q != []
    ensures Prepared(le, root, current, subdir).Some?
    ensures ResolvePath(Prepared(le, root, current, subdir).value, BasePath(current, subdir) + q).None?
  {
    var start, e, base := From(le, root), Subdir(le, subdir.value), BasePath(current, subdir);
    if root.None? {
      FirstWrite(le, MakeDir([subdir.value]));
      assert Parent([subdir.value]) == [] && [] + [] == current;
    }
    OpensSet(le, start, current, e);
    var r := Prepared(le, root, current, subdir).value;
    ReadBack(le, start, current, e);
    BelowFresh(le, r, base, MakeDir([subdir.value]), q);
  }

  /**
   What is at the paths below the base: what the archive says, and elsewhere what was there, or
   nothing if the base is a new subdirectory.
   */
  ghost predicate Landed(le: Collation, root: Option<Cid>, current: seq<string>, subdir: Option<string>, files: seq<Asset>, r: Cid)
  {
    forall q: seq<string> | q != [] ::
      Shows(Expected(files, q), ResolvePath(r, BasePath(current, subdir) + q),
            if Asked(subdir) then None else ResolvePath(From(le, root), current + q))
  }

  lemma ExtractedLands(le: Collation, root: Option<Cid>, current: seq<string>, subdir: Option<string>, files: seq<Asset>, r: Cid)
    requires Reflexive(le) && Opens(From(le, root), current) && (root.None? ==> current == [])
    requires Prepared(le, root, current, subdir).Some?
    requires Extracted(Prepared(le, root, current, subdir).value, BasePath(current, subdir), files, r)
    ensures Landed(le, root, current, subdir, files, r)
  {
    forall q: seq<string> | q != []
      ensures Shows(Expected(files, q), ResolvePath(r, BasePath(current, subdir) + q),
                    if Asked(subdir) then None else ResolvePath(From(le, root), current + q))
    {
      if Asked(subdir) { PreparedEmpty(le, root, current, subdir, q); }
    }
  }

  /** The directory the user is in can be entered; without a root there is nothing to enter. */
  ghost predicate CanUpload(root: Option<Cid>, current: seq<string>, subdir: Option<string>)
  {
    root.None? || (Opens(root.value, current) && (Asked(subdir) ==> root.value.key || '/' !in subdir.value))
  }

  /**
   `uploadExtractedFiles` on any root, or without one: the subdirectory first if it is asked for,
   then the directories of the archive, then its files. Whenever the directory the user is in can be
   entered, nothing throws, the archive stands below the base path with the last content of each
   file, in a new subdirectory with nothing beside it, and nothing outside the base path has changed. An archive without files changes nothing.
   */
  method UploadExtracted(le: Collation, root: Option<Cid>, current: seq<string>, subdir: Option<string>, files: seq<Asset>)
    returns (ok: bool, r: Option<Cid>)
    requires Reflexive(le) && WellFormed(files) && (root.None? ==> current == [])
    ensures files == [] ==> ok && r == root
    ensures CanUpload(root, current, subdir) && files != [] ==>
              && ok && r.Some? && Landed(le, root, current, subdir, files, r.value)
              && SameOutside(From(le, root), BasePath(current, subdir), From(le, r))
  {
    if files == [] { return true, root; }
    ghost var open := CanUpload(root, current, subdir);
    EmptyOpens(le);
    if open { PreparedOpens(le, root, current, subdir); }
    var start := root;
    if Asked(subdir) {
      if root.Some? {
        start := SetEntryLoop(le, root.value, current, Subdir(le, subdir.value));
        if start.None? { return false, None; }
      } else {
        start := Some(PutDirectory(le, [Subdir(le, subdir.value)], true));
      }
    }
    ok, r := ExtractInto(le, start, BasePath(current, subdir), files);
    if open {
      assert From(le, start) == Prepared(le, root, current, subdir).value;
      ExtractedLands(le, root, current, subdir, files, From(le, r));
    }
  }
}
