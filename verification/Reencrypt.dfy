/**
 The re-encryption migration: `rebuildWithEncryption` rewrites a tree so that every node is
 encrypted, without changing what a reader of the tree sees.

 `large(links)` says that the encoded directory exceeds the chunk size. Such a directory is
 stored in chunks; listing reassembles it, but the plain `isDirectory` test looks only at the
 first block and answers no.
 */
module Reencrypt {
  import opened HashTree
  import opened Wrappers

  type SizeTest = seq<Entry> -> bool

  predicate IsDirectory(large: SizeTest, b: Block)
  {
    b.DirBlock? && !large(b.links)
  }

  function Strip(id: Cid, force: bool): Cid
  {
    if force then Cid(id.block, false) else id
  }

  /** `rebuildWithEncryption`, as recursion over the tree. */
  function Rebuild(large: SizeTest, le: Collation, src: Cid, force: bool): Cid
    decreases src.block
  {
    if src.key && !force then src
    else if IsDirectory(large, src.block) then
      PutDirectory(le, RebuildEntries(large, le, src.block, force), true)
    else if src.block.Lost? then src
    // A file, read and stored again. Whatever bytes the block has, they are the file's content.
    else Cid(Sealed(src.block), true)
  }

  function RebuildEntries(large: SizeTest, le: Collation, b: Block, force: bool): (entries: seq<Entry>)
    requires b.DirBlock?
    ensures |entries| == |Named(b.links)|
    ensures forall i | 0 <= i < |entries| ::
              && Strip(Named(b.links)[i].cid, force).block < b
              && entries[i] == Named(b.links)[i].(cid := Rebuild(large, le, Strip(Named(b.links)[i].cid, force), force))
    decreases b, 0
  {
    var es := Named(b.links);
    NamedMembers(b.links);
    seq(|es|, i requires 0 <= i < |es| =>
      assert es[i] in b.links;
      es[i].(cid := Rebuild(large, le, Strip(es[i].cid, force), force)))
  }

  /** The recursion with its loop, as the source runs it. */
  method RebuildLoop(large: SizeTest, le: Collation, src: Cid, force: bool) returns (r: Cid)
    ensures r == Rebuild(large, le, src, force)
    decreases src.block
  {
    if src.key && !force { return src; }
    var readCid := if force then Cid(src.block, false) else src;
    if IsDirectory(large, readCid.block) {
      var entries := ListDirectory(readCid).value;
      var newEntries := [];
      NamedMembers(src.block.links);
      for i := 0 to |entries|
        invariant newEntries == RebuildEntries(large, le, src.block, force)[..i]
      {
        assert entries[i] in src.block.links;
        var child := if force then Cid(entries[i].cid.block, false) else entries[i].cid;
        var newChild := RebuildLoop(large, le, child, force);
        newEntries := newEntries + [Entry(entries[i].name, newChild, entries[i].size, entries[i].kind, entries[i].meta)];
      }
      assert newEntries == RebuildEntries(large, le, src.block, force);
      return PutDirectory(le, newEntries, true);
    }
    if readCid.block.Lost? { return src; }
    r := Cid(Sealed(readCid.block), true);
  }

  // ---- what a reader sees ----

  datatype View =
    | FileView(data: seq<bv8>)
    | DirView(items: seq<Item>)
    | CipherView(of: Block)
    | Gone(id: nat)
    | Throws

  datatype Item = Item(name: string, size: nat, kind: LinkType, meta: Option<string>, view: View)

  /** Everything a reader that uses the keys it finds can learn: names, order, sizes, kinds, metadata, bytes. */
  function ViewOf(id: Cid): View
    decreases id.block, 1
  {
    if Open(id).None? then Throws
    else if id.key && id.block.Sealed? then ViewBlock(id.block.inner)
    else ViewBlock(id.block)
  }

  function ViewBlock(b: Block): View
    decreases b, 0
  {
    match b
    case FileBlock(data) => FileView(data)
    case DirBlock(links) =>
      var es := Named(links);
      NamedMembers(links);
      DirView(seq(|es|, i requires 0 <= i < |es| =>
        assert es[i] in links;
        Item(es[i].name, es[i].size, es[i].kind, es[i].meta, ViewOf(es[i].cid))))
    case Sealed(inner) => CipherView(inner)
    case Lost(id) => Gone(id)
  }

  /** What a reader that ignores all keys sees. */
  function PlainView(b: Block): View
  {
    match b
    case FileBlock(data) => FileView(data)
    case DirBlock(links) =>
      var es := Named(links);
      NamedMembers(links);
      DirView(seq(|es|, i requires 0 <= i < |es| =>
        assert es[i] in links;
        Item(es[i].name, es[i].size, es[i].kind, es[i].meta, PlainView(es[i].cid.block))))
    case Sealed(inner) => CipherView(inner)
    case Lost(id) => Gone(id)
  }

  /**
   What the migration itself sees: without `force` what every reader sees, with it the tree with keys
   ignored, down to the directories that are stored in chunks.
   */
  function SeenView(large: SizeTest, src: Cid, force: bool): View
    decreases src.block
  {
    if !force then ViewOf(src)
    else if IsDirectory(large, src.block) then
      var es := Named(src.block.links);
      NamedMembers(src.block.links);
      DirView(seq(|es|, i requires 0 <= i < |es| =>
        assert es[i] in src.block.links;
        Item(es[i].name, es[i].size, es[i].kind, es[i].meta, SeenView(large, es[i].cid, force))))
    else ViewBlock(src.block)
  }

  // ---- what is found at a path ----

  /** The entry at a path that is not empty, read with the keys found on the way. */
  function EntryAt(root: Cid, path: seq<string>): Option<Entry>
    requires path != []
    decreases |path|
  {
    match Child(root, path[0])
    case None => None
    case Some(e) => if |path| == 1 then Some(e) else EntryAt(e.cid, path[1..])
  }

  lemma {:induction false} EntryResolves(root: Cid, path: seq<string>)
    requires path != []
    ensures ResolvePath(root, path) ==
            match EntryAt(root, path) case None => None case Some(e) => Some(AsTarget(e))
    decreases |path|
  {
    if Child(root, path[0]).Some? && |path| > 1 {
      EntryResolves(Child(root, path[0]).value.cid, path[1..]);
    }
  }

  /** The entry the migration sees at a path, as for `SeenView`. */
  function SeenAt(large: SizeTest, src: Cid, force: bool, path: seq<string>): Option<Entry>
    requires path != []
    decreases |path|
  {
    match Child(Strip(src, force), path[0])
    case None => None
    case Some(e) =>
      if |path| == 1 then Some(e) else SeenAt(large, e.cid, force && IsDirectory(large, src.block), path[1..])
  }

  lemma {:induction false} SeenUnforced(large: SizeTest, src: Cid, path: seq<string>)
    requires path != []
    ensures SeenAt(large, src, false, path) == EntryAt(src, path)
    decreases |path|
  {
    if Child(src, path[0]).Some? && |path| > 1 {
      SeenUnforced(large, Child(src, path[0]).value.cid, path[1..]);
    }
  }

  /** The rebuild enters every directory on the way: it has no key, or the key is ignored, and it is not in chunks. */
  predicate Enters(large: SizeTest, src: Cid, force: bool, path: seq<string>)
    decreases |path|
  {
    path == [] ||
    (&& (force || !src.key) && IsDirectory(large, src.block)
     && var e := Find(Named(src.block.links), path[0]); e.Some? && Enters(large, e.value.cid, force, path[1..]))
  }

  /** Lists with the same names find the same places. */
  lemma {:induction false} FindSameNames(es: seq<Entry>, fs: seq<Entry>, n: string)
    requires |es| == |fs| && forall i | 0 <= i < |es| :: es[i].name == fs[i].name
    ensures Find(es, n).None? <==> Find(fs, n).None?
    ensures Find(es, n).Some? ==> exists i :: 0 <= i < |es| && Find(es, n) == Some(es[i]) && Find(fs, n) == Some(fs[i])
  {
    if es != [] && es[0].name != n {
      FindSameNames(es[1..], fs[1..], n);
      if Find(es, n).Some? {
        var i :| 0 <= i < |es[1..]| && Find(es[1..], n) == Some(es[1..][i]) && Find(fs[1..], n) == Some(fs[1..][i]);
        assert es[1..][i] == es[i + 1] && fs[1..][i] == fs[i + 1];
      }
    }
  }

  /** A rebuilt directory finds the same entries, with rebuilt identifiers. */
  lemma RebuiltChild(large: SizeTest, le: Collation, src: Cid, force: bool, n: string)
    requires Reflexive(le) && (force || !src.key) && IsDirectory(large, src.block)
    ensures var e := Find(Named(src.block.links), n);
            Child(Rebuild(large, le, src, force), n)
            == if e.None? then None else Some(e.value.(cid := Rebuild(large, le, Strip(e.value.cid, force), force)))
  {
    var named := Named(src.block.links);
    var es := RebuildEntries(large, le, src.block, force);
    NamedMembers(src.block.links);
    ChildOfPut(le, es, true, n);
    FindSameNames(named, es, n);
    FindNamed(src.block.links, n);
  }

  lemma StripTwice(large: SizeTest, le: Collation, id: Cid, force: bool, path: seq<string>)
    requires path != []
    ensures Rebuild(large, le, Strip(id, force), force) == Rebuild(large, le, id, force) || id.block.Lost?
    ensures SeenAt(large, Strip(id, force), force, path) == SeenAt(large, id, force, path)
    ensures Enters(large, Strip(id, force), force, path) == Enters(large, id, force, path)
  {
  }

  /**
   The migration, forced or not, keeps what is found at every path of every tree: the same paths
   lead somewhere, to entries of the same name, size, kind and metadata. The identifier is the
   rebuilt one if the rebuild came that far, and the old one below keys and chunked directories.
   */
  lemma {:induction false} RebuildKeepsEntries(large: SizeTest, le: Collation, src: Cid, force: bool, path: seq<string>)
    requires Reflexive(le) && path != []
    ensures EntryAt(Rebuild(large, le, src, force), path) ==
            match SeenAt(large, src, force, path)
            case None => None
            case Some(e) => Some(if Enters(large, src, force, path) then e.(cid := Rebuild(large, le, Strip(e.cid, force), force)) else e)
    decreases |path|
  {
    var dir := Strip(src, force);
    var rest := path[1..];
    if src.key && !force {
      SeenUnforced(large, src, path);
    } else if IsDirectory(large, src.block) {
      RebuiltChild(large, le, src, force, path[0]);
      assert Child(dir, path[0]) == Find(Named(src.block.links), path[0]);
      if Child(dir, path[0]).Some? && rest != [] {
        var id := Child(dir, path[0]).value.cid;
        RebuildKeepsEntries(large, le, Strip(id, force), force, rest);
        StripTwice(large, le, id, force, rest);
      }
    } else if src.block.Lost? {
      assert Child(src, path[0]).None?;
    } else {
      assert Child(Rebuild(large, le, src, force), path[0]) == Child(dir, path[0]);
      if Child(dir, path[0]).Some? && rest != [] {
        SeenUnforced(large, Child(dir, path[0]).value.cid, rest);
      }
    }
  }

  /** A file keeps its bytes; what has a key, and what is missing, stays as it is. */
  lemma BytesKept(large: SizeTest, le: Collation, id: Cid)
    ensures var r := Rebuild(large, le, id, false);
            && Bytes(r) == Bytes(id) && (id.key || id.block.Lost? ==> r == id) && (Bytes(id).Some? ==> r.key)
  {
  }

  /**
   The migration does not change what readers find at any path of any tree: the same paths resolve,
   to the same kinds, sizes, metadata and bytes. What had a key, and files whose block is missing, keep
   their identifier.
   */
  lemma RebuildPreservesPaths(large: SizeTest, le: Collation, src: Cid, path: seq<string>)
    requires Reflexive(le) && path != []
    ensures var before, after := EntryAt(src, path), EntryAt(Rebuild(large, le, src, false), path);
            && (before.None? <==> after.None?)
            && (before.Some? ==>
                  && after.value == before.value.(cid := after.value.cid) && Bytes(after.value.cid) == Bytes(before.value.cid)
                  && (before.value.cid.key || before.value.cid.block.Lost? ==> after == before))
    ensures ResolvePath(src, path).Some? <==> ResolvePath(Rebuild(large, le, src, false), path).Some?
  {
    RebuildKeepsEntries(large, le, src, false, path);
    SeenUnforced(large, src, path);
    if EntryAt(src, path).Some? { BytesKept(large, le, EntryAt(src, path).value.cid); }
    EntryResolves(src, path);
    EntryResolves(Rebuild(large, le, src, false), path);
  }

  // ---- directories in the order their writer left them ----

  predicate Ordered(le: Collation, es: seq<Entry>)
  {
    forall i | 0 <= i < |es| - 1 :: le(es[i].name, es[i + 1].name)
  }

  lemma {:induction false} SortOrdered(le: Collation, es: seq<Entry>)
    requires Ordered(le, es)
    ensures Sort(le, es) == es
  {
    if es != [] {
      assert forall i | 0 <= i < |es[1..]| :: es[1..][i] == es[i + 1];
      SortOrdered(le, es[1..]);
    }
  }

  lemma {:induction false} InsertMembers(le: Collation, e: Entry, es: seq<Entry>)
    ensures |Insert(le, e, es)| == |es| + 1
    ensures forall x :: x in Insert(le, e, es) <==> x == e || x in es
  {
    if es != [] && !le(e.name, es[0].name) {
      InsertMembers(le, e, es[1..]);
      assert es == [es[0]] + es[1..];
    }
  }

  lemma {:induction false} SortMembers(le: Collation, es: seq<Entry>)
    ensures |Sort(le, es)| == |es|
    ensures forall x :: x in Sort(le, es) <==> x in es
  {
    if es != [] {
      SortMembers(le, es[1..]);
      InsertMembers(le, es[0], Sort(le, es[1..]));
      assert es == [es[0]] + es[1..];
    }
  }

  /** If sorting leaves the names as they stand, they stand in order. */
  lemma {:induction false} SameNamesOrdered(le: Collation, es: seq<Entry>)
    requires Reflexive(le) && |Sort(le, es)| == |es|
    requires forall i | 0 <= i < |es| :: Sort(le, es)[i].name == es[i].name
    ensures Ordered(le, es)
  {
    if |es| > 1 {
      var rest, sorted := es[1..], Sort(le, es[1..]);
      SortMembers(le, rest);
      assert sorted[0].name == Sort(le, es)[0].name || le(es[0].name, sorted[0].name);
      assert le(es[0].name, es[0].name);
      assert Sort(le, es) == [es[0]] + sorted;
      forall i | 0 <= i < |rest| ensures sorted[i].name == rest[i].name {
        assert sorted[i] == Sort(le, es)[i + 1] && rest[i] == es[i + 1];
      }
      SameNamesOrdered(le, rest);
      assert sorted[0].name == es[1].name;
      forall i | 0 <= i < |es| - 1 ensures le(es[i].name, es[i + 1].name) {
        if i > 0 { assert rest[i - 1] == es[i] && rest[i] == es[i + 1]; }
      }
    }
  }

  lemma {:induction false} NamedAll(es: seq<Entry>)
    requires forall e | e in es :: e.name != ""
    ensures Named(es) == es
  {
    if es != [] {
      NamedAll(es[1..]);
    }
  }

  /** What the rebuild writes for a directory, as it is listed again. */
  lemma RebuiltListing(large: SizeTest, le: Collation, b: Block, force: bool)
    requires b.DirBlock?
    ensures var es := RebuildEntries(large, le, b, force);
            Named(Sort(le, es)) == Sort(le, es) && |Sort(le, es)| == |es| && forall x :: x in Sort(le, es) <==> x in es
  {
    var es := RebuildEntries(large, le, b, force);
    NamedMembers(b.links);
    forall e | e in es ensures e.name != "" {
      var i :| 0 <= i < |es| && es[i] == e;
      assert e.name == Named(b.links)[i].name && Named(b.links)[i] in Named(b.links);
    }
    SortMembers(le, es);
    NamedAll(Sort(le, es));
  }

  /** Every directory the rebuild writes lists its names in collation order already. */
  predicate Arranged(large: SizeTest, le: Collation, src: Cid, force: bool)
    decreases src.block
  {
    (src.key && !force) ||
    (IsDirectory(large, src.block) ==>
       && Ordered(le, Named(src.block.links))
       && (NamedMembers(src.block.links); forall e | e in Named(src.block.links) :: Arranged(large, le, Strip(e.cid, force), force)))
  }

  function ItemOf(e: Entry, view: View): Item { Item(e.name, e.size, e.kind, e.meta, view) }

  /** The items of a rebuilt directory, in the order the sort gives them. */
  lemma RebuiltItems(large: SizeTest, le: Collation, src: Cid, force: bool)
    requires (force || !src.key) && IsDirectory(large, src.block)
    ensures var s, v := Sort(le, RebuildEntries(large, le, src.block, force)), ViewOf(Rebuild(large, le, src, force));
            && v.DirView? && |v.items| == |s|
            && forall i | 0 <= i < |s| :: v.items[i] == ItemOf(s[i], ViewOf(s[i].cid))
  {
    RebuiltListing(large, le, src.block, force);
  }

  lemma SeenItems(large: SizeTest, src: Cid, force: bool)
    requires (force || !src.key) && IsDirectory(large, src.block)
    ensures var es, v := Named(src.block.links), SeenView(large, src, force);
            && v.DirView? && |v.items| == |es|
            && forall i | 0 <= i < |es| :: v.items[i] == ItemOf(es[i], SeenView(large, es[i].cid, force))
  {
    if !force {
      assert SeenView(large, src, force) == ViewBlock(src.block);
      forall i | 0 <= i < |Named(src.block.links)|
        ensures SeenView(large, Named(src.block.links)[i].cid, force) == ViewOf(Named(src.block.links)[i].cid)
      {
      }
    }
  }

  /** In a directory whose names the sort leaves in place, the views of the items decide. */
  lemma ItemsSameIff(large: SizeTest, le: Collation, src: Cid, force: bool)
    requires Reflexive(le) && (force || !src.key) && IsDirectory(large, src.block)
    ensures var es, fs := Named(src.block.links), RebuildEntries(large, le, src.block, force);
            ViewOf(Rebuild(large, le, src, force)) == SeenView(large, src, force)
            <==> Ordered(le, es) && forall i | 0 <= i < |es| :: ViewOf(fs[i].cid) == SeenView(large, es[i].cid, force)
  {
    var es, fs := Named(src.block.links), RebuildEntries(large, le, src.block, force);
    var s, v, w := Sort(le, fs), ViewOf(Rebuild(large, le, src, force)), SeenView(large, src, force);
    RebuiltItems(large, le, src, force);
    SeenItems(large, src, force);
    SortMembers(le, fs);
    if Ordered(le, es) {
      SortOrdered(le, fs);
      if forall i | 0 <= i < |es| :: ViewOf(fs[i].cid) == SeenView(large, es[i].cid, force) {
        assert v.items == w.items;
      }
      forall i | v == w && 0 <= i < |es| ensures ViewOf(fs[i].cid) == SeenView(large, es[i].cid, force) {
        assert v.items[i] == w.items[i];
      }
    } else if v == w {
      forall i | 0 <= i < |fs| ensures s[i].name == fs[i].name {
        assert v.items[i] == w.items[i];
      }
      SameNamesOrdered(le, fs);
      assert false;
    }
  }

  lemma StripSame(large: SizeTest, le: Collation, id: Cid, force: bool)
    ensures SeenView(large, Strip(id, force), force) == SeenView(large, id, force)
  {
  }

  /**
   The migration, forced or not, leaves the view as it was, order included, exactly when every
   directory it writes was in collation order.
   */
  lemma {:induction false} RebuildViewIff(large: SizeTest, le: Collation, src: Cid, force: bool)
    requires Reflexive(le)
    ensures ViewOf(Rebuild(large, le, src, force)) == SeenView(large, src, force) <==> Arranged(large, le, src, force)
    decreases src.block
  {
    if (force || !src.key) && IsDirectory(large, src.block) {
      var es, fs := Named(src.block.links), RebuildEntries(large, le, src.block, force);
      NamedMembers(src.block.links);
      ItemsSameIff(large, le, src, force);
      forall i | 0 <= i < |es|
        ensures ViewOf(fs[i].cid) == SeenView(large, es[i].cid, force) <==> Arranged(large, le, Strip(es[i].cid, force), force)
      {
        assert es[i] in src.block.links;
        RebuildViewIff(large, le, Strip(es[i].cid, force), force);
        StripSame(large, le, es[i].cid, force);
      }
      assert forall i | 0 <= i < |es| :: es[i] in es;
    }
  }

  /** Readers of any tree see its rebuilt form as the tree itself exactly when its rewritten directories are in order. */
  lemma RebuildPreservesViewIff(large: SizeTest, le: Collation, src: Cid)
    requires Reflexive(le)
    ensures ViewOf(Rebuild(large, le, src, false)) == ViewOf(src) <==> Arranged(large, le, src, false)
  {
    RebuildViewIff(large, le, src, false);
  }

  /** A directory listing "B" before "a", as a byte-wise sort leaves it, is rebuilt with "a" first. */
  lemma ByteOrderIsLost(le: Collation)
    requires Reflexive(le) && !le("B", "a")
    ensures var file := Cid(FileBlock([]), false);
            var b, a := Entry("B", file, 0, Blob, None), Entry("a", file, 0, Blob, None);
            var src := Cid(DirBlock([b, a]), false);
            var r := ListDirectory(Rebuild(_ => false, le, src, false));
            ListDirectory(src) == Some([b, a]) && r.Some? && |r.value| == 2 && r.value[0].name == "a" && r.value[1].name == "B"
  {
    var file := Cid(FileBlock([]), false);
    var b, a := Entry("B", file, 0, Blob, None), Entry("a", file, 0, Blob, None);
    NamedAll([b, a]);
    var block := DirBlock([b, a]);
    var es := RebuildEntries(_ => false, le, block, false);
    RebuiltListing(_ => false, le, block, false);
    assert es[0].name == "B" && es[1].name == "a";
    assert es[1..] == [es[1]] && es[1..][1..] == [];
    assert Insert(le, es[1], []) == [es[1]] && Insert(le, es[0], []) == [es[0]];
    assert Sort(le, es[1..]) == [es[1]] && [es[1]][1..] == [];
    assert Sort(le, es) == [es[1]] + [es[0]];
  }

  /** No directory below is too large for one block, apart from ones that list nothing. */
  predicate Compact(large: SizeTest, b: Block)
  {
    match b
    case DirBlock(links) =>
      && (large(links) ==> Named(links) == [])
      && (NamedMembers(links); forall e | e in Named(links) :: Compact(large, e.cid.block))
    case _ => true
  }

  lemma {:induction false} CompactSeen(large: SizeTest, src: Cid)
    requires Compact(large, src.block)
    ensures SeenView(large, src, true) == PlainView(src.block)
    decreases src.block
  {
    if IsDirectory(large, src.block) {
      var es := Named(src.block.links);
      NamedMembers(src.block.links);
      forall i | 0 <= i < |es| ensures SeenView(large, es[i].cid, true) == PlainView(es[i].cid.block) {
        assert es[i] in src.block.links;
        CompactSeen(large, es[i].cid);
      }
      assert SeenView(large, src, true).items == PlainView(src.block).items;
    } else if src.block.DirBlock? {
      assert ViewBlock(src.block).items == PlainView(src.block).items;
    }
  }

  /**
   The forced rebuild shows its readers the tree as it reads without keys, so it repairs trees whose
   identifiers carry keys for blocks that were never encrypted; below a chunked directory they see
   what they saw. The order is kept exactly when the rewritten directories are in order.
   */
  lemma ForcedRebuildView(large: SizeTest, le: Collation, src: Cid)
    requires Reflexive(le)
    ensures ViewOf(Rebuild(large, le, src, true)) == SeenView(large, src, true) <==> Arranged(large, le, src, true)
    ensures Compact(large, src.block) ==> SeenView(large, src, true) == PlainView(src.block)
  {
    RebuildViewIff(large, le, src, true);
    if Compact(large, src.block) { CompactSeen(large, src); }
  }

  // ---- every node gets a key ----

  /** The identifier opens with its key, and so does every identifier its readers can reach. */
  predicate FullyEncrypted(id: Cid)
  {
    id.key && id.block.Sealed? &&
    (id.block.inner.DirBlock? ==>
       (NamedMembers(id.block.inner.links);
        forall e | e in Named(id.block.inner.links) :: FullyEncrypted(e.cid)))
  }

  /**
   What the rebuild needs to encrypt all of a tree: whatever it does not enter, keyed subtrees and
   the entries of directories stored in chunks, is fully encrypted already, and no file is missing.
   */
  predicate Encryptable(large: SizeTest, id: Cid, force: bool)
    decreases id.block
  {
    if id.key && !force then FullyEncrypted(id)
    else
      match id.block
      case DirBlock(links) =>
        NamedMembers(links);
        if large(links) then forall e | e in Named(links) :: FullyEncrypted(e.cid)
        else forall e | e in Named(links) :: Encryptable(large, Strip(e.cid, force), force)
      case Lost(_) => false
      case _ => true
  }

  lemma EncryptedListing(large: SizeTest, le: Collation, b: Block, force: bool)
    requires b.DirBlock?
    ensures var es := RebuildEntries(large, le, b, force);
            FullyEncrypted(PutDirectory(le, es, true)) <==> forall i | 0 <= i < |es| :: FullyEncrypted(es[i].cid)
  {
    var es := RebuildEntries(large, le, b, force);
    RebuiltListing(large, le, b, force);
    assert forall i | 0 <= i < |es| :: es[i] in es;
  }

  /** For every tree, forced or not, the rebuild leaves no node without a key exactly when the tree is encryptable. */
  lemma {:induction false} RebuildEncryptsIff(large: SizeTest, le: Collation, src: Cid, force: bool)
    ensures FullyEncrypted(Rebuild(large, le, src, force)) <==> Encryptable(large, src, force)
    decreases src.block
  {
    if (force || !src.key) && IsDirectory(large, src.block) {
      var named, es := Named(src.block.links), RebuildEntries(large, le, src.block, force);
      NamedMembers(src.block.links);
      EncryptedListing(large, le, src.block, force);
      forall i | 0 <= i < |es|
        ensures FullyEncrypted(es[i].cid) <==> Encryptable(large, Strip(named[i].cid, force), force)
      {
        assert named[i] in src.block.links;
        RebuildEncryptsIff(large, le, Strip(named[i].cid, force), force);
      }
      assert forall i | 0 <= i < |named| :: named[i] in named;
    }
  }

  predicate KeyFree(id: Cid)
    decreases id.block, 1
  {
    !id.key && KeyFreeBelow(id.block)
  }

  predicate KeyFreeBelow(b: Block)
    decreases b, 0
  {
    match b
    case DirBlock(links) => (NamedMembers(links); forall e | e in Named(links) :: KeyFree(e.cid))
    case _ => !b.Sealed?
  }

  /** No file below is missing from the store. */
  predicate Complete(b: Block)
  {
    match b
    case DirBlock(links) => (NamedMembers(links); forall e | e in Named(links) :: Complete(e.cid.block))
    case Lost(_) => false
    case _ => true
  }

  lemma {:induction false} KeyFreeEncryptable(large: SizeTest, src: Cid, force: bool)
    requires KeyFree(src)
    ensures Encryptable(large, src, force) <==> Complete(src.block) && Compact(large, src.block)
    decreases src.block
  {
    if src.block.DirBlock? {
      var named := Named(src.block.links);
      NamedMembers(src.block.links);
      forall e | e in named
        ensures e.cid.block < src.block
        ensures Encryptable(large, Strip(e.cid, force), force) <==> Complete(e.cid.block) && Compact(large, e.cid.block)
      {
        assert e in src.block.links && KeyFree(e.cid);
        KeyFreeEncryptable(large, e.cid, force);
      }
      if named != [] {
        assert named[0] in named && KeyFree(named[0].cid);
      }
    }
  }

  /**
   From a key-free tree, the migration leaves no node without a key exactly when no file is
   missing and no directory is stored in chunks: a missing file is returned as it was, and a
   chunked directory is re-encrypted as one opaque file whose children keep their old, keyless
   identifiers.
   */
  lemma RebuildEncryptsAll(large: SizeTest, le: Collation, src: Cid, force: bool)
    requires KeyFree(src)
    ensures FullyEncrypted(Rebuild(large, le, src, force)) <==> Complete(src.block) && Compact(large, src.block)
  {
    RebuildEncryptsIff(large, le, src, force);
    KeyFreeEncryptable(large, src, force);
  }

  /** The chunked case is real: a keyless file inside a chunked directory stays keyless. */
  lemma ChunkedDirectoryKeepsKeylessChild(le: Collation)
    ensures var src := Cid(DirBlock([Entry("a", Cid(FileBlock([]), false), 0, Blob, None)]), false);
            var r := Rebuild(_ => true, le, src, false);
            r.key && ListDirectory(r) == Some(src.block.links) && !src.block.links[0].cid.key
  {
    var e := Entry("a", Cid(FileBlock([]), false), 0, Blob, None);
    assert Named([e]) == [e];
  }
}
