/**
 The content-addressed tree of the hashtree package: blocks, content identifiers, directory
 listing, path resolution and path-copying edits.

 Hashing is taken to be collision free, so a hash is identified with the block it names and a
 tree is an inductive value. `Sealed` is CHK ciphertext: it opens only with its key, and a key
 presented for a block that is not ciphertext makes the reader throw. `Lost` is a hash whose
 block the store does not hold.
 */
module HashTree {
  import opened Text
  import opened Wrappers

  datatype LinkType = Blob | File | Dir

  datatype Block =
    | FileBlock(data: seq<bv8>)
    | DirBlock(links: seq<Entry>)
    | Sealed(inner: Block)
    | Lost(id: nat)

  datatype Cid = Cid(block: Block, key: bool)

  datatype Entry = Entry(name: string, cid: Cid, size: nat, kind: LinkType, meta: Option<string>)

  /** What a path leads to: what `resolvePath` returns, with the size and metadata listed beside it. */
  datatype Target = Target(cid: Cid, kind: LinkType, size: nat, meta: Option<string>)

  function AsTarget(e: Entry): Target { Target(e.cid, e.kind, e.size, e.meta) }

  function RootTarget(root: Cid): Target { Target(root, Dir, 0, None) }

  /** The order `localeCompare` puts on names: `le(a, b)` when `a` may stand before `b`. */
  type Collation = (string, string) -> bool

  ghost predicate Reflexive(le: Collation) {
    forall n :: le(n, n)
  }

  // ---- directory listings ----

  function Find(entries: seq<Entry>, name: string): (r: Option<Entry>)
    ensures r.Some? ==> r.value in entries && r.value.name == name
    ensures r.None? <==> forall e | e in entries :: e.name != name
  {
    if entries == [] then None
    else if entries[0].name == name then Some(entries[0])
    else Find(entries[1..], name)
  }

  /** Links without a name are skipped when a directory is listed. */
  function Named(links: seq<Entry>): seq<Entry>
  {
    if links == [] then []
    else if links[0].name == "" then Named(links[1..])
    else [links[0]] + Named(links[1..])
  }

  lemma {:induction false} NamedMembers(links: seq<Entry>)
    ensures forall e | e in Named(links) :: e in links && e.name != ""
  {
    if links != [] {
      NamedMembers(links[1..]);
    }
  }

  /** The plaintext block behind an identifier; `None` when decryption throws. */
  function Open(id: Cid): Option<Block>
  {
    if !id.key then Some(id.block)
    else match id.block
      case Sealed(b) => Some(b)
      case Lost(_) => Some(id.block)
      case _ => None
  }

  /** `listDirectory`: anything that is not a directory lists as empty; `None` when it throws. */
  function ListDirectory(id: Cid): Option<seq<Entry>>
  {
    match Open(id)
    case None => None
    case Some(DirBlock(links)) => Some(Named(links))
    case Some(_) => Some([])
  }

  function Child(id: Cid, name: string): Option<Entry>
  {
    match ListDirectory(id)
    case None => None
    case Some(entries) => Find(entries, name)
  }

  /** `HashTree.resolvePath`; `None` stands for a null result and for a throw alike. */
  function ResolvePath(root: Cid, path: seq<string>): Option<Target>
    decreases |path|
  {
    if path == [] then Some(RootTarget(root))
    else match Child(root, path[0])
      case None => None
      case Some(e) => if |path| == 1 then Some(AsTarget(e)) else ResolvePath(e.cid, path[1..])
  }

  // ---- writing directories ----

  function Insert(le: Collation, e: Entry, sorted: seq<Entry>): seq<Entry>
  {
    if sorted == [] || le(e.name, sorted[0].name) then [e] + sorted
    else [sorted[0]] + Insert(le, e, sorted[1..])
  }

  /** The stable sort by name that every directory writer applies. */
  function Sort(le: Collation, entries: seq<Entry>): seq<Entry>
  {
    if entries == [] then [] else Insert(le, entries[0], Sort(le, entries[1..]))
  }

  function PutDirectory(le: Collation, entries: seq<Entry>, encrypted: bool): Cid
  {
    var node := DirBlock(Sort(le, entries));
    Cid(if encrypted then Sealed(node) else node, encrypted)
  }

  function PutFile(data: seq<bv8>, encrypted: bool): Cid
  {
    Cid(if encrypted then Sealed(FileBlock(data)) else FileBlock(data), encrypted)
  }

  /** The bytes of a file; `None` for anything else. */
  function Bytes(id: Cid): Option<seq<bv8>>
  {
    match Open(id)
    case Some(FileBlock(data)) => Some(data)
    case _ => None
  }

  /** A stored file is read back, with a key exactly if it was stored encrypted. */
  lemma PutFileBytes(data: seq<bv8>, encrypted: bool)
    ensures Bytes(PutFile(data, encrypted)) == Some(data) && PutFile(data, encrypted).key == encrypted
  {
  }

  /** The path leads to a file of these bytes, listed with their number, as a plain or an encrypted file. */
  predicate HoldsFile(t: Option<Target>, kind: LinkType, encrypted: bool, data: seq<bv8>)
  {
    && t.Some? && t.value.kind == kind && t.value.size == |data| && t.value.meta == None
    && t.value.cid.key == encrypted && Bytes(t.value.cid) == Some(data)
  }

  function Without(entries: seq<Entry>, name: string): seq<Entry>
  {
    if entries == [] then []
    else if entries[0].name == name then Without(entries[1..], name)
    else [entries[0]] + Without(entries[1..], name)
  }

  function Upsert(entries: seq<Entry>, e: Entry): seq<Entry>
  {
    Without(entries, e.name) + [e]
  }

  function Replace(entries: seq<Entry>, name: string, cid: Cid): seq<Entry>
  {
    if entries == [] then []
    else [if entries[0].name == name then entries[0].(cid := cid) else entries[0]] + Replace(entries[1..], name, cid)
  }

  // ---- edits ----

  /**
   The identifier an edit follows into a child. Under an encrypted root the child must carry a
   key; under a plain root only its hash is followed, whatever key it has.
   */
  function Follow(encrypted: bool, child: Cid): Option<Cid>
  {
    if !encrypted then Some(Cid(child.block, false))
    else if child.key then Some(child)
    else None
  }

  /** The directory an edit reaches by `path`. */
  function Walk(dir: Cid, path: seq<string>): Option<Cid>
    decreases |path|
  {
    if path == [] then Some(dir)
    else match Child(dir, path[0])
      case None => None
      case Some(e) =>
        match Follow(dir.key, e.cid)
        case None => None
        case Some(sub) => Walk(sub, path[1..])
  }

  /** The tree with the directory at `path` replaced: every directory above it is written anew. */
  function Graft(le: Collation, dir: Cid, path: seq<string>, child: Cid): Cid
    requires Walk(dir, path).Some?
    decreases |path|
  {
    if path == [] then child
    else
      var sub := Follow(dir.key, Child(dir, path[0]).value.cid).value;
      PutDirectory(le, Replace(ListDirectory(dir).value, path[0], Graft(le, sub, path[1..], child)), dir.key)
  }

  /** `setEntry`; `None` when it throws. */
  function SetEntry(le: Collation, root: Cid, path: seq<string>, e: Entry): Option<Cid>
  {
    match Walk(root, path)
    case None => None
    case Some(dir) =>
      match ListDirectory(dir)
      case None => None
      case Some(entries) => Some(Graft(le, root, path, PutDirectory(le, Upsert(entries, e), root.key)))
  }

  // ---- lookups in rewritten listings ----

  lemma {:induction false} FindNamed(links: seq<Entry>, n: string)
    ensures Find(Named(links), n) == if n == "" then None else Find(links, n)
  {
    if links != [] {
      FindNamed(links[1..], n);
      if links[0].name != "" {
        assert Named(links)[1..] == Named(links[1..]);
      }
    }
  }

  lemma {:induction false} FindInsert(le: Collation, e: Entry, sorted: seq<Entry>, n: string)
    requires Reflexive(le)
    ensures Find(Insert(le, e, sorted), n) == if e.name == n then Some(e) else Find(sorted, n)
  {
    if sorted == [] || le(e.name, sorted[0].name) {
      assert Insert(le, e, sorted)[1..] == sorted;
    } else {
      assert Insert(le, e, sorted)[1..] == Insert(le, e, sorted[1..]);
      FindInsert(le, e, sorted[1..], n);
    }
  }

  /** Sorting never changes which entry a name finds, duplicates included: the sort is stable. */
  lemma {:induction false} FindSort(le: Collation, entries: seq<Entry>, n: string)
    requires Reflexive(le)
    ensures Find(Sort(le, entries), n) == Find(entries, n)
  {
    if entries != [] {
      FindSort(le, entries[1..], n);
      FindInsert(le, entries[0], Sort(le, entries[1..]), n);
    }
  }

  lemma {:induction false} FindWithout(entries: seq<Entry>, name: string, n: string)
    ensures Find(Without(entries, name), n) == if n == name then None else Find(entries, n)
  {
    if entries != [] {
      FindWithout(entries[1..], name, n);
      if entries[0].name != name {
        assert Without(entries, name)[1..] == Without(entries[1..], name);
      }
    }
  }

  lemma {:induction false} FindAppend(entries: seq<Entry>, e: Entry, n: string)
    ensures Find(entries + [e], n) ==
            if Find(entries, n).Some? then Find(entries, n) else if e.name == n then Some(e) else None
  {
    if entries != [] {
      FindAppend(entries[1..], e, n);
      assert (entries + [e])[1..] == entries[1..] + [e];
    }
  }

  lemma FindUpsert(entries: seq<Entry>, e: Entry, n: string)
    ensures Find(Upsert(entries, e), n) == if n == e.name then Some(e) else Find(entries, n)
  {
    FindWithout(entries, e.name, n);
    FindAppend(Without(entries, e.name), e, n);
  }

  lemma {:induction false} FindReplace(entries: seq<Entry>, name: string, cid: Cid, n: string)
    ensures Find(Replace(entries, name, cid), n) ==
            if n == name && Find(entries, n).Some? then Some(Find(entries, n).value.(cid := cid))
            else Find(entries, n)
  {
    if entries != [] {
      FindReplace(entries[1..], name, cid, n);
      assert Replace(entries, name, cid)[1..] == Replace(entries[1..], name, cid);
    }
  }

  /** A directory that was just written answers lookups exactly as the list it was written from. */
  lemma ChildOfPut(le: Collation, entries: seq<Entry>, encrypted: bool, n: string)
    requires Reflexive(le)
    ensures Child(PutDirectory(le, entries, encrypted), n) == if n == "" then None else Find(entries, n)
  {
    FindSort(le, entries, n);
    FindNamed(Sort(le, entries), n);
  }

  lemma ChildName(id: Cid, n: string)
    ensures Child(id, n).Some? ==> n != "" && Child(id, n).value.name == n
  {
    if Child(id, n).Some? {
      FindNamed(Open(id).value.links, n);
    }
  }

  // ---- the laws of an edit ----

  /** Every directory along `path` is read the way the root is: with a key, or without one. */
  predicate Uniform(dir: Cid, path: seq<string>)
    decreases |path|
  {
    path == [] ||
    (Child(dir, path[0]).Some? &&
     var sub := Child(dir, path[0]).value.cid;
     sub.key == dir.key && Uniform(sub, path[1..]))
  }

  /** The same of every directory along `path` but the last. */
  predicate UniformAbove(dir: Cid, path: seq<string>)
    decreases |path|
  {
    |path| <= 1 ||
    (Child(dir, path[0]).Some? &&
     var sub := Child(dir, path[0]).value.cid;
     sub.key == dir.key && UniformAbove(sub, path[1..]))
  }

  lemma {:induction false} UniformIsUniformAbove(dir: Cid, path: seq<string>)
    requires Uniform(dir, path)
    ensures UniformAbove(dir, path)
    decreases |path|
  {
    if |path| > 1 {
      UniformIsUniformAbove(Child(dir, path[0]).value.cid, path[1..]);
    }
  }

  /** On a uniform path, edits walk where readers resolve. */
  lemma {:induction false} UniformWalk(dir: Cid, path: seq<string>)
    requires Uniform(dir, path)
    ensures Walk(dir, path).Some? && ResolvePath(dir, path).Some?
    ensures ResolvePath(dir, path).value.cid == Walk(dir, path).value
    ensures Walk(dir, path).value.key == dir.key
    decreases |path|
  {
    if path != [] {
      UniformWalk(Child(dir, path[0]).value.cid, path[1..]);
    }
  }

  lemma {:induction false} ResolveCompose(root: Cid, p: seq<string>, q: seq<string>)
    requires q != []
    ensures ResolvePath(root, p + q) ==
            if ResolvePath(root, p).None? then None else ResolvePath(ResolvePath(root, p).value.cid, q)
    decreases |p|
  {
    if p == [] {
      assert p + q == q;
    } else {
      assert (p + q)[1..] == p[1..] + q;
      if Child(root, p[0]).Some? && |p| > 1 {
        ResolveCompose(Child(root, p[0]).value.cid, p[1..], q);
      } else {
        assert |p| == 1 ==> p[1..] + q == q;
      }
    }
  }

  lemma GraftChild(le: Collation, dir: Cid, path: seq<string>, child: Cid, n: string)
    requires Reflexive(le) && path != [] && Walk(dir, path).Some?
    ensures var e := Child(dir, path[0]).value;
            var sub := Graft(le, Follow(dir.key, e.cid).value, path[1..], child);
            Child(Graft(le, dir, path, child), n) ==
            if n == path[0] then Some(e.(cid := sub)) else Child(dir, n)
  {
    var e := Child(dir, path[0]).value;
    var sub := Graft(le, Follow(dir.key, e.cid).value, path[1..], child);
    var entries := ListDirectory(dir).value;
    ChildOfPut(le, Replace(entries, path[0], sub), dir.key, n);
    FindReplace(entries, path[0], sub, n);
    ChildName(dir, n);
    ChildName(dir, path[0]);
  }

  /** Below the replaced directory, readers see the replacement. */
  lemma {:induction false} GraftBelow(le: Collation, dir: Cid, path: seq<string>, child: Cid, q: seq<string>)
    requires Reflexive(le) && Walk(dir, path).Some? && q != []
    ensures ResolvePath(Graft(le, dir, path, child), path + q) == ResolvePath(child, q)
    decreases |path|
  {
    if path == [] {
      assert path + q == q;
    } else {
      GraftChild(le, dir, path, child, path[0]);
      assert (path + q)[1..] == path[1..] + q;
      GraftBelow(le, Follow(dir.key, Child(dir, path[0]).value.cid).value, path[1..], child, q);
    }
  }

  /** Above it, every directory is still there under the same kind and uniform with the root. */
  lemma {:induction false} GraftAbove(le: Collation, dir: Cid, path: seq<string>, child: Cid)
    requires Reflexive(le) && Walk(dir, path).Some? && child.key == dir.key
    ensures Graft(le, dir, path, child).key == dir.key
    ensures Uniform(Graft(le, dir, path, child), path)
    decreases |path|
  {
    if path != [] {
      var sub := Follow(dir.key, Child(dir, path[0]).value.cid).value;
      GraftAbove(le, sub, path[1..], child);
      GraftChild(le, dir, path, child, path[0]);
    }
  }

  /** Listed with the same kind, size and metadata. */
  predicate SameListing(a: Target, b: Target) { a == b.(cid := a.cid) }

  lemma {:induction false} GraftKinds(le: Collation, dir: Cid, path: seq<string>, child: Cid, q: seq<string>)
    requires Reflexive(le) && UniformAbove(dir, path) && q <= path
    requires Walk(dir, path).Some?
    ensures ResolvePath(dir, q).Some? && ResolvePath(Graft(le, dir, path, child), q).Some?
    ensures SameListing(ResolvePath(Graft(le, dir, path, child), q).value, ResolvePath(dir, q).value)
    decreases |path|
  {
    if q != [] {
      GraftChild(le, dir, path, child, path[0]);
      if |q| > 1 { GraftKinds(le, Child(dir, path[0]).value.cid, path[1..], child, q[1..]); }
    }
  }

  /** Paths of which neither continues the other differ at some segment. */
  lemma Diverge(p: seq<string>, q: seq<string>) returns (k: nat)
    requires !(p <= q) && !(q <= p)
    ensures k < |p| && k < |q| && p[k] != q[k]
  {
    var n := if |p| < |q| then |p| else |q|;
    assert p[..n] != q[..n];
    k :| 0 <= k < n && p[k] != q[k];
  }

  /** Beside it, readers see what they saw; the directory itself need not be uniform. */
  lemma {:induction false} GraftBeside(le: Collation, dir: Cid, path: seq<string>, child: Cid, q: seq<string>, k: nat)
    requires Reflexive(le) && Walk(dir, path).Some?
    requires k < |path| && k < |q| && path[k] != q[k]
    requires UniformAbove(dir, path)
    ensures ResolvePath(Graft(le, dir, path, child), q) == ResolvePath(dir, q)
    decreases |path|
  {
    GraftChild(le, dir, path, child, q[0]);
    if q[0] == path[0] {
      var sub := Child(dir, path[0]).value.cid;
      assert Follow(dir.key, sub) == Some(sub);
      GraftBeside(le, sub, path[1..], child, q[1..], k - 1);
    }
  }

  /** The entry that was set is the entry that is read back, for every root and every path. */
  lemma ReadBack(le: Collation, root: Cid, path: seq<string>, e: Entry)
    requires Reflexive(le) && e.name != "" && SetEntry(le, root, path, e).Some?
    ensures ResolvePath(SetEntry(le, root, path, e).value, path + [e.name]) == Some(AsTarget(e))
  {
    var entries := ListDirectory(Walk(root, path).value).value;
    var child := PutDirectory(le, Upsert(entries, e), root.key);
    GraftBelow(le, root, path, child, [e.name]);
    ChildOfPut(le, Upsert(entries, e), root.key, e.name);
    FindUpsert(entries, e, e.name);
  }

  /** A written directory answers every other name as before. */
  lemma UpsertChild(le: Collation, dir: Cid, e: Entry, encrypted: bool, n: string)
    requires Reflexive(le) && ListDirectory(dir).Some?
    ensures Child(PutDirectory(le, Upsert(ListDirectory(dir).value, e), encrypted), n) ==
            if n == "" then None else if n == e.name then Some(e) else Child(dir, n)
  {
    ChildOfPut(le, Upsert(ListDirectory(dir).value, e), encrypted, n);
    FindUpsert(ListDirectory(dir).value, e, n);
  }

  lemma SetEntryBelow(le: Collation, root: Cid, path: seq<string>, e: Entry, t: seq<string>)
    requires Reflexive(le) && Uniform(root, path) && SetEntry(le, root, path, e).Some?
    requires t != [] && t[0] != e.name
    ensures ResolvePath(SetEntry(le, root, path, e).value, path + t) == ResolvePath(root, path + t)
  {
    UniformWalk(root, path);
    var dir := Walk(root, path).value;
    var child := PutDirectory(le, Upsert(ListDirectory(dir).value, e), root.key);
    GraftBelow(le, root, path, child, t);
    ResolveCompose(root, path, t);
    UpsertChild(le, dir, e, root.key, t[0]);
    ChildName(dir, t[0]);
  }

  /** Nothing outside the entry is disturbed when the path is uniform. */
  lemma SetEntryFrame(le: Collation, root: Cid, path: seq<string>, e: Entry, q: seq<string>)
    requires Reflexive(le) && Uniform(root, path) && SetEntry(le, root, path, e).Some?
    requires !(path + [e.name] <= q) && !(q <= path)
    ensures ResolvePath(SetEntry(le, root, path, e).value, q) == ResolvePath(root, q)
  {
    if path <= q {
      assert q == path + q[|path|..];
      SetEntryBelow(le, root, path, e, q[|path|..]);
    } else {
      UniformWalk(root, path);
      var child := PutDirectory(le, Upsert(ListDirectory(Walk(root, path).value).value, e), root.key);
      UniformIsUniformAbove(root, path);
      var k := Diverge(path, q);
      GraftBeside(le, root, path, child, q, k);
    }
  }

  /** The directories on the way stay, with their kinds, and become uniform. */
  lemma SetEntryAbove(le: Collation, root: Cid, path: seq<string>, e: Entry, q: seq<string>)
    requires Reflexive(le) && UniformAbove(root, path) && SetEntry(le, root, path, e).Some?
    requires q <= path
    ensures var r := SetEntry(le, root, path, e).value;
            && r.key == root.key && Uniform(r, path)
            && ResolvePath(root, q).Some? && ResolvePath(r, q).Some?
            && SameListing(ResolvePath(r, q).value, ResolvePath(root, q).value)
  {
    var child := PutDirectory(le, Upsert(ListDirectory(Walk(root, path).value).value, e), root.key);
    GraftAbove(le, root, path, child);
    GraftKinds(le, root, path, child, q);
  }

  // ---- a plain root over an encrypted directory ----

  /** A key accompanies ciphertext and nothing else, everywhere in the tree. */
  predicate WellKeyed(id: Cid)
    decreases id.block, 1
  {
    (id.block.Lost? || id.key == id.block.Sealed?) && WellKeyedBlock(id.block)
  }

  predicate WellKeyedBlock(b: Block)
    decreases b, 0
  {
    match b
    case DirBlock(links) => forall e | e in links :: WellKeyed(e.cid)
    case Sealed(inner) => !inner.Sealed? && WellKeyedBlock(inner)
    case _ => true
  }

  lemma WellKeyedChild(id: Cid, n: string)
    requires WellKeyed(id) && Child(id, n).Some?
    ensures WellKeyed(Child(id, n).value.cid)
  {
    assert WellKeyedBlock(Open(id).value);
    NamedMembers(Open(id).value.links);
  }

  /** With matching keys, a walk from a plain root leaves the uniform part only at its very end. */
  lemma {:induction false} PlainWalk(dir: Cid, path: seq<string>)
    requires WellKeyed(dir) && !dir.key && Walk(dir, path).Some?
    ensures ResolvePath(dir, path).Some?
    ensures Uniform(dir, path) || (
              && path != [] && UniformAbove(dir, path)
              && ResolvePath(dir, path).value.cid.key
              && ListDirectory(Walk(dir, path).value) == Some([]))
    decreases |path|
  {
    if path != [] {
      WellKeyedChild(dir, path[0]);
      var sub := Child(dir, path[0]).value.cid;
      if !sub.key {
        PlainWalk(sub, path[1..]);
      }
    }
  }

  /** Every path other than the written one and those leading to it reads as before. */
  ghost predicate Preserves(le: Collation, root: Cid, path: seq<string>, e: Entry)
    requires SetEntry(le, root, path, e).Some?
  {
    forall q: seq<string> | !(path + [e.name] <= q) && !(q <= path) ::
      ResolvePath(SetEntry(le, root, path, e).value, q) == ResolvePath(root, q)
  }

  /** No name but `name` is listed. */
  ghost predicate OnlyHolds(dir: Cid, name: string)
  {
    forall n: string | n != name :: Child(dir, n).None?
  }

  /**
   `setEntry` does not always leave the rest of the tree alone: under a plain root it lists an
   encrypted directory as empty and writes a new one holding the single entry. It preserves the
   rest exactly when the target directory carries a key like the root does, or held nothing else.
   */
  lemma SetEntryPreservesIff(le: Collation, root: Cid, path: seq<string>, e: Entry)
    requires Reflexive(le) && WellKeyed(root) && SetEntry(le, root, path, e).Some?
    ensures ResolvePath(root, path).Some?
    ensures Preserves(le, root, path, e) <==>
            var target := ResolvePath(root, path).value.cid;
            target.key == root.key || OnlyHolds(target, e.name)
  {
    if root.key {
      KeyedWalkUniform(root, path);
      UniformWalk(root, path);
    } else {
      PlainWalk(root, path);
    }
    if Uniform(root, path) {
      UniformWalk(root, path);
      forall q: seq<string> | !(path + [e.name] <= q) && !(q <= path)
        ensures ResolvePath(SetEntry(le, root, path, e).value, q) == ResolvePath(root, q)
      {
        SetEntryFrame(le, root, path, e, q);
      }
    } else {
      var target := ResolvePath(root, path).value.cid;
      if OnlyHolds(target, e.name) {
        forall q: seq<string> | !(path + [e.name] <= q) && !(q <= path)
          ensures ResolvePath(SetEntry(le, root, path, e).value, q) == ResolvePath(root, q)
        {
          LossySame(le, root, path, e, q);
        }
      } else {
        var n: string :| n != e.name && Child(target, n).Some?;
        LossyLoses(le, root, path, e, n);
      }
    }
  }

  /** The loss is real: adding `x` next to `y` in an encrypted directory of a plain tree loses `y`. */
  lemma PlainEditLosesEncryptedSibling(le: Collation, x: Cid, y: Cid)
    requires Reflexive(le)
    ensures var sub := Cid(Sealed(DirBlock([Entry("y", y, 0, Blob, None)])), true);
            var root := Cid(DirBlock([Entry("d", sub, 0, Dir, None)]), false);
            var r := SetEntry(le, root, ["d"], Entry("x", x, 0, Blob, None));
            && ResolvePath(root, ["d", "y"]) == Some(Target(y, Blob, 0, None))
            && r.Some? && ResolvePath(r.value, ["d", "y"]).None?
  {
    var yEntry := Entry("y", y, 0, Blob, None);
    var sub := Cid(Sealed(DirBlock([yEntry])), true);
    var dEntry := Entry("d", sub, 0, Dir, None);
    var root := Cid(DirBlock([dEntry]), false);
    var e := Entry("x", x, 0, Blob, None);
    FindNamed([dEntry], "d");
    FindNamed([yEntry], "y");
    assert Child(root, "d") == Some(dEntry) && Child(sub, "y") == Some(yEntry);
    assert ["d", "y"][1..] == ["y"] && ["d"][1..] == [];
    assert Walk(root, ["d"]) == Some(Cid(sub.block, false));
    var child := PutDirectory(le, Upsert([], e), false);
    GraftBelow(le, root, ["d"], child, ["y"]);
    assert ["d"] + ["y"] == ["d", "y"];
    UpsertChild(le, Cid(sub.block, false), e, false, "y");
  }

  lemma {:induction false} KeyedWalkUniform(dir: Cid, path: seq<string>)
    requires dir.key && Walk(dir, path).Some?
    ensures Uniform(dir, path)
    decreases |path|
  {
    if path != [] {
      KeyedWalkUniform(Child(dir, path[0]).value.cid, path[1..]);
    }
  }

  lemma LossyLoses(le: Collation, root: Cid, path: seq<string>, e: Entry, n: string)
    requires Reflexive(le) && SetEntry(le, root, path, e).Some? && ResolvePath(root, path).Some?
    requires ListDirectory(Walk(root, path).value) == Some([])
    requires n != e.name && Child(ResolvePath(root, path).value.cid, n).Some?
    ensures !Preserves(le, root, path, e)
  {
    var q := path + [n];
    var child := PutDirectory(le, Upsert([], e), root.key);
    GraftBelow(le, root, path, child, [n]);
    UpsertChild(le, Walk(root, path).value, e, root.key, n);
    ResolveCompose(root, path, [n]);
    assert ResolvePath(SetEntry(le, root, path, e).value, q) != ResolvePath(root, q);
    assert (path + [e.name])[|path|] == e.name && q[|path|] == n;
    assert !(path + [e.name] <= q) && !(q <= path);
  }

  lemma LossySameBelow(le: Collation, root: Cid, path: seq<string>, e: Entry, t: seq<string>)
    requires Reflexive(le) && SetEntry(le, root, path, e).Some? && ResolvePath(root, path).Some?
    requires path != [] && UniformAbove(root, path)
    requires ListDirectory(Walk(root, path).value) == Some([])
    requires OnlyHolds(ResolvePath(root, path).value.cid, e.name)
    requires t != [] && t[0] != e.name
    ensures ResolvePath(SetEntry(le, root, path, e).value, path + t) == ResolvePath(root, path + t)
  {
    var child := PutDirectory(le, Upsert([], e), root.key);
    GraftBelow(le, root, path, child, t);
    UpsertChild(le, Walk(root, path).value, e, root.key, t[0]);
    ResolveCompose(root, path, t);
  }

  lemma LossySame(le: Collation, root: Cid, path: seq<string>, e: Entry, q: seq<string>)
    requires Reflexive(le) && SetEntry(le, root, path, e).Some? && ResolvePath(root, path).Some?
    requires path != [] && UniformAbove(root, path)
    requires ListDirectory(Walk(root, path).value) == Some([])
    requires OnlyHolds(ResolvePath(root, path).value.cid, e.name)
    requires !(path + [e.name] <= q) && !(q <= path)
    ensures ResolvePath(SetEntry(le, root, path, e).value, q) == ResolvePath(root, q)
  {
    if path <= q {
      var t := q[|path|..];
      assert q == path + t && t != [];
      LossySameBelow(le, root, path, e, t);
    } else {
      var k := Diverge(path, q);
      GraftBeside(le, root, path, PutDirectory(le, Upsert([], e), root.key), q, k);
    }
  }

  // ---- the loops of the source ----

  method ResolvePathLoop(root: Cid, path: seq<string>) returns (r: Option<Target>)
    ensures r == ResolvePath(root, path)
  {
    var current := RootTarget(root);
    for i := 0 to |path|
      invariant ResolvePath(root, path[..i]) == Some(current)
    {
      var entries := ListDirectory(current.cid);
      assert path[..i + 1] == path[..i] + [path[i]];
      ResolveCompose(root, path[..i], [path[i]]);
      var found := if entries.None? then None else Find(entries.value, path[i]);
      if found.None? {
        assert path == path[..i + 1] + path[i + 1..];
        if path[i + 1..] != [] {
          ResolveCompose(root, path[..i + 1], path[i + 1..]);
        } else {
          assert path[..i + 1] == path;
        }
        return None;
      }
      current := AsTarget(found.value);
    }
    assert path[..|path|] == path;
    r := Some(current);
  }

  lemma {:induction false} WalkCompose(dir: Cid, p: seq<string>, q: seq<string>)
    ensures Walk(dir, p + q) == if Walk(dir, p).None? then None else Walk(Walk(dir, p).value, q)
    decreases |p|
  {
    if p == [] {
      assert p + q == q;
    } else {
      assert (p + q)[1..] == p[1..] + q;
      var e := Child(dir, p[0]);
      if e.Some? && Follow(dir.key, e.value.cid).Some? {
        WalkCompose(Follow(dir.key, e.value.cid).value, p[1..], q);
      }
    }
  }

  lemma {:induction false} WalkKey(dir: Cid, p: seq<string>)
    ensures Walk(dir, p).Some? ==> Walk(dir, p).value.key == dir.key
    decreases |p|
  {
    if p != [] && Child(dir, p[0]).Some? && Follow(dir.key, Child(dir, p[0]).value.cid).Some? {
      WalkKey(Follow(dir.key, Child(dir, p[0]).value.cid).value, p[1..]);
    }
  }

  /** One turn of the rebuilding loop: grafting one level deeper is writing one parent directory. */
  lemma {:induction false} GraftLast(le: Collation, dir: Cid, parts: seq<string>, name: string, child: Cid)
    requires Walk(dir, parts + [name]).Some?
    ensures Walk(dir, parts).Some? && ListDirectory(Walk(dir, parts).value).Some?
    ensures Graft(le, dir, parts + [name], child) ==
            Graft(le, dir, parts,
                  PutDirectory(le, Replace(ListDirectory(Walk(dir, parts).value).value, name, child), dir.key))
    decreases |parts|
  {
    WalkCompose(dir, parts, [name]);
    if parts == [] {
      assert parts + [name] == [name];
    } else {
      assert (parts + [name])[1..] == parts[1..] + [name];
      var sub := Follow(dir.key, Child(dir, parts[0]).value.cid).value;
      GraftLast(le, sub, parts[1..], name, child);
    }
  }

  /** The directory walk of both editors, one segment at a time. */
  method WalkLoop(root: Cid, path: seq<string>) returns (r: Option<Cid>)
    ensures r == Walk(root, path)
  {
    var current := root;
    for i := 0 to |path|
      invariant Walk(root, path[..i]) == Some(current)
    {
      WalkCompose(root, path[..i], path[i..]);
      WalkKey(root, path[..i]);
      assert path == path[..i] + path[i..];
      assert path[i..][1..] == path[i + 1..];
      var entries := ListDirectory(current);
      var found := if entries.None? then None else Find(entries.value, path[i]);
      if found.None? { return None; }
      var next := Follow(root.key, found.value.cid);
      if next.None? { return None; }
      WalkCompose(root, path[..i], [path[i]]);
      assert path[..i + 1] == path[..i] + [path[i]];
      assert [path[i]][1..] == [];
      current := next.value;
    }
    assert path[..|path|] == path;
    r := Some(current);
  }

  /** Segments that survive being joined with slashes and split again. */
  predicate Segments(path: seq<string>) {
    forall s | s in path :: s != "" && '/' !in s
  }

  /** The segments the plain editor really walks: slashes split them further, and empty ones are dropped. */
  function Rejoined(path: seq<string>): seq<string> { DropEmpty(Split(Join(path, '/'), '/')) }

  /** The plain editor joins its path with slashes and resolves the string. */
  method ResolvePathArray(root: Cid, path: seq<string>) returns (r: Option<Cid>)
    requires !root.key
    ensures r == Walk(root, Rejoined(path))
    ensures Segments(path) ==> r == Walk(root, path)
  {
    if Segments(path) { RejoinedSegments(path); }
    if |path| == 0 { return Some(root); }
    r := WalkLoop(root, Rejoined(path));
  }

  lemma RejoinedSegments(path: seq<string>)
    requires Segments(path)
    ensures Rejoined(path) == path
  {
    if path == [] {
      assert Split("", '/') == [""] && [""][1..] == [];
    } else {
      SplitJoin(path, '/');
      DropEmptyNone(path);
    }
  }

  /** How either editor reaches a directory: with the keys it finds, or by the joined path. */
  function Reached(root: Cid, path: seq<string>): Option<Cid>
  {
    Walk(root, if root.key then path else Rejoined(path))
  }

  method ReachDirectory(root: Cid, path: seq<string>) returns (r: Option<Cid>)
    ensures r == Reached(root, path)
  {
    if root.key {
      r := WalkLoop(root, path);
    } else {
      r := ResolvePathArray(root, path);
    }
  }

  /** The directories above the changed one, rebuilt one by one, each as it is reached in the old tree. */
  function RebuildUp(le: Collation, root: Cid, path: seq<string>, child: Cid): Option<Cid>
    decreases |path|
  {
    if path == [] then Some(child)
    else
      var up, name := path[..|path| - 1], path[|path| - 1];
      match Reached(root, up)
      case None => None
      case Some(parent) =>
        match ListDirectory(parent)
        case None => None
        case Some(entries) => RebuildUp(le, root, up, PutDirectory(le, Replace(entries, name, child), root.key))
  }

  /** `setEntry` on any path at all. */
  function SetEntryAt(le: Collation, root: Cid, path: seq<string>, e: Entry): Option<Cid>
  {
    match Reached(root, path)
    case None => None
    case Some(dir) =>
      match ListDirectory(dir)
      case None => None
      case Some(entries) => RebuildUp(le, root, path, PutDirectory(le, Upsert(entries, e), root.key))
  }

  lemma SegmentsPrefix(parts: seq<string>, i: nat)
    requires Segments(parts) && i <= |parts|
    ensures Segments(parts[..i])
  {
    assert forall p | p in parts[..i] :: p in parts;
  }

  /** Rebuilding bottom-up is replacing one directory, when joining the path loses nothing. */
  lemma {:induction false} RebuildGrafts(le: Collation, root: Cid, path: seq<string>, child: Cid)
    requires (Segments(path) || root.key) && Walk(root, path).Some?
    ensures RebuildUp(le, root, path, child) == Some(Graft(le, root, path, child))
    decreases |path|
  {
    if path != [] {
      var up, name := path[..|path| - 1], path[|path| - 1];
      assert path == up + [name];
      GraftLast(le, root, up, name, child);
      if !root.key {
        SegmentsPrefix(path, |up|);
        RejoinedSegments(up);
      }
      RebuildGrafts(le, root, up, PutDirectory(le, Replace(ListDirectory(Walk(root, up).value).value, name, child), root.key));
    }
  }

  /** For such paths the editors compute `SetEntry`. */
  lemma SetEntryAtSegments(le: Collation, root: Cid, path: seq<string>, e: Entry)
    requires Segments(path) || root.key
    ensures SetEntryAt(le, root, path, e) == SetEntry(le, root, path, e)
  {
    if !root.key { RejoinedSegments(path); }
    var dir := Walk(root, path);
    if dir.Some? && ListDirectory(dir.value).Some? {
      RebuildGrafts(le, root, path, PutDirectory(le, Upsert(ListDirectory(dir.value).value, e), root.key));
    }
  }

  /**
   For others they may not. A plain root takes the segment `a/b` apart to find the directory, but the
   rebuild looks for an entry of that whole name: if there is none, the edit succeeds and is lost.
   */
  lemma SlashedEditIsLost(le: Collation, root: Cid, name: string, e: Entry, q: seq<string>)
    requires Reflexive(le) && !root.key && Child(root, name).None? && q != []
    requires SetEntryAt(le, root, [name], e).Some?
    ensures ResolvePath(SetEntryAt(le, root, [name], e).value, q) == ResolvePath(root, q)
  {
    var entries := ListDirectory(root).value;
    var dir := Reached(root, [name]).value;
    var child := PutDirectory(le, Upsert(ListDirectory(dir).value, e), root.key);
    var up := [name][..0];
    assert up == [] && Rejoined(up) == [] by { RejoinedSegments([]); }
    assert Reached(root, up) == Some(root);
    var top := PutDirectory(le, Replace(entries, name, child), false);
    assert RebuildUp(le, root, [name], child) == RebuildUp(le, root, up, top) == Some(top);
    ChildOfPut(le, Replace(entries, name, child), false, q[0]);
    FindReplace(entries, name, child, q[0]);
    ChildName(root, q[0]);
  }

  /** Such an edit: `x` set in `["a/b"]` of a plain root that holds the directories `a` and `b` below it. */
  lemma SlashedPathIsTakenApart(le: Collation, e: Entry)
    ensures var b := Entry("b", Cid(DirBlock([]), false), 0, Dir, None);
            var a := Entry("a", Cid(DirBlock([b]), false), 0, Dir, None);
            var root := Cid(DirBlock([a]), false);
            Child(root, "a/b").None? && SetEntryAt(le, root, ["a/b"], e).Some?
  {
    var b := Entry("b", Cid(DirBlock([]), false), 0, Dir, None);
    var a := Entry("a", Cid(DirBlock([b]), false), 0, Dir, None);
    var root := Cid(DirBlock([a]), false);
    SplitWhole("b", '/');
    SplitCons("a", "b", '/');
    assert "a" + ['/'] + "b" == "a/b";
    DropEmptyNone(["a"] + ["b"]);
    assert Rejoined(["a/b"]) == ["a", "b"];
    assert Named([b]) == [b] && Named([a]) == [a];
    assert ["a", "b"][1..] == ["b"] && ["b"][1..] == [];
    assert Walk(root, ["a", "b"]) == Some(b.cid);
    var up := ["a/b"][..0];
    assert up == [] && Rejoined(up) == [] by { RejoinedSegments([]); }
    assert Reached(root, up) == Some(root);
  }

  /** Rebuilds from the changed directory up to the root, resolving each parent in the old tree. */
  method RebuildPath(le: Collation, root: Cid, path: seq<string>, newChild: Cid) returns (r: Option<Cid>)
    ensures r == RebuildUp(le, root, path, newChild)
    ensures (Segments(path) || root.key) && Walk(root, path).Some? ==> r == Some(Graft(le, root, path, newChild))
  {
    if (Segments(path) || root.key) && Walk(root, path).Some? { RebuildGrafts(le, root, path, newChild); }
    var child, parts := newChild, path;
    while parts != []
      invariant RebuildUp(le, root, parts, child) == RebuildUp(le, root, path, newChild)
    {
      var name := parts[|parts| - 1];
      parts := parts[..|parts| - 1];
      var parent := ReachDirectory(root, parts);
      if parent.None? { return None; }
      var entries := ListDirectory(parent.value);
      if entries.None? { return None; }
      child := PutDirectory(le, Replace(entries.value, name, child), root.key);
    }
    r := Some(child);
  }

  /** `setEntry` as the source runs it: find the directory, rewrite it, rebuild the path. */
  method SetEntryLoop(le: Collation, root: Cid, path: seq<string>, e: Entry) returns (r: Option<Cid>)
    ensures r == SetEntryAt(le, root, path, e)
    ensures Segments(path) || root.key ==> r == SetEntry(le, root, path, e)
  {
    if Segments(path) || root.key { SetEntryAtSegments(le, root, path, e); }
    var dir := ReachDirectory(root, path);
    if dir.None? { return None; }
    var entries := ListDirectory(dir.value);
    if entries.None? { return None; }
    var newDir := PutDirectory(le, Upsert(entries.value, e), root.key);
    r := RebuildPath(le, root, path, newDir);
  }
}
