/**
 Planning a directory tree from a flat list of slash-separated paths: which directories the
 paths need, and in which order to create them. Shared by the two writers that turn such a
 list into a tree.
 */
module PathPlan {
  import opened Text
  import opened HashTree

  datatype Asset = Asset(path: string, data: seq<bv8>)

  function Parts(path: string): (parts: seq<string>)
    ensures |parts| >= 1
  {
    Split(path, '/')
  }

  /** The last segment of a path, and the rest of it as a string. */
  function NameOf(path: string): string
  {
    Parts(path)[|Parts(path)| - 1]
  }

  function Depth(dir: string): nat
  {
    |Parts(dir)|
  }

  // ---- what the tree should hold, in terms of path segments ----

  predicate IsFile(assets: seq<Asset>, p: seq<string>)
  {
    exists a | a in assets :: Parts(a.path) == p
  }

  predicate IsDir(assets: seq<Asset>, p: seq<string>)
  {
    p != [] && exists a | a in assets :: p < Parts(a.path)
  }

  /** Segments are non-empty and no path is both a file and a directory. */
  predicate WellFormed(assets: seq<Asset>)
  {
    && (forall a | a in assets :: "" !in Parts(a.path))
    && (forall a, b | a in assets && b in assets :: !(Parts(a.path) < Parts(b.path)))
  }

  /** Of several assets with one path, the last one is kept. */
  function LastData(assets: seq<Asset>, path: string): seq<bv8>
  {
    if assets == [] then []
    else if assets[|assets| - 1].path == path then assets[|assets| - 1].data
    else LastData(assets[..|assets| - 1], path)
  }

  lemma PartsOfDir(assets: seq<Asset>, p: seq<string>)
    requires IsDir(assets, p)
    ensures Parts(Join(p, '/')) == p
  {
    var a :| a in assets && p < Parts(a.path);
    SplitParts(a.path, '/');
    assert forall s | s in p :: s in Parts(a.path);
    SplitJoin(p, '/');
  }

  /** A file below a file, or a directory below one, would contradict well-formedness. */
  lemma NothingBelowFile(assets: seq<Asset>, p: seq<string>, t: seq<string>)
    requires WellFormed(assets) && IsFile(assets, p) && t != []
    ensures !IsFile(assets, p + t) && !IsDir(assets, p + t) && !IsDir(assets, p)
  {
    var a :| a in assets && Parts(a.path) == p;
  }

  /** Something below a path makes the path a directory. */
  lemma AboveIsDir(assets: seq<Asset>, p: seq<string>, t: seq<string>)
    requires p != [] && t != [] && (IsFile(assets, p + t) || IsDir(assets, p + t))
    ensures IsDir(assets, p)
  {
    var a :| a in assets && p + t <= Parts(a.path);
    assert p < Parts(a.path);
  }

  lemma NonEmptyNames(assets: seq<Asset>, base: seq<string>)
    requires WellFormed(assets)
    ensures !IsFile(assets, base + [""]) && !IsDir(assets, base + [""])
  {
    assert "" in base + [""];
    assert forall parts: seq<string> | base + [""] < parts :: parts[|base|] == "";
  }

  // ---- the order of the directories ----

  function InsertBy(depth: string -> nat, le: Collation, d: string, sorted: seq<string>): seq<string>
  {
    if sorted == [] || (if depth(d) != depth(sorted[0]) then depth(d) < depth(sorted[0]) else le(d, sorted[0]))
    then [d] + sorted
    else [sorted[0]] + InsertBy(depth, le, d, sorted[1..])
  }

  /** The sort by depth, then by name. */
  function SortBy(depth: string -> nat, le: Collation, dirs: seq<string>): seq<string>
  {
    if dirs == [] then [] else InsertBy(depth, le, dirs[0], SortBy(depth, le, dirs[1..]))
  }

  predicate Ascending(depth: string -> nat, dirs: seq<string>)
  {
    |dirs| <= 1 || (depth(dirs[0]) <= depth(dirs[1]) && Ascending(depth, dirs[1..]))
  }

  lemma {:induction false} InsertAscending(depth: string -> nat, le: Collation, d: string, sorted: seq<string>)
    requires Ascending(depth, sorted)
    ensures Ascending(depth, InsertBy(depth, le, d, sorted))
    ensures InsertBy(depth, le, d, sorted)[0] == d || (sorted != [] && InsertBy(depth, le, d, sorted)[0] == sorted[0])
    ensures forall x :: x in InsertBy(depth, le, d, sorted) <==> x == d || x in sorted
  {
    var r := InsertBy(depth, le, d, sorted);
    if r == [d] + sorted {
      assert r[1..] == sorted;
    } else {
      assert r[1..] == InsertBy(depth, le, d, sorted[1..]);
      InsertAscending(depth, le, d, sorted[1..]);
    }
  }

  lemma {:induction false} SortAscending(depth: string -> nat, le: Collation, dirs: seq<string>)
    ensures Ascending(depth, SortBy(depth, le, dirs))
    ensures forall x :: x in SortBy(depth, le, dirs) <==> x in dirs
  {
    if dirs != [] {
      SortAscending(depth, le, dirs[1..]);
      InsertAscending(depth, le, dirs[0], SortBy(depth, le, dirs[1..]));
    }
  }

  ghost predicate Total(le: Collation) { forall a, b :: le(a, b) || le(b, a) }

  /** In order of depth, and of names within one depth. */
  predicate InOrder(depth: string -> nat, le: Collation, dirs: seq<string>)
  {
    forall i | 0 <= i < |dirs| - 1 ::
      depth(dirs[i]) < depth(dirs[i + 1]) || (depth(dirs[i]) == depth(dirs[i + 1]) && le(dirs[i], dirs[i + 1]))
  }

  predicate Distinct(dirs: seq<string>) { forall d | d in dirs :: multiset(dirs)[d] == 1 }

  lemma {:induction false} InsertInOrder(depth: string -> nat, le: Collation, d: string, sorted: seq<string>)
    requires Total(le) && InOrder(depth, le, sorted)
    ensures InOrder(depth, le, InsertBy(depth, le, d, sorted))
  {
    var r := InsertBy(depth, le, d, sorted);
    if r == [d] + sorted {
      forall i | 0 <= i < |r| - 1
        ensures depth(r[i]) < depth(r[i + 1]) || (depth(r[i]) == depth(r[i + 1]) && le(r[i], r[i + 1]))
      {
        if i == 0 {
          assert r[1] == sorted[0];
          if sorted[0] == d { assert le(d, d); }
        } else {
          assert r[i] == sorted[i - 1] && r[i + 1] == sorted[i];
        }
      }
    } else {
      var rest, more := sorted[1..], InsertBy(depth, le, d, sorted[1..]);
      forall i | 0 <= i < |rest| - 1
        ensures depth(rest[i]) < depth(rest[i + 1]) || (depth(rest[i]) == depth(rest[i + 1]) && le(rest[i], rest[i + 1]))
      {
        assert rest[i] == sorted[i + 1] && rest[i + 1] == sorted[i + 2];
      }
      InsertInOrder(depth, le, d, rest);
      forall i | 0 <= i < |r| - 1
        ensures depth(r[i]) < depth(r[i + 1]) || (depth(r[i]) == depth(r[i + 1]) && le(r[i], r[i + 1]))
      {
        assert r[i + 1] == more[i];
        if i > 0 { assert r[i] == more[i - 1]; } else if more[0] != d { assert more[0] == rest[0] == sorted[1]; }
      }
    }
  }

  lemma {:induction false} SortInOrder(depth: string -> nat, le: Collation, dirs: seq<string>)
    requires Total(le)
    ensures InOrder(depth, le, SortBy(depth, le, dirs))
  {
    if dirs != [] {
      SortInOrder(depth, le, dirs[1..]);
      InsertInOrder(depth, le, dirs[0], SortBy(depth, le, dirs[1..]));
    }
  }

  lemma {:induction false} InsertSize(depth: string -> nat, le: Collation, d: string, sorted: seq<string>)
    ensures multiset(InsertBy(depth, le, d, sorted)) == multiset(sorted) + multiset{d}
  {
    var r := InsertBy(depth, le, d, sorted);
    if r == [d] + sorted {
    } else {
      InsertSize(depth, le, d, sorted[1..]);
      assert sorted == [sorted[0]] + sorted[1..];
    }
  }

  lemma {:induction false} SortPermutes(depth: string -> nat, le: Collation, dirs: seq<string>)
    ensures multiset(SortBy(depth, le, dirs)) == multiset(dirs)
  {
    if dirs != [] {
      SortPermutes(depth, le, dirs[1..]);
      InsertSize(depth, le, dirs[0], SortBy(depth, le, dirs[1..]));
      assert dirs == [dirs[0]] + dirs[1..];
    }
  }

  lemma {:induction false} AscendingPair(depth: string -> nat, dirs: seq<string>, i: nat, j: nat)
    requires Ascending(depth, dirs) && i <= j < |dirs|
    ensures depth(dirs[i]) <= depth(dirs[j])
  {
    if i < j {
      AscendingPair(depth, dirs, i, j - 1);
      AscendingStep(depth, dirs, j);
    }
  }

  lemma {:induction false} AscendingStep(depth: string -> nat, dirs: seq<string>, j: nat)
    requires Ascending(depth, dirs) && 0 < j < |dirs|
    ensures depth(dirs[j - 1]) <= depth(dirs[j])
  {
    if j > 1 {
      AscendingStep(depth, dirs[1..], j - 1);
    }
  }

  // ---- the directories to create ----

  /** `parts[..1]` up to `parts[..k]`, joined. */
  function Ancestors(parts: seq<string>, k: nat): set<string>
    requires k <= |parts|
  {
    if k == 0 then {} else Ancestors(parts, k - 1) + {Join(parts[..k], '/')}
  }

  function DirSet(assets: seq<Asset>): set<string>
  {
    if assets == [] then {}
    else
      var parts := Parts(assets[|assets| - 1].path);
      DirSet(assets[..|assets| - 1]) + Ancestors(parts, |parts| - 1)
  }

  ghost predicate Lists(assets: seq<Asset>, dirs: seq<string>)
  {
    forall d :: d in dirs <==> d in DirSet(assets)
  }

  method GetDirectoryPaths(le: Collation, assets: seq<Asset>) returns (sorted: seq<string>)
    ensures Ascending(Depth, sorted) && (Total(le) ==> InOrder(Depth, le, sorted))
    ensures Lists(assets, sorted) && Distinct(sorted)
  {
    var dirs: seq<string> := [];
    for k := 0 to |assets|
      invariant Distinct(dirs)
      invariant forall d :: d in dirs <==> d in DirSet(assets[..k])
    {
      var parts := Parts(assets[k].path);
      assert assets[..k + 1][..k] == assets[..k];
      dirs := AddAncestors(dirs, parts[..|parts| - 1]);
      AncestorsOfPrefix(parts, |parts| - 1, |parts| - 1);
    }
    assert assets[..|assets|] == assets;
    sorted := SortBy(Depth, le, dirs);
    SortAscending(Depth, le, dirs);
    SortPermutes(Depth, le, dirs);
    if Total(le) { SortInOrder(Depth, le, dirs); }
  }

  lemma {:induction false} AncestorsOfPrefix(parts: seq<string>, m: nat, k: nat)
    requires k <= m <= |parts|
    ensures Ancestors(parts[..m], k) == Ancestors(parts, k)
  {
    if k > 0 {
      AncestorsOfPrefix(parts, m, k - 1);
      assert parts[..m][..k] == parts[..k];
    }
  }

  method AddAncestors(dirs: seq<string>, parts: seq<string>) returns (r: seq<string>)
    requires Distinct(dirs)
    ensures Distinct(r)
    ensures forall d :: d in r <==> d in dirs || d in Ancestors(parts, |parts|)
  {
    r := dirs;
    for i := 1 to |parts| + 1
      invariant Distinct(r)
      invariant forall d :: d in r <==> d in dirs || d in Ancestors(parts, i - 1)
    {
      var d := Join(parts[..i], '/');
      if d !in r {
        r := r + [d];
      }
    }
  }

  lemma {:induction false} AncestorWitness(parts: seq<string>, k: nat, d: string) returns (i: nat)
    requires k <= |parts| && d in Ancestors(parts, k)
    ensures 0 < i <= k && d == Join(parts[..i], '/')
  {
    if d == Join(parts[..k], '/') {
      i := k;
    } else {
      i := AncestorWitness(parts, k - 1, d);
    }
  }

  lemma {:induction false} AncestorMember(parts: seq<string>, k: nat, i: nat)
    requires 0 < i <= k <= |parts|
    ensures Join(parts[..i], '/') in Ancestors(parts, k)
  {
    if i < k {
      AncestorMember(parts, k - 1, i);
    }
  }

  lemma {:induction false} DirSetSound(assets: seq<Asset>, d: string)
    requires d in DirSet(assets)
    ensures IsDir(assets, Parts(d))
  {
    var a, rest := assets[|assets| - 1], assets[..|assets| - 1];
    if d in DirSet(rest) {
      DirSetSound(rest, d);
      var b :| b in rest && Parts(d) < Parts(b.path);
      assert b in assets;
    } else {
      var parts := Parts(a.path);
      var i := AncestorWitness(parts, |parts| - 1, d);
      assert a in assets && parts[..i] < parts;
      PartsOfDir(assets, parts[..i]);
    }
  }

  lemma {:induction false} DirSetComplete(assets: seq<Asset>, a: Asset, p: seq<string>)
    requires a in assets && p != [] && p < Parts(a.path)
    ensures Join(p, '/') in DirSet(assets)
  {
    var last, rest := assets[|assets| - 1], assets[..|assets| - 1];
    if a == last {
      var parts := Parts(a.path);
      assert p == parts[..|p|];
      AncestorMember(parts, |parts| - 1, |p|);
    } else {
      DirSetComplete(rest, a, p);
    }
  }
}
