/**
 The B-tree index: a search tree whose nodes are directories, split when they grow too large.

 Keys are compared in two ways: the entries of a node are sorted by `localeCompare`, and searches
 compare with `<`. A key is taken to be its place in the order of `<`; its place in the order of
 the locale is the parameter `rank`.
 */
module BTree {
  import opened Wrappers

  type Key = int

  type Rank = Key -> int

  datatype Entry<T> = Entry(key: Key, value: T)

  /** An inner node has an entry for each child, named by a key; a node without entries is a leaf. */
  datatype Node = Leaf(items: seq<Entry<string>>) | Inner(kids: seq<Entry<Node>>)

  // ---- one node ----

  /** `removeEntry`. */
  function Without<T>(s: seq<Entry<T>>, k: Key): seq<Entry<T>>
  {
    if s == [] then [] else if s[0].key == k then Without(s[1..], k) else [s[0]] + Without(s[1..], k)
  }

  /** An entry appended to a sorted listing, after the stable sort: behind those that tie with it. */
  function Sink<T>(rank: Rank, s: seq<Entry<T>>, e: Entry<T>): (r: seq<Entry<T>>)
    ensures |r| == |s| + 1
  {
    if s == [] || rank(e.key) < rank(s[0].key) then [e] + s else [s[0]] + Sink(rank, s[1..], e)
  }

  /** `setEntry`: an entry of the name goes, the new one is appended, and the listing is sorted. */
  function Place<T>(rank: Rank, s: seq<Entry<T>>, k: Key, v: T): seq<Entry<T>>
  {
    Sink(rank, Without(s, k), Entry(k, v))
  }

  function Lookup<T>(s: seq<Entry<T>>, k: Key): Option<T>
  {
    if s == [] then None else if s[0].key == k then Some(s[0].value) else Lookup(s[1..], k)
  }

  /** `findChild`, from child `i` on: the last child whose successor is not too small. */
  function Index<T>(kids: seq<Entry<T>>, k: Key, i: nat): (r: nat)
    requires i < |kids|
    ensures i <= r < |kids|
    decreases |kids| - i
  {
    if i + 1 < |kids| && !(k < kids[i + 1].key) then Index(kids, k, i + 1) else i
  }

  method FindChild(kids: seq<Entry<Node>>, k: Key) returns (i: nat)
    requires kids != []
    ensures i == Index(kids, k, 0)
  {
    i := 0;
    while i < |kids| - 1
      invariant i < |kids| && Index(kids, k, i) == Index(kids, k, 0)
    {
      if k < kids[i + 1].key { return; }
      i := i + 1;
    }
  }

  function Size(node: Node): nat { if node.Leaf? then |node.items| else |node.kids| }

  /** The name a node gets when it comes out of a split. */
  function FirstName(node: Node): Key
  {
    if Size(node) == 0 then 0 else if node.Leaf? then node.items[0].key else node.kids[0].key
  }

  // ---- the operations ----

  /** `get`. */
  function Get(node: Node, k: Key): Option<string>
    decreases node
  {
    match node
    case Leaf(items) => Lookup(items, k)
    case Inner(kids) => if kids == [] then None else Get(Chosen(kids, k).value, k)
  }

  function Chosen<T>(kids: seq<Entry<T>>, k: Key): (e: Entry<T>)
    requires kids != []
    ensures e in kids
  {
    kids[Index(kids, k, 0)]
  }

  datatype Outcome = Whole(node: Node) | Halves(left: Node, right: Node)

  /** A node with more than `most` entries is cut in two. */
  function Divide(node: Node, most: nat): Outcome
  {
    var mid := Size(node) / 2;
    if Size(node) <= most then Whole(node)
    else if node.Leaf? then Halves(Leaf(node.items[..mid]), Leaf(node.items[mid..]))
    else Halves(Inner(node.kids[..mid]), Inner(node.kids[mid..]))
  }

  /** The children after child `i` has become `outcome`. */
  function Refitted(rank: Rank, kids: seq<Entry<Node>>, i: nat, outcome: Outcome): seq<Entry<Node>>
    requires i < |kids|
  {
    match outcome
    case Whole(n) => Place(rank, kids, kids[i].key, n)
    case Halves(l, r) =>
      Place(rank, Place(rank, kids[..i] + kids[i + 1..], FirstName(l), l), FirstName(r), r)
  }

  /** `insertRecursive`. */
  function Insert(rank: Rank, most: nat, node: Node, k: Key, v: string): Outcome
    decreases node
  {
    match node
    case Leaf(items) => Divide(Leaf(Place(rank, items, k, v)), most)
    case Inner(kids) =>
      if kids == [] then Whole(node)
      else
        var kid := Chosen(kids, k);
        Divide(Inner(Refitted(rank, kids, Index(kids, k, 0), Insert(rank, most, kid.value, k, v))), most)
  }

  function Grown(rank: Rank, outcome: Outcome): Node
  {
    match outcome
    case Whole(n) => n
    case Halves(l, r) => Inner(Place(rank, Place(rank, [], FirstName(l), l), FirstName(r), r))
  }

  /** `insert`. */
  function Put(rank: Rank, most: nat, root: Option<Node>, k: Key, v: string): Node
  {
    if root.None? then Leaf([Entry(k, v)])
    else if Get(root.value, k) == Some(v) then root.value
    else Grown(rank, Insert(rank, most, root.value, k, v))
  }

  /** A node after its child `i` has become `child`; a node left with a single child gives way to it. */
  function Settled(rank: Rank, kids: seq<Entry<Node>>, i: nat, child: Option<Node>): Option<Node>
    requires i < |kids|
  {
    var rest := kids[..i] + kids[i + 1..];
    match child
    case Some(n) => Some(Inner(Place(rank, kids, kids[i].key, n)))
    case None => if rest == [] then None else if |rest| == 1 then Some(rest[0].value) else Some(Inner(rest))
  }

  /** `delete`; `None` when nothing is left. A leaf without the key comes back as it is, and so do the nodes above it. */
  function Delete(rank: Rank, node: Node, k: Key): Option<Node>
    decreases node
  {
    if Get(node, k).None? then Some(node)
    else
      match node
      case Leaf(items) => if Without(items, k) == [] then None else Some(Leaf(Without(items, k)))
      case Inner(kids) => Settled(rank, kids, Index(kids, k, 0), Delete(rank, Chosen(kids, k).value, k))
  }

  // ---- what a tree holds ----

  function Concat(kids: seq<Entry<Node>>): seq<Entry<string>>
    decreases kids
  {
    if kids == [] then []
    else
      assert kids[0] in kids;
      var e := kids[0];
      assert e.value < e;
      Items(e.value) + Concat(kids[1..])
  }

  /** The entries in the order in which `entries` walks the tree. */
  function Items(node: Node): seq<Entry<string>>
    decreases node
  {
    match node
    case Leaf(items) => items
    case Inner(kids) => Concat(kids)
  }

  predicate Sorted<T>(s: seq<Entry<T>>) { forall i, j | 0 <= i < j < |s| :: s[i].key < s[j].key }

  predicate Within(k: Key, lo: Option<Key>, hi: Option<Key>)
  {
    (lo.Some? ==> lo.value <= k) && (hi.Some? ==> k < hi.value)
  }

  predicate AllWithin<T>(s: seq<Entry<T>>, lo: Option<Key>, hi: Option<Key>)
  {
    forall i | 0 <= i < |s| :: Within(s[i].key, lo, hi)
  }

  function Low(kids: seq<Entry<Node>>, i: nat, lo: Option<Key>): Option<Key>
    requires i < |kids|
  {
    if i == 0 then lo else Some(kids[i].key)
  }

  function High(kids: seq<Entry<Node>>, i: nat, hi: Option<Key>): Option<Key>
    requires i < |kids|
  {
    if i + 1 < |kids| then Some(kids[i + 1].key) else hi
  }

  /**
   The shape searching relies on: the keys of a child lie between its name and the next name, but
   the first child also has the keys below its name.
   */
  predicate Shaped(node: Node, lo: Option<Key>, hi: Option<Key>)
    decreases node
  {
    match node
    case Leaf(items) => items != [] && Sorted(items) && AllWithin(items, lo, hi)
    case Inner(kids) =>
      && kids != [] && Sorted(kids) && (forall i | 0 < i < |kids| :: Within(kids[i].key, lo, hi))
      && (forall i | 0 <= i < |kids| :: (assert kids[i].value < kids[i]; Shaped(kids[i].value, Low(kids, i, lo), High(kids, i, hi))))
  }

  /** The two orders agree: sorting is by `<`. */
  ghost predicate Agree(rank: Rank) { forall a: Key, b: Key | a < b :: rank(a) < rank(b) }

  /** The locale that sorts as `<` does. */
  function Sorting(k: Key): int { k }

  // ---- sorted listings ----

  lemma KeysRise<T>(s: seq<Entry<T>>, i: nat, j: nat)
    requires Sorted(s) && i < |s| && j < |s|
    ensures i <= j ==> s[i].key <= s[j].key
    ensures i < j ==> s[i].key < s[j].key
  {
  }

  predicate Below<T>(s: seq<Entry<T>>, k: Key) { forall i | 0 <= i < |s| :: s[i].key < k }

  predicate Above<T>(s: seq<Entry<T>>, k: Key) { forall i | 0 <= i < |s| :: k < s[i].key }

  lemma {:induction false} LookupConcat<T>(a: seq<Entry<T>>, b: seq<Entry<T>>, k: Key)
    ensures Lookup(a + b, k) == if Lookup(a, k).Some? then Lookup(a, k) else Lookup(b, k)
  {
    if a == [] {
      assert a + b == b;
    } else {
      assert (a + b)[1..] == a[1..] + b;
      LookupConcat(a[1..], b, k);
    }
  }

  lemma {:induction false} LookupNone<T>(s: seq<Entry<T>>, k: Key)
    requires forall i | 0 <= i < |s| :: s[i].key != k
    ensures Lookup(s, k) == None
  {
    if s != [] { LookupNone(s[1..], k); }
  }

  lemma {:induction false} WithoutAfter<T>(a: seq<Entry<T>>, s: seq<Entry<T>>, k: Key)
    requires Below(a, k)
    ensures Without(a + s, k) == a + Without(s, k)
  {
    if a == [] {
      assert a + s == s;
    } else {
      assert (a + s)[1..] == a[1..] + s;
      WithoutAfter(a[1..], s, k);
    }
  }

  lemma {:induction false} WithoutAbove<T>(c: seq<Entry<T>>, k: Key)
    requires Above(c, k)
    ensures Without(c, k) == c
  {
    if c != [] {
      WithoutAbove(c[1..], k);
      assert c == [c[0]] + c[1..];
    }
  }

  lemma {:induction false} WithoutBefore<T>(b: seq<Entry<T>>, c: seq<Entry<T>>, k: Key)
    requires Above(c, k)
    ensures Without(b + c, k) == Without(b, k) + c
  {
    if b == [] {
      assert b + c == c;
      WithoutAbove(c, k);
    } else {
      assert (b + c)[1..] == b[1..] + c;
      WithoutBefore(b[1..], c, k);
    }
  }

  lemma {:induction false} SinkAfter<T>(rank: Rank, a: seq<Entry<T>>, s: seq<Entry<T>>, e: Entry<T>)
    requires Agree(rank) && Below(a, e.key)
    ensures Sink(rank, a + s, e) == a + Sink(rank, s, e)
  {
    if a == [] {
      assert a + s == s;
    } else {
      assert (a + s)[1..] == a[1..] + s;
      assert rank(a[0].key) < rank(e.key);
      SinkAfter(rank, a[1..], s, e);
    }
  }

  lemma {:induction false} SinkBefore<T>(rank: Rank, b: seq<Entry<T>>, c: seq<Entry<T>>, e: Entry<T>)
    requires Agree(rank) && Above(c, e.key)
    ensures Sink(rank, b + c, e) == Sink(rank, b, e) + c
  {
    if b == [] {
      assert b + c == c;
      if c != [] { assert rank(e.key) < rank(c[0].key); }
    } else {
      assert (b + c)[1..] == b[1..] + c;
      SinkBefore(rank, b[1..], c, e);
    }
  }

  lemma PlaceAfter<T>(rank: Rank, a: seq<Entry<T>>, s: seq<Entry<T>>, k: Key, v: T)
    requires Agree(rank) && Below(a, k)
    ensures Place(rank, a + s, k, v) == a + Place(rank, s, k, v)
  {
    WithoutAfter(a, s, k);
    SinkAfter(rank, a, Without(s, k), Entry(k, v));
  }

  lemma PlaceBefore<T>(rank: Rank, b: seq<Entry<T>>, c: seq<Entry<T>>, k: Key, v: T)
    requires Agree(rank) && Above(c, k)
    ensures Place(rank, b + c, k, v) == Place(rank, b, k, v) + c
  {
    WithoutBefore(b, c, k);
    SinkBefore(rank, Without(b, k), c, Entry(k, v));
  }

  lemma LookupOne<T>(e: Entry<T>, k: Key)
    ensures Lookup([e], k) == if e.key == k then Some(e.value) else None
  {
    assert [e][1..] == [];
  }

  /** Placing a key goes into the middle piece when the keys around it are smaller and larger. */
  lemma PlaceInside<T>(rank: Rank, a: seq<Entry<T>>, b: seq<Entry<T>>, c: seq<Entry<T>>, k: Key, v: T)
    requires Agree(rank) && Below(a, k) && Above(c, k)
    ensures Place(rank, a + b + c, k, v) == a + Place(rank, b, k, v) + c
  {
    PlaceBefore(rank, a + b, c, k, v);
    PlaceAfter(rank, a, b, k, v);
  }

  lemma PlaceBetween<T>(rank: Rank, a: seq<Entry<T>>, c: seq<Entry<T>>, k: Key, v: T)
    requires Agree(rank) && Below(a, k) && Above(c, k)
    ensures Place(rank, a + c, k, v) == a + [Entry(k, v)] + c
  {
    PlaceBefore(rank, a, c, k, v);
    PlaceAfter(rank, a, [], k, v);
    assert a + [] == a;
  }

  lemma PlaceInOne<T>(rank: Rank, e: Entry<T>, k: Key, v: T)
    ensures Place(rank, [], k, v) == [Entry(k, v)]
    ensures Place(rank, [e], k, v) ==
            if e.key == k then [Entry(k, v)] else if rank(k) < rank(e.key) then [Entry(k, v), e] else [e, Entry(k, v)]
  {
    assert [e][1..] == [] && Without([e], k) == if e.key == k then [] else [e];
    assert Sink(rank, [], Entry(k, v)) == [Entry(k, v)];
  }

  /** Where a key goes in a sorted listing, by its first entry. */
  lemma PlaceFirst<T>(rank: Rank, s: seq<Entry<T>>, k: Key, v: T)
    requires Agree(rank) && Sorted(s) && s != []
    ensures s[0].key > k ==> Place(rank, s, k, v) == [Entry(k, v)] + s
    ensures s[0].key == k ==> Place(rank, s, k, v) == [Entry(k, v)] + s[1..]
    ensures s[0].key < k ==> Place(rank, s, k, v) == [s[0]] + Place(rank, s[1..], k, v)
  {
    var e, c := s[0], s[1..];
    assert s == [e] + c && Below([e], e.key + 1) && [] + s == s;
    PlaceInOne(rank, e, k, v);
    if e.key < k {
      PlaceAfter(rank, [e], c, k, v);
    } else if e.key == k {
      PlaceBefore(rank, [e], c, k, v);
    } else {
      PlaceBefore(rank, [], s, k, v);
    }
  }

  lemma {:induction false} PlaceSorted<T>(rank: Rank, s: seq<Entry<T>>, k: Key, v: T)
    requires Agree(rank) && Sorted(s)
    ensures var p := Place(rank, s, k, v);
            && Sorted(p) && p != [] && (forall e | e in p :: e == Entry(k, v) || e in s)
            && p[0].key == (if s != [] && s[0].key <= k then s[0].key else k)
    ensures forall x :: Lookup(Place(rank, s, k, v), x) == if x == k then Some(v) else Lookup(s, x)
  {
    var p := Place(rank, s, k, v);
    if s != [] { PlaceFirst(rank, s, k, v); } else { LookupOne(Entry(k, v), k); }
    if s != [] && s[0].key < k {
      PlaceSorted(rank, s[1..], k, v);
      var q := Place(rank, s[1..], k, v);
      assert p == [s[0]] + q && p[1..] == q;
      forall j | 0 <= j < |q| ensures s[0].key < q[j].key {
        assert q[j] in q;
        if q[j] != Entry(k, v) {
          var i :| 0 <= i < |s[1..]| && s[1..][i] == q[j];
          assert s[0].key < s[i + 1].key;
        }
      }
    } else if s != [] && s[0].key == k {
      assert p[1..] == s[1..];
    } else {
      assert p[1..] == s;
      if Lookup(s, k).Some? { LookupNone(s, k); }
    }
  }

  /** Setting an entry that is there replaces it in its place. */
  lemma PlaceThere<T>(rank: Rank, s: seq<Entry<T>>, i: nat, v: T)
    requires Agree(rank) && Sorted(s) && i < |s|
    ensures Place(rank, s, s[i].key, v) == s[i := Entry(s[i].key, v)]
  {
    var a, c := s[..i], s[i + 1..];
    Cut3(s, i);
    PlaceBefore(rank, a + [s[i]], c, s[i].key, v);
    PlaceAfter(rank, a, [s[i]], s[i].key, v);
    PlaceInOne(rank, s[i], s[i].key, v);
  }

  // ---- searching ----

  lemma {:induction false} IndexProps<T>(kids: seq<Entry<T>>, k: Key, i: nat)
    requires i < |kids| && (i == 0 || kids[i].key <= k)
    ensures var r := Index(kids, k, i); (r == 0 || kids[r].key <= k) && (r + 1 < |kids| ==> k < kids[r + 1].key)
    decreases |kids| - i
  {
    if i + 1 < |kids| && !(k < kids[i + 1].key) { IndexProps(kids, k, i + 1); }
  }

  lemma AppendSorted<T>(a: seq<Entry<T>>, b: seq<Entry<T>>, lo: Option<Key>, m: Key, hi: Option<Key>)
    requires Sorted(a) && Sorted(b) && AllWithin(a, lo, Some(m)) && AllWithin(b, Some(m), hi) && Within(m, lo, hi)
    ensures Sorted(a + b) && AllWithin(a + b, lo, hi)
  {
  }

  lemma ShapedTail(kids: seq<Entry<Node>>, i: nat, lo: Option<Key>, hi: Option<Key>)
    requires Shaped(Inner(kids), lo, hi) && 0 < i < |kids|
    ensures Shaped(Inner(kids[i..]), Some(kids[i].key), hi) && Within(kids[i].key, lo, hi)
  {
    var t := kids[i..];
    forall j | 0 <= j < |t| ensures Shaped(t[j].value, Low(t, j, Some(kids[i].key)), High(t, j, hi)) {
      assert t[j] == kids[i + j];
    }
    forall j | 0 < j < |t| ensures Within(t[j].key, Some(kids[i].key), hi) {
      assert t[j] == kids[i + j] && kids[i].key < kids[i + j].key;
    }
  }

  lemma FrontBounds(kids: seq<Entry<Node>>, i: nat, j: nat, lo: Option<Key>, hi: Option<Key>)
    requires j < i < |kids|
    ensures var f := kids[..i];
            f[j] == kids[j] && Low(f, j, lo) == Low(kids, j, lo) && High(f, j, Some(kids[i].key)) == High(kids, j, hi)
  {
  }

  lemma ShapedFront(kids: seq<Entry<Node>>, i: nat, lo: Option<Key>, hi: Option<Key>)
    requires Shaped(Inner(kids), lo, hi) && 0 < i < |kids|
    ensures Shaped(Inner(kids[..i]), lo, Some(kids[i].key))
  {
    var f := kids[..i];
    forall j | 0 <= j < |f| ensures Shaped(f[j].value, Low(f, j, lo), High(f, j, Some(kids[i].key))) {
      FrontBounds(kids, i, j, lo, hi);
    }
    forall j | 0 < j < |f| ensures Within(f[j].key, lo, Some(kids[i].key)) {
      FrontBounds(kids, i, j, lo, hi);
      KeysRise(kids, j, i);
    }
  }

  lemma {:induction false} ItemsShaped(node: Node, lo: Option<Key>, hi: Option<Key>)
    requires Shaped(node, lo, hi)
    ensures Sorted(Items(node)) && AllWithin(Items(node), lo, hi) && Items(node) != []
    decreases node
  {
    if node.Inner? { ConcatShaped(node.kids, lo, hi); }
  }

  lemma {:induction false} ConcatShaped(kids: seq<Entry<Node>>, lo: Option<Key>, hi: Option<Key>)
    requires Shaped(Inner(kids), lo, hi)
    ensures Sorted(Concat(kids)) && AllWithin(Concat(kids), lo, hi) && Concat(kids) != []
    decreases kids
  {
    assert kids[0] in kids;
    var e := kids[0];
    assert e.value < e;
    ItemsShaped(e.value, Low(kids, 0, lo), High(kids, 0, hi));
    if |kids| > 1 {
      ShapedTail(kids, 1, lo, hi);
      ConcatShaped(kids[1..], Some(kids[1].key), hi);
      AppendSorted(Items(e.value), Concat(kids[1..]), lo, kids[1].key, hi);
    } else {
      assert kids[1..] == [] && Items(e.value) + [] == Items(e.value);
    }
  }

  lemma {:induction false} ConcatSplit(a: seq<Entry<Node>>, b: seq<Entry<Node>>)
    ensures Concat(a + b) == Concat(a) + Concat(b)
  {
    if a == [] {
      assert a + b == b;
    } else {
      assert (a + b)[1..] == a[1..] + b && (a + b)[0] == a[0];
      ConcatSplit(a[1..], b);
      assert Items(a[0].value) + (Concat(a[1..]) + Concat(b)) == Items(a[0].value) + Concat(a[1..]) + Concat(b);
    }
  }

  lemma ConcatOne(e: Entry<Node>)
    ensures Concat([e]) == Items(e.value)
  {
    assert [e][1..] == [] && Items(e.value) + [] == Items(e.value);
  }

  lemma ConcatThree(a: seq<Entry<Node>>, e: Entry<Node>, c: seq<Entry<Node>>)
    ensures Concat(a + [e] + c) == Concat(a) + Items(e.value) + Concat(c)
  {
    ConcatSplit(a + [e], c);
    ConcatSplit(a, [e]);
    ConcatOne(e);
  }

  lemma ConcatAt(kids: seq<Entry<Node>>, i: nat)
    requires i < |kids|
    ensures Concat(kids) == Concat(kids[..i]) + Items(kids[i].value) + Concat(kids[i + 1..])
  {
    Cut3(kids, i);
    ConcatThree(kids[..i], kids[i], kids[i + 1..]);
  }

  lemma Cut3<T>(s: seq<T>, i: nat)
    requires i < |s|
    ensures s == s[..i] + [s[i]] + s[i + 1..]
  {
  }

  lemma KidsBefore(kids: seq<Entry<Node>>, i: nat, lo: Option<Key>, hi: Option<Key>, k: Key)
    requires Shaped(Inner(kids), lo, hi) && i < |kids| && (i > 0 ==> kids[i].key <= k)
    ensures Below(Concat(kids[..i]), k) && Below(kids[..i], k)
  {
    if i > 0 {
      ShapedFront(kids, i, lo, hi);
      ConcatShaped(kids[..i], lo, Some(kids[i].key));
    }
  }

  lemma KidsAfter(kids: seq<Entry<Node>>, i: nat, lo: Option<Key>, hi: Option<Key>, k: Key)
    requires Shaped(Inner(kids), lo, hi) && i < |kids| && (i + 1 < |kids| ==> k < kids[i + 1].key)
    ensures Above(Concat(kids[i + 1..]), k) && Above(kids[i + 1..], k)
  {
    if i + 1 < |kids| {
      ShapedTail(kids, i + 1, lo, hi);
      ConcatShaped(kids[i + 1..], Some(kids[i + 1].key), hi);
    }
  }

  /** The keys before the chosen child are smaller, those after it larger. */
  lemma Around(kids: seq<Entry<Node>>, lo: Option<Key>, hi: Option<Key>, k: Key)
    requires Shaped(Inner(kids), lo, hi) && Within(k, lo, hi)
    ensures var i := Index(kids, k, 0);
            && Within(k, Low(kids, i, lo), High(kids, i, hi))
            && Below(Concat(kids[..i]), k) && Above(Concat(kids[i + 1..]), k)
            && Below(kids[..i], k) && Above(kids[i + 1..], k)
  {
    var i := Index(kids, k, 0);
    IndexProps(kids, k, 0);
    KidsBefore(kids, i, lo, hi, k);
    KidsAfter(kids, i, lo, hi, k);
  }

  /** In a shaped tree `get` finds exactly what the walk over all entries would find. */
  lemma {:induction false} GetFinds(node: Node, lo: Option<Key>, hi: Option<Key>, k: Key)
    requires Shaped(node, lo, hi) && Within(k, lo, hi)
    ensures Get(node, k) == Lookup(Items(node), k)
    decreases node
  {
    if node.Inner? {
      var kids := node.kids;
      var i := Index(kids, k, 0);
      Around(kids, lo, hi, k);
      ConcatAt(kids, i);
      assert kids[i] in kids && kids[i].value < kids[i];
      GetFinds(kids[i].value, Low(kids, i, lo), High(kids, i, hi), k);
      var a, b, c := Concat(kids[..i]), Items(kids[i].value), Concat(kids[i + 1..]);
      LookupConcat(a + b, c, k);
      LookupConcat(a, b, k);
      LookupNone(a, k);
      LookupNone(c, k);
    }
  }

  // ---- inserting ----

  /** A node that is not the first of its parent is named by its first key, at every level. */
  predicate Tight(node: Node, lo: Option<Key>)
    decreases node
  {
    && (lo.Some? ==> FirstName(node) == lo.value)
    && (node.Inner? && node.kids != [] ==> FirstName(node.kids[0].value) <= node.kids[0].key)
    && (node.Inner? ==> forall i | 0 <= i < |node.kids| :: (assert node.kids[i].value < node.kids[i]; Tight(node.kids[i].value, Low(node.kids, i, lo))))
  }

  /** The shape that inserting keeps. */
  predicate Inv(node: Node, lo: Option<Key>, hi: Option<Key>) { Shaped(node, lo, hi) && Tight(node, lo) }

  lemma InvTail(kids: seq<Entry<Node>>, i: nat, lo: Option<Key>, hi: Option<Key>)
    requires Inv(Inner(kids), lo, hi) && 0 < i < |kids|
    ensures Inv(Inner(kids[i..]), Some(kids[i].key), hi) && Within(kids[i].key, lo, hi)
  {
    var t := kids[i..];
    ShapedTail(kids, i, lo, hi);
    assert t[0] == kids[i] && Tight(kids[i].value, Low(kids, i, lo));
    forall j | 0 <= j < |t| ensures Tight(t[j].value, Low(t, j, Some(kids[i].key))) {
      assert t[j] == kids[i + j];
    }
  }

  lemma InvFront(kids: seq<Entry<Node>>, i: nat, lo: Option<Key>, hi: Option<Key>)
    requires Inv(Inner(kids), lo, hi) && 0 < i < |kids|
    ensures Inv(Inner(kids[..i]), lo, Some(kids[i].key))
  {
    var f := kids[..i];
    ShapedFront(kids, i, lo, hi);
    assert f[0] == kids[0];
    forall j | 0 <= j < |f| ensures Tight(f[j].value, Low(f, j, lo)) {
      assert f[j] == kids[j];
    }
  }

  lemma JoinBounds(a: seq<Entry<Node>>, b: seq<Entry<Node>>, lo: Option<Key>, m: Key, hi: Option<Key>, i: nat)
    requires a != [] && b != [] && b[0].key == m && i < |a| + |b|
    ensures var s := a + b;
            if i < |a| then s[i] == a[i] && Low(s, i, lo) == Low(a, i, lo) && High(s, i, hi) == High(a, i, Some(m))
            else s[i] == b[i - |a|] && Low(s, i, lo) == Low(b, i - |a|, Some(m)) && High(s, i, hi) == High(b, i - |a|, hi)
  {
  }

  lemma JoinShaped(a: seq<Entry<Node>>, b: seq<Entry<Node>>, lo: Option<Key>, m: Key, hi: Option<Key>)
    requires Shaped(Inner(a), lo, Some(m)) && Shaped(Inner(b), Some(m), hi) && b[0].key == m && Within(m, lo, hi)
    requires Below(a, m)
    ensures Shaped(Inner(a + b), lo, hi)
  {
    var s := a + b;
    forall i | 0 <= i < |s| ensures Shaped(s[i].value, Low(s, i, lo), High(s, i, hi)) {
      JoinBounds(a, b, lo, m, hi, i);
    }
  }

  lemma JoinInv(a: seq<Entry<Node>>, b: seq<Entry<Node>>, lo: Option<Key>, m: Key, hi: Option<Key>)
    requires Inv(Inner(a), lo, Some(m)) && Inv(Inner(b), Some(m), hi) && Within(m, lo, hi) && Below(a, m)
    ensures Inv(Inner(a + b), lo, hi)
  {
    var s := a + b;
    JoinShaped(a, b, lo, m, hi);
    assert s[0] == a[0];
    forall i | 0 <= i < |s| ensures Tight(s[i].value, Low(s, i, lo)) {
      if i < |a| {
        assert s[i] == a[i];
      } else {
        assert s[i] == b[i - |a|] && Low(s, i, lo) == Low(b, i - |a|, Some(m));
      }
    }
  }

  lemma OneKidInv(name: Key, n: Node, lo: Option<Key>, hi: Option<Key>)
    requires Inv(n, lo, hi) && FirstName(n) <= name && (lo.Some? ==> name == lo.value)
    ensures Inv(Inner([Entry(name, n)]), lo, hi)
  {
  }

  lemma TwoKidsInv(l: Node, r: Node, lo: Option<Key>, hi: Option<Key>)
    requires Inv(l, lo, Some(FirstName(r))) && Inv(r, Some(FirstName(r)), hi)
    requires FirstName(l) < FirstName(r) && Within(FirstName(r), lo, hi)
    ensures Inv(Inner([Entry(FirstName(l), l), Entry(FirstName(r), r)]), lo, hi)
  {
    var a, b := [Entry(FirstName(l), l)], [Entry(FirstName(r), r)];
    OneKidInv(FirstName(l), l, lo, Some(FirstName(r)));
    OneKidInv(FirstName(r), r, Some(FirstName(r)), hi);
    JoinInv(a, b, lo, FirstName(r), hi);
    assert a + b == [Entry(FirstName(l), l), Entry(FirstName(r), r)];
  }

  /** What an insertion below a node with these bounds must come to. */
  predicate Fits(o: Outcome, lo: Option<Key>, hi: Option<Key>, items: seq<Entry<string>>, first: Key)
  {
    match o
    case Whole(n) => Inv(n, lo, hi) && Items(n) == items && FirstName(n) <= first
    case Halves(l, r) =>
      && Inv(l, lo, Some(FirstName(r))) && Inv(r, Some(FirstName(r)), hi) && Items(l) + Items(r) == items
      && FirstName(l) <= first && FirstName(l) < FirstName(r) && Within(FirstName(r), lo, hi)
  }

  lemma DivideLeaf(s: seq<Entry<string>>, mid: nat, lo: Option<Key>, hi: Option<Key>)
    requires Inv(Leaf(s), lo, hi) && 0 < mid < |s|
    ensures Fits(Halves(Leaf(s[..mid]), Leaf(s[mid..])), lo, hi, s, s[0].key)
  {
    assert s[..mid] + s[mid..] == s && s[mid..][0] == s[mid] && s[0].key < s[mid].key;
  }

  lemma DivideInner(kids: seq<Entry<Node>>, mid: nat, lo: Option<Key>, hi: Option<Key>)
    requires Inv(Inner(kids), lo, hi) && 0 < mid < |kids|
    ensures Fits(Halves(Inner(kids[..mid]), Inner(kids[mid..])), lo, hi, Concat(kids), kids[0].key)
  {
    InvFront(kids, mid, lo, hi);
    InvTail(kids, mid, lo, hi);
    ConcatSplit(kids[..mid], kids[mid..]);
    assert kids[..mid] + kids[mid..] == kids && kids[mid..][0] == kids[mid] && kids[..mid][0] == kids[0];
  }

  lemma DivideFits(node: Node, most: nat, lo: Option<Key>, hi: Option<Key>)
    requires Inv(node, lo, hi) && most >= 1
    ensures Fits(Divide(node, most), lo, hi, Items(node), FirstName(node))
  {
    if Size(node) > most {
      var mid := Size(node) / 2;
      if node.Leaf? { DivideLeaf(node.items, mid, lo, hi); } else { DivideInner(node.kids, mid, lo, hi); }
    }
  }

  /** The children that take the place of child `i`. */
  function Middle(kids: seq<Entry<Node>>, i: nat, o: Outcome): seq<Entry<Node>>
    requires i < |kids|
  {
    match o
    case Whole(n) => [Entry(kids[i].key, n)]
    case Halves(l, r) => [Entry(FirstName(l), l), Entry(FirstName(r), r)]
  }

  lemma PlaceTwo(rank: Rank, a: seq<Entry<Node>>, c: seq<Entry<Node>>, l: Entry<Node>, r: Entry<Node>)
    requires Agree(rank) && l.key < r.key && Below(a, l.key) && Above(c, r.key)
    ensures Place(rank, Place(rank, a + c, l.key, l.value), r.key, r.value) == a + [l, r] + c
  {
    PlaceBetween(rank, a, c, l.key, l.value);
    PlaceBetween(rank, a + [l], c, r.key, r.value);
    assert a + [l] + [r] == a + [l, r];
  }

  lemma RefittedIs(rank: Rank, kids: seq<Entry<Node>>, i: nat, o: Outcome, lo: Option<Key>, hi: Option<Key>, items: seq<Entry<string>>)
    requires Agree(rank) && Inv(Inner(kids), lo, hi) && i < |kids|
    requires Fits(o, Low(kids, i, lo), High(kids, i, hi), items, FirstName(kids[i].value))
    ensures Refitted(rank, kids, i, o) == kids[..i] + Middle(kids, i, o) + kids[i + 1..]
  {
    if o.Whole? { PlaceThere(rank, kids, i, o.node); }
    if o.Halves? {
      var l, r := Entry(FirstName(o.left), o.left), Entry(FirstName(o.right), o.right);
      assert i > 0 ==> l.key == kids[i].key;
      var c := kids[i + 1..];
      forall j | 0 <= j < |c| ensures r.key < c[j].key {
        assert c[j] == kids[i + 1 + j] && kids[i + 1].key <= kids[i + 1 + j].key;
      }
      PlaceTwo(rank, kids[..i], c, l, r);
    }
  }

  lemma MiddleInv(kids: seq<Entry<Node>>, i: nat, o: Outcome, lo: Option<Key>, hi: Option<Key>, items: seq<Entry<string>>)
    requires Inv(Inner(kids), lo, hi) && i < |kids|
    requires Fits(o, Low(kids, i, lo), High(kids, i, hi), items, FirstName(kids[i].value))
    ensures Inv(Inner(Middle(kids, i, o)), Low(kids, i, lo), High(kids, i, hi))
    ensures Concat(Middle(kids, i, o)) == items && Middle(kids, i, o)[0].key <= kids[i].key
    ensures i > 0 ==> Middle(kids, i, o)[0].key == kids[i].key
  {
    assert Tight(kids[i].value, Low(kids, i, lo));
    assert FirstName(kids[i].value) <= kids[i].key;
    match o
    case Whole(n) =>
      OneKidInv(kids[i].key, n, Low(kids, i, lo), High(kids, i, hi));
      ConcatOne(Entry(kids[i].key, n));
    case Halves(l, r) =>
      TwoKidsInv(l, r, Low(kids, i, lo), High(kids, i, hi));
      ConcatSplit([Entry(FirstName(l), l)], [Entry(FirstName(r), r)]);
      ConcatOne(Entry(FirstName(l), l));
      ConcatOne(Entry(FirstName(r), r));
      assert [Entry(FirstName(l), l)] + [Entry(FirstName(r), r)] == Middle(kids, i, o);
  }

  lemma RefitFront(kids: seq<Entry<Node>>, i: nat, mid: seq<Entry<Node>>, lo: Option<Key>, hi: Option<Key>)
    requires Inv(Inner(kids), lo, hi) && i < |kids|
    requires Inv(Inner(mid), Low(kids, i, lo), High(kids, i, hi)) && (i > 0 ==> mid[0].key == kids[i].key)
    ensures Inv(Inner(kids[..i] + mid), lo, High(kids, i, hi))
  {
    if i > 0 {
      InvFront(kids, i, lo, hi);
      InvTail(kids, i, lo, hi);
      if i + 1 < |kids| { KeysRise(kids, i, i + 1); }
      JoinInv(kids[..i], mid, lo, kids[i].key, High(kids, i, hi));
    } else {
      assert kids[..i] + mid == mid;
    }
  }

  lemma RefitInv(kids: seq<Entry<Node>>, i: nat, mid: seq<Entry<Node>>, lo: Option<Key>, hi: Option<Key>)
    requires Inv(Inner(kids), lo, hi) && i < |kids|
    requires Inv(Inner(mid), Low(kids, i, lo), High(kids, i, hi)) && (i > 0 ==> mid[0].key == kids[i].key)
    requires i + 1 < |kids| ==> Below(mid, kids[i + 1].key)
    ensures Inv(Inner(kids[..i] + mid + kids[i + 1..]), lo, hi)
  {
    var front, c := kids[..i] + mid, kids[i + 1..];
    RefitFront(kids, i, mid, lo, hi);
    if i + 1 < |kids| {
      InvTail(kids, i + 1, lo, hi);
      forall j | 0 <= j < i ensures kids[j].key < kids[i + 1].key { KeysRise(kids, j, i + 1); }
      JoinInv(front, c, lo, kids[i + 1].key, hi);
    } else {
      assert front + c == front;
    }
  }

  lemma {:induction false} InsertFits(rank: Rank, most: nat, node: Node, lo: Option<Key>, hi: Option<Key>, k: Key, v: string)
    requires Agree(rank) && most >= 1 && Inv(node, lo, hi) && Within(k, lo, hi)
    ensures Fits(Insert(rank, most, node, k, v), lo, hi, Place(rank, Items(node), k, v), FirstName(node))
    decreases node
  {
    match node
    case Leaf(items) =>
      PlaceSorted(rank, items, k, v);
      LeafInv(rank, items, lo, hi, k, v);
      DivideFits(Leaf(Place(rank, items, k, v)), most, lo, hi);
    case Inner(kids) =>
      var i := Index(kids, k, 0);
      assert kids[i] in kids && kids[i].value < kids[i];
      Around(kids, lo, hi, k);
      assert Tight(kids[i].value, Low(kids, i, lo));
      InsertFits(rank, most, kids[i].value, Low(kids, i, lo), High(kids, i, hi), k, v);
      var o := Insert(rank, most, kids[i].value, k, v);
      InnerFits(rank, most, kids, i, o, lo, hi, k, v);
  }

  lemma LeafInv(rank: Rank, items: seq<Entry<string>>, lo: Option<Key>, hi: Option<Key>, k: Key, v: string)
    requires Agree(rank) && Inv(Leaf(items), lo, hi) && Within(k, lo, hi)
    ensures Inv(Leaf(Place(rank, items, k, v)), lo, hi) && FirstName(Leaf(Place(rank, items, k, v))) <= FirstName(Leaf(items))
  {
    var p := Place(rank, items, k, v);
    PlaceSorted(rank, items, k, v);
    forall i | 0 <= i < |p| ensures Within(p[i].key, lo, hi) {
      assert p[i] in p;
    }
  }

  lemma InnerFits(rank: Rank, most: nat, kids: seq<Entry<Node>>, i: nat, o: Outcome, lo: Option<Key>, hi: Option<Key>, k: Key, v: string)
    requires Agree(rank) && most >= 1 && Inv(Inner(kids), lo, hi) && Within(k, lo, hi) && i == Index(kids, k, 0)
    requires Fits(o, Low(kids, i, lo), High(kids, i, hi), Place(rank, Items(kids[i].value), k, v), FirstName(kids[i].value))
    ensures Fits(Divide(Inner(Refitted(rank, kids, i, o)), most), lo, hi, Place(rank, Concat(kids), k, v), kids[0].key)
  {
    var items := Place(rank, Items(kids[i].value), k, v);
    var mid := Middle(kids, i, o);
    var whole := kids[..i] + mid + kids[i + 1..];
    Around(kids, lo, hi, k);
    RefittedIs(rank, kids, i, o, lo, hi, items);
    MiddleInv(kids, i, o, lo, hi, items);
    RefitInv(kids, i, mid, lo, hi);
    ConcatSplit(kids[..i] + mid, kids[i + 1..]);
    ConcatSplit(kids[..i], mid);
    ConcatAt(kids, i);
    PlaceInside(rank, Concat(kids[..i]), Items(kids[i].value), Concat(kids[i + 1..]), k, v);
    assert Concat(whole) == Place(rank, Concat(kids), k, v);
    assert whole[0].key <= kids[0].key;
    DivideFits(Inner(whole), most, lo, hi);
  }

  lemma GrownIs(rank: Rank, o: Outcome, items: seq<Entry<string>>, first: Key)
    requires Agree(rank) && Fits(o, None, None, items, first)
    ensures Inv(Grown(rank, o), None, None) && Items(Grown(rank, o)) == items
  {
    if o.Halves? {
      var l, r := o.left, o.right;
      TwoKidsInv(l, r, None, None);
      PlaceBetween(rank, [Entry(FirstName(l), l)], [], FirstName(r), r);
      assert [Entry(FirstName(l), l)] + [] == [Entry(FirstName(l), l)];
      assert Grown(rank, o) == Inner([Entry(FirstName(l), l), Entry(FirstName(r), r)]);
      ConcatSplit([Entry(FirstName(l), l)], [Entry(FirstName(r), r)]);
      ConcatOne(Entry(FirstName(l), l));
      ConcatOne(Entry(FirstName(r), r));
      assert [Entry(FirstName(l), l)] + [Entry(FirstName(r), r)] == [Entry(FirstName(l), l), Entry(FirstName(r), r)];
    }
  }

  // ---- ranges ----

  /** The loop over a leaf: entries below the start are skipped, one at the end stops it. */
  function RangeLeaf(items: seq<Entry<string>>, start: Option<Key>, end: Option<Key>): seq<Entry<string>>
  {
    if items == [] then []
    else if start.Some? && items[0].key < start.value then RangeLeaf(items[1..], start, end)
    else if end.Some? && items[0].key >= end.value then []
    else [items[0]] + RangeLeaf(items[1..], start, end)
  }

  /** The loop over the children, from child `i` on. */
  function RangeKids(kids: seq<Entry<Node>>, i: nat, start: Option<Key>, end: Option<Key>): seq<Entry<string>>
    decreases kids, |kids| - i
  {
    if i >= |kids| then []
    else if start.Some? && i + 1 < |kids| && kids[i + 1].key <= start.value then RangeKids(kids, i + 1, start, end)
    else if end.Some? && kids[i].key >= end.value then []
    else
      assert kids[i] in kids;
      var e := kids[i];
      assert e.value < e;
      Range(e.value, start, end) + RangeKids(kids, i + 1, start, end)
  }

  /** `range`: the entries from `start` up to `end`. */
  function Range(node: Node, start: Option<Key>, end: Option<Key>): seq<Entry<string>>
    decreases node, 0
  {
    match node
    case Leaf(items) => RangeLeaf(items, start, end)
    case Inner(kids) => RangeKids(kids, 0, start, end)
  }

  function Filter(items: seq<Entry<string>>, start: Option<Key>, end: Option<Key>): seq<Entry<string>>
  {
    if items == [] then []
    else (if Within(items[0].key, start, end) then [items[0]] else []) + Filter(items[1..], start, end)
  }

  lemma FilterCons(e: Entry<string>, s: seq<Entry<string>>, start: Option<Key>, end: Option<Key>)
    ensures Filter([e] + s, start, end) == (if Within(e.key, start, end) then [e] else []) + Filter(s, start, end)
  {
    assert ([e] + s)[1..] == s;
  }

  lemma {:induction false} FilterConcat(a: seq<Entry<string>>, b: seq<Entry<string>>, start: Option<Key>, end: Option<Key>)
    ensures Filter(a + b, start, end) == Filter(a, start, end) + Filter(b, start, end)
  {
    if a == [] {
      assert a + b == b;
    } else {
      var e, t := a[0], a[1..];
      assert a == [e] + t && a + b == [e] + (t + b);
      FilterConcat(t, b, start, end);
      FilterCons(e, t, start, end);
      FilterCons(e, t + b, start, end);
    }
  }

  lemma {:induction false} FilterNone(items: seq<Entry<string>>, start: Option<Key>, end: Option<Key>)
    requires forall i | 0 <= i < |items| :: !Within(items[i].key, start, end)
    ensures Filter(items, start, end) == []
  {
    if items != [] { FilterNone(items[1..], start, end); }
  }

  lemma {:induction false} RangeLeafIs(items: seq<Entry<string>>, start: Option<Key>, end: Option<Key>)
    requires Sorted(items)
    ensures RangeLeaf(items, start, end) == Filter(items, start, end)
  {
    if items != [] {
      if end.Some? && items[0].key >= end.value {
        FilterNone(items, start, end);
        if start.Some? && items[0].key < start.value { RangeLeafIs(items[1..], start, end); }
      } else {
        RangeLeafIs(items[1..], start, end);
      }
    }
  }

  /** The end of the range does not come before the name of the first child. */
  predicate Reaches(node: Node, end: Option<Key>)
  {
    node.Leaf? || end.None? || FirstName(node) < end.value
  }

  lemma {:induction false} RangeIs(node: Node, lo: Option<Key>, hi: Option<Key>, start: Option<Key>, end: Option<Key>)
    requires Inv(node, lo, hi) && Reaches(node, end)
    ensures Range(node, start, end) == Filter(Items(node), start, end)
    decreases node, 0
  {
    match node
    case Leaf(items) => RangeLeafIs(items, start, end);
    case Inner(kids) =>
      RangeKidsIs(kids, 0, lo, hi, start, end);
      assert kids[0..] == kids;
  }

  /** What a child before, in or after the range contributes. */
  lemma FilterOfKids(kids: seq<Entry<Node>>, i: nat, lo: Option<Key>, hi: Option<Key>, start: Option<Key>, end: Option<Key>)
    requires Inv(Inner(kids), lo, hi) && i < |kids| && Reaches(Inner(kids), end)
    ensures Filter(Concat(kids[i..]), start, end) == Filter(Items(kids[i].value), start, end) + Filter(Concat(kids[i + 1..]), start, end)
    ensures start.Some? && i + 1 < |kids| && kids[i + 1].key <= start.value ==> Filter(Items(kids[i].value), start, end) == []
    ensures end.Some? && kids[i].key >= end.value ==> Filter(Items(kids[i].value), start, end) == []
    ensures !(end.Some? && kids[i].key >= end.value) ==> Reaches(kids[i].value, end)
  {
    var e, rest := kids[i], kids[i + 1..];
    assert Shaped(e.value, Low(kids, i, lo), High(kids, i, hi)) && Tight(e.value, Low(kids, i, lo));
    assert kids[i..] == [e] + rest;
    ConcatSplit([e], rest);
    ConcatOne(e);
    FilterConcat(Items(e.value), Concat(rest), start, end);
    ItemsShaped(e.value, Low(kids, i, lo), High(kids, i, hi));
    if (start.Some? && i + 1 < |kids| && kids[i + 1].key <= start.value) || (end.Some? && e.key >= end.value) {
      FilterNone(Items(e.value), start, end);
    }
  }

  lemma {:induction false} RangeKidsIs(kids: seq<Entry<Node>>, i: nat, lo: Option<Key>, hi: Option<Key>, start: Option<Key>, end: Option<Key>)
    requires Inv(Inner(kids), lo, hi) && i <= |kids| && Reaches(Inner(kids), end)
    ensures RangeKids(kids, i, start, end) == Filter(Concat(kids[i..]), start, end)
    decreases kids, |kids| - i
  {
    if i < |kids| {
      assert kids[i] in kids;
      var e := kids[i];
      assert e.value < e;
      FilterOfKids(kids, i, lo, hi, start, end);
      RangeKidsIs(kids, i + 1, lo, hi, start, end);
      if !(start.Some? && i + 1 < |kids| && kids[i + 1].key <= start.value) {
        if end.Some? && e.key >= end.value {
          PastTheEnd(kids, i + 1, start, end);
        } else {
          assert Shaped(e.value, Low(kids, i, lo), High(kids, i, hi)) && Tight(e.value, Low(kids, i, lo));
          RangeIs(e.value, Low(kids, i, lo), High(kids, i, hi), start, end);
        }
      }
    }
  }

  /** Children named at or after the end contribute nothing. */
  lemma {:induction false} PastTheEnd(kids: seq<Entry<Node>>, i: nat, start: Option<Key>, end: Option<Key>)
    requires i <= |kids| && end.Some? && forall j | i <= j < |kids| :: kids[j].key >= end.value
    ensures RangeKids(kids, i, start, end) == []
    decreases |kids| - i
  {
    if i < |kids| { PastTheEnd(kids, i + 1, start, end); }
  }

  /**
   In a tree made by insertions `range` gives exactly the entries of the range, in order, if and only
   if the end lies after the name of the root's first child, or nothing is in the range anyway. That
   name is not lowered when smaller keys are inserted.
   */
  lemma RangeExactIff(root: Node, start: Option<Key>, end: Option<Key>)
    requires Inv(root, None, None)
    ensures Range(root, start, end) == Filter(Items(root), start, end)
            <==> Reaches(root, end) || Filter(Items(root), start, end) == []
  {
    if Reaches(root, end) {
      RangeIs(root, None, None, start, end);
    } else {
      PastTheEnd(root.kids, 0, start, end);
    }
  }

  // ---- deleting ----

  /** No key below the first one's successor is lost from the front. */
  lemma TailAbove<T>(s: seq<Entry<T>>)
    requires Sorted(s) && s != []
    ensures Sorted(s[1..]) && Above(s[1..], s[0].key)
  {
    forall i | 0 <= i < |s[1..]| ensures s[0].key < s[1..][i].key {
      assert s[1..][i] == s[i + 1];
    }
  }

  lemma ConsSorted<T>(e: Entry<T>, s: seq<Entry<T>>)
    requires Sorted(s) && Above(s, e.key)
    ensures Sorted([e] + s)
  {
  }

  lemma {:induction false} WithoutIs<T>(s: seq<Entry<T>>, k: Key)
    requires Sorted(s)
    ensures var w := Without(s, k); Sorted(w) && forall i | 0 <= i < |w| :: w[i] in s && w[i].key != k
  {
    if s != [] {
      var tail := s[1..];
      var v := Without(tail, k);
      TailAbove(s);
      WithoutIs(tail, k);
      forall j | 0 <= j < |v| ensures v[j] in s && s[0].key < v[j].key {
        var i :| 0 <= i < |tail| && tail[i] == v[j];
        assert tail[i] == s[i + 1];
      }
      if s[0].key != k { ConsSorted(s[0], v); }
    }
  }

  lemma {:induction false} WithoutLookup<T>(s: seq<Entry<T>>, k: Key, x: Key)
    ensures Lookup(Without(s, k), x) == if x == k then None else Lookup(s, x)
    ensures Lookup(s, k).None? ==> Without(s, k) == s
  {
    if s != [] {
      WithoutLookup(s[1..], k, x);
      if s[0].key != k {
        assert ([s[0]] + Without(s[1..], k))[1..] == Without(s[1..], k);
        assert s == [s[0]] + s[1..];
      }
    }
  }

  lemma WithoutMiddle<T>(a: seq<Entry<T>>, b: seq<Entry<T>>, c: seq<Entry<T>>, k: Key)
    requires Below(a, k) && Above(c, k)
    ensures Without(a + b + c, k) == a + Without(b, k) + c
  {
    WithoutBefore(a + b, c, k);
    WithoutAfter(a, b, k);
  }

  predicate Wider(lo: Option<Key>, hi: Option<Key>, lo': Option<Key>, hi': Option<Key>)
  {
    (lo'.Some? ==> lo.Some? && lo'.value <= lo.value) && (hi'.Some? ==> hi.Some? && hi.value <= hi'.value)
  }

  lemma {:induction false} Widen(node: Node, lo: Option<Key>, hi: Option<Key>, lo': Option<Key>, hi': Option<Key>)
    requires Shaped(node, lo, hi) && Wider(lo, hi, lo', hi')
    ensures Shaped(node, lo', hi')
    decreases node
  {
    if node.Inner? {
      var kids := node.kids;
      forall i | 0 <= i < |kids| ensures Shaped(kids[i].value, Low(kids, i, lo'), High(kids, i, hi')) {
        assert kids[i] in kids && kids[i].value < kids[i];
        Widen(kids[i].value, Low(kids, i, lo), High(kids, i, hi), Low(kids, i, lo'), High(kids, i, hi'));
      }
    }
  }

  /** Where child `j` of the rest was before child `i` went. */
  function Was(i: nat, j: nat): nat { if j < i then j else j + 1 }

  lemma RestAt(kids: seq<Entry<Node>>, i: nat, j: nat)
    requires i < |kids| && j < |kids| - 1
    ensures (kids[..i] + kids[i + 1..])[j] == kids[Was(i, j)]
  {
  }

  lemma KeysInOrder(kids: seq<Entry<Node>>, m: nat, n: nat, lo: Option<Key>, hi: Option<Key>)
    requires Shaped(Inner(kids), lo, hi) && 0 < m <= n < |kids|
    ensures kids[m].key <= kids[n].key && Within(kids[m].key, lo, hi) && Within(kids[n].key, lo, hi)
  {
  }

  /** The bounds of the children that stay only grow when child `i` goes. */
  lemma BoundsGrow(kids: seq<Entry<Node>>, rest: seq<Entry<Node>>, i: nat, j: nat, lo: Option<Key>, hi: Option<Key>)
    requires Shaped(Inner(kids), lo, hi) && i < |kids| && j < |rest| == |kids| - 1
    requires rest[j].key == kids[Was(i, j)].key && (j + 1 < |rest| ==> rest[j + 1].key == kids[Was(i, j + 1)].key)
    ensures var m := Was(i, j); Wider(Low(kids, m, lo), High(kids, m, hi), Low(rest, j, lo), High(rest, j, hi))
  {
    var m := Was(i, j);
    if m > 0 { KeysInOrder(kids, m, m, lo, hi); }
    if m + 1 < |kids| {
      KeysInOrder(kids, m + 1, m + 1, lo, hi);
      if j + 1 < |rest| { KeysInOrder(kids, m + 1, Was(i, j + 1), lo, hi); }
    }
  }

  /** Taking a child out leaves a shaped node. */
  lemma TakenOut(kids: seq<Entry<Node>>, i: nat, lo: Option<Key>, hi: Option<Key>)
    requires Shaped(Inner(kids), lo, hi) && i < |kids| && |kids| > 1
    ensures Shaped(Inner(kids[..i] + kids[i + 1..]), lo, hi)
  {
    var rest := kids[..i] + kids[i + 1..];
    forall j | 0 <= j < |rest| ensures Shaped(rest[j].value, Low(rest, j, lo), High(rest, j, hi)) {
      var m := Was(i, j);
      RestAt(kids, i, j);
      if j + 1 < |rest| { RestAt(kids, i, j + 1); }
      BoundsGrow(kids, rest, i, j, lo, hi);
      Widen(kids[m].value, Low(kids, m, lo), High(kids, m, hi), Low(rest, j, lo), High(rest, j, hi));
    }
  }

  lemma ReplacedItems(kids: seq<Entry<Node>>, i: nat, e: Entry<Node>)
    requires i < |kids|
    ensures Concat(kids[i := e]) == Concat(kids[..i]) + Items(e.value) + Concat(kids[i + 1..])
  {
    var r := kids[i := e];
    ConcatAt(r, i);
    assert r[..i] == kids[..i] && r[i + 1..] == kids[i + 1..];
  }

  lemma Replaced(kids: seq<Entry<Node>>, i: nat, n: Node, lo: Option<Key>, hi: Option<Key>)
    requires Shaped(Inner(kids), lo, hi) && i < |kids| && Shaped(n, Low(kids, i, lo), High(kids, i, hi))
    ensures Shaped(Inner(kids[i := Entry(kids[i].key, n)]), lo, hi)
    ensures Concat(kids[i := Entry(kids[i].key, n)]) == Concat(kids[..i]) + Items(n) + Concat(kids[i + 1..])
  {
    var r := kids[i := Entry(kids[i].key, n)];
    ReplacedItems(kids, i, Entry(kids[i].key, n));
    forall j | 0 <= j < |r| ensures Shaped(r[j].value, Low(r, j, lo), High(r, j, hi)) {
      assert j != i ==> r[j] == kids[j];
      assert Low(r, j, lo) == Low(kids, j, lo) && High(r, j, hi) == High(kids, j, hi);
    }
  }

  ghost predicate Deleted(items: seq<Entry<string>>, lo: Option<Key>, hi: Option<Key>, k: Key, r: Option<Node>)
  {
    if r.Some? then Shaped(r.value, lo, hi) && Items(r.value) == Without(items, k) else Without(items, k) == []
  }

  /** Deleting removes the key and nothing else, and keeps the shape searching relies on. */
  lemma {:induction false} DeleteRemoves(rank: Rank, node: Node, lo: Option<Key>, hi: Option<Key>, k: Key)
    requires Agree(rank) && Shaped(node, lo, hi) && Within(k, lo, hi)
    ensures Deleted(Items(node), lo, hi, k, Delete(rank, node, k))
    decreases node
  {
    GetFinds(node, lo, hi, k);
    if Get(node, k).None? {
      WithoutLookup(Items(node), k, k);
      return;
    }
    match node
    case Leaf(items) =>
      WithoutIs(items, k);
      WithoutLookup(items, k, k);
      var w := Without(items, k);
      forall i | 0 <= i < |w| ensures Within(w[i].key, lo, hi) {
        assert w[i] in items;
      }
    case Inner(kids) =>
      var i := Index(kids, k, 0);
      assert kids[i] in kids && kids[i].value < kids[i];
      Around(kids, lo, hi, k);
      DeleteRemoves(rank, kids[i].value, Low(kids, i, lo), High(kids, i, hi), k);
      SettledDeleted(rank, kids, i, lo, hi, k, Delete(rank, kids[i].value, k));
  }

  lemma MiddleGone(kids: seq<Entry<Node>>, i: nat, lo: Option<Key>, hi: Option<Key>, k: Key)
    requires Shaped(Inner(kids), lo, hi) && Within(k, lo, hi) && i == Index(kids, k, 0)
    ensures Without(Concat(kids), k) == Concat(kids[..i]) + Without(Items(kids[i].value), k) + Concat(kids[i + 1..])
  {
    Around(kids, lo, hi, k);
    ConcatAt(kids, i);
    WithoutMiddle(Concat(kids[..i]), Items(kids[i].value), Concat(kids[i + 1..]), k);
  }

  lemma SettledDeleted(rank: Rank, kids: seq<Entry<Node>>, i: nat, lo: Option<Key>, hi: Option<Key>, k: Key, r: Option<Node>)
    requires Agree(rank) && Shaped(Inner(kids), lo, hi) && Within(k, lo, hi) && i == Index(kids, k, 0)
    requires Deleted(Items(kids[i].value), Low(kids, i, lo), High(kids, i, hi), k, r)
    ensures Deleted(Concat(kids), lo, hi, k, Settled(rank, kids, i, r))
  {
    MiddleGone(kids, i, lo, hi, k);
    if r.Some? {
      PlaceThere(rank, kids, i, r.value);
      Replaced(kids, i, r.value, lo, hi);
    } else {
      assert Concat(kids[..i]) + [] == Concat(kids[..i]);
      ConcatSplit(kids[..i], kids[i + 1..]);
      ChildGone(kids, i, lo, hi);
    }
  }

  /** What is left when child `i` is gone: nothing, a single child, or a node of the others. */
  lemma ChildGone(kids: seq<Entry<Node>>, i: nat, lo: Option<Key>, hi: Option<Key>)
    requires Shaped(Inner(kids), lo, hi) && i < |kids|
    ensures var rest := kids[..i] + kids[i + 1..];
            if rest == [] then Concat(rest) == []
            else if |rest| == 1 then Shaped(rest[0].value, lo, hi) && Items(rest[0].value) == Concat(rest)
            else Shaped(Inner(rest), lo, hi)
  {
    var rest := kids[..i] + kids[i + 1..];
    if rest != [] {
      TakenOut(kids, i, lo, hi);
      if |rest| == 1 {
        assert rest == [rest[0]];
        ConcatOne(rest[0]);
        assert Shaped(rest[0].value, Low(rest, 0, lo), High(rest, 0, hi));
      }
    }
  }
}
