/**
 What an insertion into a B-tree loses, once there have been deletions: exactly which keys, and which
 runs of insertions and deletions lose none.
 */
module BTreeLoss {
  import opened BTree
  import opened BTreeOrders
  import opened Wrappers

  // ---- what one insertion loses ----

  /** Who stands under a name once child `i` has been cut: another child, or one of the halves. */
  datatype Spot = Old(index: nat) | Left | Right

  function Spots(kids: seq<Entry<Node>>): seq<Entry<Spot>>
  {
    seq(|kids|, i requires 0 <= i < |kids| => Entry(kids[i].key, Old(i)))
  }

  /** The names of the children, once child `i` has been cut into two of these names. */
  function Renamed(kids: seq<Entry<Node>>, i: nat, names: (Key, Key)): seq<Entry<Spot>>
    requires i < |kids|
  {
    var s := Spots(kids);
    Place(Sorting, Place(Sorting, s[..i] + s[i + 1..], names.0, Left), names.1, Right)
  }

  function Halved<T>(s: seq<Entry<T>>, most: nat): Option<(Key, Key)>
    requires most >= 1
  {
    if |s| <= most then None else Some((s[0].key, s[|s| / 2].key))
  }

  /** The names of the halves, if inserting `k` cuts the node. Only names and sizes matter. */
  function Cut(node: Node, k: Key, most: nat): Option<(Key, Key)>
    requires most >= 1
    decreases node
  {
    match node
    case Leaf(items) => Halved(Place(Sorting, items, k, ""), most)
    case Inner(kids) =>
      if kids == [] then None
      else
        match Cut(Chosen(kids, k).value, k, most)
        case None => Halved(kids, most)
        case Some(names) => Halved(Renamed(kids, Index(kids, k, 0), names), most)
  }

  /** Where `x` is among the children, once child `i` has been cut. */
  function Home(kids: seq<Entry<Node>>, i: nat, names: (Key, Key), x: Key): Spot
    requires i < |kids|
  {
    var j := Index(kids, x, 0);
    if j != i then Old(j) else if x < names.1 then Left else Right
  }

  /**
   Inserting `k` makes the search for `x` go astray: in some node on the path of `k`, the child on the
   path is cut, and under the new names `x` is looked for where it is not.
   */
  predicate Misrouted(node: Node, k: Key, most: nat, x: Key)
    requires most >= 1
    decreases node
  {
    node.Inner? && node.kids != [] &&
    var kids := node.kids;
    var i := Index(kids, k, 0);
    assert kids[i].value < kids[i];
    || (Index(kids, x, 0) == i && Misrouted(kids[i].value, k, most, x))
    || (match Cut(kids[i].value, k, most)
        case None => false
        case Some(names) => Chosen(Renamed(kids, i, names), x).value != Home(kids, i, names, x))
  }

  // ---- listings with the same keys ----

  /** Same keys, and values that `rel` relates. */
  predicate Related<T, U>(rel: (T, U) -> bool, s: seq<Entry<T>>, t: seq<Entry<U>>)
  {
    |s| == |t| && forall p | 0 <= p < |s| :: s[p].key == t[p].key && rel(s[p].value, t[p].value)
  }

  lemma RelatedCons<T, U>(rel: (T, U) -> bool, s: seq<Entry<T>>, t: seq<Entry<U>>, d: Entry<T>, e: Entry<U>)
    requires d.key == e.key && rel(d.value, e.value)
    ensures Related(rel, s, t) ==> Related(rel, [d] + s, [e] + t)
  {
  }

  lemma RelatedTail<T, U>(rel: (T, U) -> bool, s: seq<Entry<T>>, t: seq<Entry<U>>)
    requires Related(rel, s, t) && s != []
    ensures Related(rel, s[1..], t[1..])
  {
  }

  lemma {:induction false} WithoutRelated<T, U>(rel: (T, U) -> bool, s: seq<Entry<T>>, t: seq<Entry<U>>, k: Key)
    requires Related(rel, s, t)
    ensures Related(rel, Without(s, k), Without(t, k))
  {
    if s != [] {
      RelatedTail(rel, s, t);
      WithoutRelated(rel, s[1..], t[1..], k);
      RelatedCons(rel, Without(s[1..], k), Without(t[1..], k), s[0], t[0]);
    }
  }

  lemma {:induction false} SinkRelated<T, U>(rank: Rank, rel: (T, U) -> bool, s: seq<Entry<T>>, t: seq<Entry<U>>, d: Entry<T>, e: Entry<U>)
    requires Related(rel, s, t) && d.key == e.key && rel(d.value, e.value)
    ensures Related(rel, Sink(rank, s, d), Sink(rank, t, e))
  {
    if s == [] || rank(d.key) < rank(s[0].key) {
      RelatedCons(rel, s, t, d, e);
    } else {
      RelatedTail(rel, s, t);
      SinkRelated(rank, rel, s[1..], t[1..], d, e);
      RelatedCons(rel, Sink(rank, s[1..], d), Sink(rank, t[1..], e), s[0], t[0]);
    }
  }

  lemma PlaceRelated<T, U>(rank: Rank, rel: (T, U) -> bool, s: seq<Entry<T>>, t: seq<Entry<U>>, k: Key, v: T, w: U)
    requires Related(rel, s, t) && rel(v, w)
    ensures Related(rel, Place(rank, s, k, v), Place(rank, t, k, w))
  {
    WithoutRelated(rel, s, t, k);
    SinkRelated(rank, rel, Without(s, k), Without(t, k), Entry(k, v), Entry(k, w));
  }

  lemma {:induction false} IndexRelated<T, U>(rel: (T, U) -> bool, s: seq<Entry<T>>, t: seq<Entry<U>>, x: Key, i: nat)
    requires Related(rel, s, t) && i < |s|
    ensures Index(s, x, i) == Index(t, x, i)
    decreases |s| - i
  {
    if i + 1 < |s| && !(x < s[i + 1].key) { IndexRelated(rel, s, t, x, i + 1); }
  }

  lemma HalvedRelated<T, U>(rel: (T, U) -> bool, s: seq<Entry<T>>, t: seq<Entry<U>>, most: nat)
    requires Related(rel, s, t) && most >= 1
    ensures Halved(s, most) == Halved(t, most)
  {
  }

  // ---- the names are those of the insertion ----

  /** `n` is what stands at the spot. */
  predicate StandsAt(kids: seq<Entry<Node>>, l: Node, r: Node, n: Node, spot: Spot)
  {
    match spot
    case Old(m) => m < |kids| && n == kids[m].value
    case Left => n == l
    case Right => n == r
  }

  function Stands(kids: seq<Entry<Node>>, l: Node, r: Node): (Node, Spot) -> bool
  {
    (n: Node, spot: Spot) => StandsAt(kids, l, r, n, spot)
  }

  /** After the cut, the children stand where the names say. */
  lemma RefittedSpots(kids: seq<Entry<Node>>, i: nat, l: Node, r: Node)
    requires i < |kids|
    ensures Related(Stands(kids, l, r), Refitted(Sorting, kids, i, Halves(l, r)), Renamed(kids, i, (FirstName(l), FirstName(r))))
  {
    var rel, s := Stands(kids, l, r), Spots(kids);
    var rest, spots := kids[..i] + kids[i + 1..], s[..i] + s[i + 1..];
    forall p | 0 <= p < |rest| ensures rest[p].key == spots[p].key && rel(rest[p].value, spots[p].value) {
      assert rest[p] == kids[Was(i, p)] && spots[p] == s[Was(i, p)];
    }
    PlaceRelated(Sorting, rel, rest, spots, FirstName(l), l, Left);
    PlaceRelated(Sorting, rel, Place(Sorting, rest, FirstName(l), l), Place(Sorting, spots, FirstName(l), Left), FirstName(r), r, Right);
  }

  predicate SameNames(o: Outcome, names: Option<(Key, Key)>)
  {
    match o
    case Whole(_) => names == None
    case Halves(l, r) => Size(l) > 0 && Size(r) > 0 && names == Some((FirstName(l), FirstName(r)))
  }

  lemma DivideNames(node: Node, most: nat)
    requires most >= 1
    ensures SameNames(Divide(node, most), if node.Leaf? then Halved(node.items, most) else Halved(node.kids, most))
  {
  }

  function Any(a: string, b: string): bool { true }

  function AnyNode(a: Node, b: Node): bool { true }

  lemma CutOfInner(kids: seq<Entry<Node>>, i: nat, o: Outcome, most: nat, names: Option<(Key, Key)>)
    requires most >= 1 && Sorted(kids) && i < |kids| && SameNames(o, names)
    ensures SameNames(Divide(Inner(Refitted(Sorting, kids, i, o)), most),
                      if names.None? then Halved(kids, most) else Halved(Renamed(kids, i, names.value), most))
  {
    var s := Refitted(Sorting, kids, i, o);
    DivideNames(Inner(s), most);
    match o
    case Whole(n) =>
      PlaceThere(Sorting, kids, i, n);
      HalvedRelated(AnyNode, s, kids, most);
    case Halves(l, r) =>
      RefittedSpots(kids, i, l, r);
      HalvedRelated(Stands(kids, l, r), s, Renamed(kids, i, names.value), most);
  }

  /** `Cut` tells whether an insertion cuts the node, and under which names. */
  lemma {:induction false} CutIs(node: Node, k: Key, v: string, most: nat, lo: Option<Key>, hi: Option<Key>)
    requires most >= 1 && Shaped(node, lo, hi)
    ensures SameNames(Insert(Sorting, most, node, k, v), Cut(node, k, most))
    decreases node
  {
    match node
    case Leaf(items) =>
      PlaceRelated(Sorting, Any, items, items, k, v, "");
      HalvedRelated(Any, Place(Sorting, items, k, v), Place(Sorting, items, k, ""), most);
      DivideNames(Leaf(Place(Sorting, items, k, v)), most);
    case Inner(kids) =>
      var i := Index(kids, k, 0);
      assert kids[i] in kids && kids[i].value < kids[i];
      CutIs(kids[i].value, k, v, most, Low(kids, i, lo), High(kids, i, hi));
      CutOfInner(kids, i, Insert(Sorting, most, kids[i].value, k, v), most, Cut(kids[i].value, k, most));
  }

  // ---- where a search leads ----

  /** The entry chosen has the largest name that is not too large, or the first one if all are. */
  lemma ChosenProps<T>(s: seq<Entry<T>>, x: Key)
    requires Sorted(s) && s != []
    ensures var e := Chosen(s, x);
            && (forall f | f in s && f.key <= x :: f.key <= e.key)
            && (e.key > x ==> forall f | f in s :: e.key <= f.key)
  {
    var i := Index(s, x, 0);
    IndexProps(s, x, 0);
    forall f | f in s && f.key <= x ensures f.key <= s[i].key {
      var j :| 0 <= j < |s| && s[j] == f;
      if i + 1 < |s| { KeysRise(s, i + 1, j); }
      KeysRise(s, j, i);
    }
    if s[i].key > x {
      forall f | f in s ensures s[i].key <= f.key {
        var j :| 0 <= j < |s| && s[j] == f;
      }
    }
  }

  lemma IndexUnique<T>(s: seq<Entry<T>>, k: Key, j: nat)
    requires Sorted(s) && j < |s| && (j == 0 || s[j].key <= k) && (j + 1 < |s| ==> k < s[j + 1].key)
    ensures Index(s, k, 0) == j
  {
    IndexProps(s, k, 0);
  }

  /** What the search finds in an outcome, as the parent will ask for it. */
  function Found(o: Outcome, x: Key): Option<string>
  {
    match o
    case Whole(n) => Get(n, x)
    case Halves(l, r) => Get(if x < FirstName(r) then l else r, x)
  }

  lemma FrontIndex<T>(s: seq<Entry<T>>, mid: nat, x: Key)
    requires Sorted(s) && 0 < mid < |s|
    ensures x < s[mid].key ==> Chosen(s[..mid], x) == Chosen(s, x)
    ensures !(x < s[mid].key) ==> Chosen(s[mid..], x) == Chosen(s, x)
  {
    IndexProps(s, x, 0);
    var j := Index(s, x, 0);
    if x < s[mid].key {
      assert j < mid;
      IndexUnique(s[..mid], x, j);
    } else {
      if j + 1 < |s| { KeysRise(s, j + 1, mid); }
      assert s[mid..][j - mid] == s[j];
      if j + 1 < |s| { assert s[mid..][j - mid + 1] == s[j + 1]; }
      IndexUnique(s[mid..], x, j - mid);
    }
  }

  /** Cutting a sorted node does not change what is found in it. */
  lemma DivideFound(node: Node, most: nat, x: Key)
    requires most >= 1 && Size(node) > 0 && if node.Leaf? then Sorted(node.items) else Sorted(node.kids)
    ensures Found(Divide(node, most), x) == Get(node, x)
  {
    if Size(node) > most {
      var mid := Size(node) / 2;
      if node.Inner? {
        FrontIndex(node.kids, mid, x);
      } else {
        var l, r := node.items[..mid], node.items[mid..];
        assert l + r == node.items;
        LookupConcat(l, r, x);
        if x < node.items[mid].key {
          forall p | 0 <= p < |r| ensures r[p].key != x { assert r[p] == node.items[mid + p]; }
          LookupNone(r, x);
        } else {
          LookupNone(l, x);
        }
      }
    }
  }

  // ---- nothing is found that is not there ----

  lemma {:induction false} LookupHas(s: seq<Entry<string>>, x: Key)
    ensures Lookup(s, x).Some? ==> HasKey(s, x)
  {
    if s != [] && s[0].key != x {
      LookupHas(s[1..], x);
      if Lookup(s, x).Some? {
        var i :| 0 <= i < |s[1..]| && s[1..][i].key == x;
        assert s[i + 1].key == x;
      }
    } else if s != [] {
      assert s[0].key == x;
    }
  }

  lemma KidItems(kids: seq<Entry<Node>>, e: Entry<Node>, x: Key)
    requires e in kids && HasKey(Items(e.value), x)
    ensures HasKey(Concat(kids), x)
  {
    var i :| 0 <= i < |kids| && kids[i] == e;
    ConcatAt(kids, i);
    var a, b, c := Concat(kids[..i]), Items(e.value), Concat(kids[i + 1..]);
    var j :| 0 <= j < |b| && b[j].key == x;
    assert (a + b + c)[|a| + j] == b[j];
  }

  lemma {:induction false} ItemsKid(kids: seq<Entry<Node>>, x: Key) returns (e: Entry<Node>)
    requires HasKey(Concat(kids), x)
    ensures e in kids && HasKey(Items(e.value), x)
  {
    var j :| 0 <= j < |Concat(kids)| && Concat(kids)[j].key == x;
    var first := Items(kids[0].value);
    assert Concat(kids) == first + Concat(kids[1..]);
    if j < |first| {
      assert first[j].key == x;
      e := kids[0];
    } else {
      assert Concat(kids[1..])[j - |first|].key == x;
      e := ItemsKid(kids[1..], x);
    }
  }

  lemma {:induction false} GetHas(node: Node, x: Key)
    requires Get(node, x).Some?
    ensures HasKey(Items(node), x)
    decreases node
  {
    match node
    case Leaf(items) => LookupHas(items, x);
    case Inner(kids) =>
      var e := Chosen(kids, x);
      GetHas(e.value, x);
      KidItems(kids, e, x);
  }

  ghost predicate OutcomeItem(o: Outcome, x: Key)
  {
    match o
    case Whole(n) => HasKey(Items(n), x)
    case Halves(l, r) => HasKey(Items(l), x) || HasKey(Items(r), x)
  }

  lemma DivideItem(node: Node, most: nat, x: Key)
    requires OutcomeItem(Divide(node, most), x)
    ensures HasKey(Items(node), x)
  {
    var o := Divide(node, most);
    if o.Halves? {
      if node.Leaf? {
        var s := if HasKey(Items(o.left), x) then o.left.items else o.right.items;
        var j :| 0 <= j < |s| && s[j].key == x;
        assert s[j] in node.items;
      } else {
        var e := ItemsKid(if HasKey(Items(o.left), x) then o.left.kids else o.right.kids, x);
        KidItems(node.kids, e, x);
      }
    }
  }

  /** An insertion adds no other key. */
  lemma {:induction false} InsertItem(rank: Rank, most: nat, node: Node, k: Key, v: string, x: Key)
    requires OutcomeItem(Insert(rank, most, node, k, v), x)
    ensures x == k || HasKey(Items(node), x)
    decreases node
  {
    match node
    case Leaf(items) =>
      var p := Place(rank, items, k, v);
      DivideItem(Leaf(p), most, x);
      var j :| 0 <= j < |p| && p[j].key == x;
      PlaceMembers(rank, items, k, v, p[j]);
    case Inner(kids) =>
      if kids != [] {
        var i := Index(kids, k, 0);
        assert kids[i] in kids && kids[i].value < kids[i];
        var o := Insert(rank, most, kids[i].value, k, v);
        var s := Refitted(rank, kids, i, o);
        DivideItem(Inner(s), most, x);
        var e := ItemsKid(s, x);
        RefittedEntry(rank, kids, i, o, e);
        if e in kids {
          KidItems(kids, e, x);
        } else {
          assert OutcomeItem(o, x);
          InsertItem(rank, most, kids[i].value, k, v, x);
          if x != k { KidItems(kids, kids[i], x); }
        }
      }
  }

  lemma OutOfBounds(items: seq<Entry<string>>, lo: Option<Key>, hi: Option<Key>, x: Key)
    requires AllWithin(items, lo, hi) && !Within(x, lo, hi)
    ensures !HasKey(items, x)
  {
  }

  /** A key that is looked for in one child is in no other. */
  lemma ElsewhereNone(kids: seq<Entry<Node>>, lo: Option<Key>, hi: Option<Key>, m: nat, x: Key)
    requires Shaped(Inner(kids), lo, hi) && Within(x, lo, hi) && m < |kids| && m != Index(kids, x, 0)
    ensures !HasKey(Items(kids[m].value), x)
  {
    var j := Index(kids, x, 0);
    IndexProps(kids, x, 0);
    if m < j { KeysRise(kids, m + 1, j); } else { KeysRise(kids, j + 1, m); }
    assert !Within(x, Low(kids, m, lo), High(kids, m, hi));
    ItemsShaped(kids[m].value, Low(kids, m, lo), High(kids, m, hi));
    OutOfBounds(Items(kids[m].value), Low(kids, m, lo), High(kids, m, hi), x);
  }

  // ---- the names after a cut ----

  lemma SpotsSorted(kids: seq<Entry<Node>>, i: nat, names: (Key, Key))
    requires Sorted(kids) && i < |kids|
    ensures Sorted(Renamed(kids, i, names)) && Renamed(kids, i, names) != []
  {
    var s := Spots(kids);
    var rest := s[..i] + s[i + 1..];
    PlaceSorted(Sorting, rest, names.0, Left);
    PlaceSorted(Sorting, Place(Sorting, rest, names.0, Left), names.1, Right);
  }

  lemma RenamedMembers(kids: seq<Entry<Node>>, i: nat, names: (Key, Key), e: Entry<Spot>)
    requires i < |kids|
    ensures e in Renamed(kids, i, names) <==>
            || e == Entry(names.1, Right)
            || (e == Entry(names.0, Left) && names.0 != names.1)
            || (e.key != names.0 && e.key != names.1 && e.value.Old? && e.value.index < |kids| && e.value.index != i && e.key == kids[e.value.index].key)
  {
    var s := Spots(kids);
    var rest := s[..i] + s[i + 1..];
    PlaceMembers(Sorting, Place(Sorting, rest, names.0, Left), names.1, Right, e);
    PlaceMembers(Sorting, rest, names.0, Left, e);
    if e in rest {
      var p :| 0 <= p < |rest| && rest[p] == e;
      assert e == s[Was(i, p)];
    }
    if e.value.Old? && e.value.index < |kids| && e.value.index != i && e.key == kids[e.value.index].key {
      var m := e.value.index;
      assert e == s[m];
      assert m < i ==> s[..i][m] == e;
      assert m > i ==> s[i + 1..][m - i - 1] == e;
    }
  }

  /** A half is never looked for in the other. */
  lemma RightHalf(kids: seq<Entry<Node>>, i: nat, names: (Key, Key), x: Key)
    requires Sorted(kids) && i < |kids| && names.0 < names.1
    ensures Chosen(Renamed(kids, i, names), x).value == Left ==> x < names.1
    ensures Chosen(Renamed(kids, i, names), x).value == Right ==> names.1 <= x
    ensures Chosen(Renamed(kids, i, names), x).value.Old? ==> Chosen(Renamed(kids, i, names), x).value.index < |kids|
    ensures Chosen(Renamed(kids, i, names), x).value != Old(i)
  {
    var t := Renamed(kids, i, names);
    SpotsSorted(kids, i, names);
    ChosenProps(t, x);
    RenamedMembers(kids, i, names, Chosen(t, x));
    RenamedMembers(kids, i, names, Entry(names.0, Left));
    RenamedMembers(kids, i, names, Entry(names.1, Right));
  }

  // ---- what an insertion does to every key ----

  /** What should be found after `k` was set to `v`. */
  function Wanted(node: Node, k: Key, v: string, x: Key): Option<string> { if x == k then Some(v) else Get(node, x) }

  lemma GetInner(kids: seq<Entry<Node>>, x: Key)
    requires kids != []
    ensures Get(Inner(kids), x) == Get(Chosen(kids, x).value, x)
  {
  }

  /** After a child has been replaced. */
  lemma WholeGets(kids: seq<Entry<Node>>, i: nat, n: Node, x: Key)
    requires Sorted(kids) && i < |kids|
    ensures Get(Inner(Refitted(Sorting, kids, i, Whole(n))), x)
            == if Index(kids, x, 0) == i then Get(n, x) else Get(Inner(kids), x)
  {
    var s := Refitted(Sorting, kids, i, Whole(n));
    PlaceThere(Sorting, kids, i, n);
    IndexRelated(AnyNode, s, kids, x, 0);
  }

  /** After a child has been cut: the search finds what it should if the names lead it home, and else nothing. */
  lemma HalvesGet(kids: seq<Entry<Node>>, lo: Option<Key>, hi: Option<Key>, i: nat, l: Node, r: Node, k: Key, x: Key)
    requires Shaped(Inner(kids), lo, hi) && Within(k, lo, hi) && Within(x, lo, hi) && i == Index(kids, k, 0)
    requires FirstName(l) < FirstName(r)
    requires Brought(kids, i, l, r, k)
    ensures var names := (FirstName(l), FirstName(r));
            Get(Inner(Refitted(Sorting, kids, i, Halves(l, r))), x)
            == if Chosen(Renamed(kids, i, names), x).value != Home(kids, i, names, x) then None
               else if Index(kids, x, 0) == i then Found(Halves(l, r), x) else Get(Inner(kids), x)
  {
    var names, s, j := (FirstName(l), FirstName(r)), Refitted(Sorting, kids, i, Halves(l, r)), Index(kids, x, 0);
    var t, rel := Renamed(kids, i, names), Stands(kids, l, r);
    RefittedSpots(kids, i, l, r);
    SpotsSorted(kids, i, names);
    IndexRelated(rel, s, t, x, 0);
    RightHalf(kids, i, names, x);
    GetInner(s, x);
    var n, spot := Chosen(s, x).value, Chosen(t, x).value;
    assert rel(n, spot);
    if spot != Home(kids, i, names, x) && Get(n, x).Some? {
      GetHas(n, x);
      if spot.Old? {
        ElsewhereNone(kids, lo, hi, spot.index, x);
      } else {
        ElsewhereNone(kids, lo, hi, i, x);
      }
      assert false;
    }
  }

  lemma CutOrder(node: Node, k: Key, most: nat, lo: Option<Key>, hi: Option<Key>)
    requires most >= 1 && Shaped(node, lo, hi)
    ensures Cut(node, k, most).Some? ==> Cut(node, k, most).value.0 < Cut(node, k, most).value.1
  {
    match node
    case Leaf(items) => PlaceSorted(Sorting, items, k, "");
    case Inner(kids) =>
      var kid := Chosen(kids, k).value;
      if Cut(kid, k, most).Some? { SpotsSorted(kids, Index(kids, k, 0), Cut(kid, k, most).value); }
  }

  /** An insertion below any shaped node: exactly the keys that go astray are not found, all others as they should be. */
  lemma {:induction false} InsertGets(most: nat, node: Node, lo: Option<Key>, hi: Option<Key>, k: Key, v: string, x: Key)
    requires most >= 1 && Shaped(node, lo, hi) && Within(k, lo, hi) && Within(x, lo, hi)
    ensures Found(Insert(Sorting, most, node, k, v), x) == if Misrouted(node, k, most, x) then None else Wanted(node, k, v, x)
    decreases node
  {
    match node
    case Leaf(items) =>
      PlaceSorted(Sorting, items, k, v);
      DivideFound(Leaf(Place(Sorting, items, k, v)), most, x);
    case Inner(kids) =>
      var i, j := Index(kids, k, 0), Index(kids, x, 0);
      var kid := kids[i].value;
      assert kids[i] in kids && kid < kids[i];
      var o := Insert(Sorting, most, kid, k, v);
      Around(kids, lo, hi, k);
      Around(kids, lo, hi, x);
      if j == i { InsertGets(most, kid, Low(kids, i, lo), High(kids, i, hi), k, v, x); }
      CutIs(kid, k, v, most, Low(kids, i, lo), High(kids, i, hi));
      CutOrder(kid, k, most, Low(kids, i, lo), High(kids, i, hi));
      RefittedFound(most, kids, lo, hi, i, o, k, v, x);
  }

  lemma RefittedFound(most: nat, kids: seq<Entry<Node>>, lo: Option<Key>, hi: Option<Key>, i: nat, o: Outcome, k: Key, v: string, x: Key)
    requires most >= 1 && Shaped(Inner(kids), lo, hi) && Within(k, lo, hi) && Within(x, lo, hi) && i == Index(kids, k, 0)
    requires o == Insert(Sorting, most, kids[i].value, k, v) && SameNames(o, Cut(kids[i].value, k, most))
    requires Index(kids, x, 0) == i ==>
               Found(o, x) == if Misrouted(kids[i].value, k, most, x) then None else Wanted(kids[i].value, k, v, x)
    requires o.Halves? ==> FirstName(o.left) < FirstName(o.right)
    ensures Found(Insert(Sorting, most, Inner(kids), k, v), x)
            == if Misrouted(Inner(kids), k, most, x) then None else Wanted(Inner(kids), k, v, x)
  {
    var s := Refitted(Sorting, kids, i, o);
    RefittedSorted(kids, i, o);
    DivideFound(Inner(s), most, x);
    match o
    case Whole(n) => WholeGets(kids, i, n, x);
    case Halves(l, r) =>
      forall y | HasKey(Items(l), y) || HasKey(Items(r), y) ensures y == k || HasKey(Items(kids[i].value), y) {
        InsertItem(Sorting, most, kids[i].value, k, v, y);
      }
      HalvesGet(kids, lo, hi, i, l, r, k, x);
  }

  lemma RefittedSorted(kids: seq<Entry<Node>>, i: nat, o: Outcome)
    requires Sorted(kids) && i < |kids|
    ensures Sorted(Refitted(Sorting, kids, i, o)) && Refitted(Sorting, kids, i, o) != []
  {
    match o
    case Whole(n) => PlaceSorted(Sorting, kids, kids[i].key, n);
    case Halves(l, r) =>
      var rest := kids[..i] + kids[i + 1..];
      PlaceSorted(Sorting, rest, FirstName(l), l);
      PlaceSorted(Sorting, Place(Sorting, rest, FirstName(l), l), FirstName(r), r);
  }

  /**
   Inserting into any tree that can be searched, however it came about: a key is lost exactly when
   the insertion makes its search go astray, which the names and sizes of the tree decide beforehand;
   every other key is found as before, and the inserted one has its value.
   */
  lemma PutLosesIff(rank: Rank, most: nat, root: Node, k: Key, v: string, x: Key)
    requires most >= 1 && Shaped(root, None, None) && AgreeAt(rank, root, k)
    ensures Get(Put(rank, most, Some(root), k, v), x)
            == if Get(root, k) != Some(v) && Misrouted(root, k, most, x) then None else Wanted(root, k, v, x)
  {
    PutSame(rank, most, root, k, v);
    if Get(root, k) != Some(v) {
      InsertGets(most, root, None, None, k, v, x);
      CutIs(root, k, v, most, None, None);
      CutOrder(root, k, most, None, None);
      var o := Insert(Sorting, most, root, k, v);
      if o.Halves? { GrownTwo(o.left, o.right); }
    }
  }

  lemma GrownTwo(l: Node, r: Node)
    requires FirstName(l) < FirstName(r)
    ensures Grown(Sorting, Halves(l, r)) == Inner([Entry(FirstName(l), l), Entry(FirstName(r), r)])
  {
    PlaceInOne(Sorting, Entry(FirstName(l), l), FirstName(l), l);
    PlaceInOne(Sorting, Entry(FirstName(l), l), FirstName(r), r);
  }

  /** No key of the tree goes astray, nor does the new one. */
  ghost predicate Safe(root: Node, k: Key, most: nat)
    requires most >= 1
  {
    forall x | x == k || Get(root, x).Some? :: !Misrouted(root, k, most, x)
  }

  /** The new key is found, and every other key as before, exactly when nothing is to be done or the insertion is safe. */
  lemma PutKeepsAllIff(rank: Rank, most: nat, root: Node, k: Key, v: string)
    requires most >= 1 && Shaped(root, None, None) && AgreeAt(rank, root, k)
    ensures (forall x :: Get(Put(rank, most, Some(root), k, v), x) == Wanted(root, k, v, x))
            <==> Get(root, k) == Some(v) || Safe(root, k, most)
  {
    forall x ensures Get(Put(rank, most, Some(root), k, v), x)
                     == if Get(root, k) != Some(v) && Misrouted(root, k, most, x) then None else Wanted(root, k, v, x)
    {
      PutLosesIff(rank, most, root, k, v, x);
    }
    if Get(root, k) != Some(v) && !Safe(root, k, most) {
      var x :| (x == k || Get(root, x).Some?) && Misrouted(root, k, most, x);
      assert Get(Put(rank, most, Some(root), k, v), x) == None;
    }
  }

  /** Trees made by insertions alone are safe. */
  lemma InsertionsAreSafe(most: nat, root: Node, k: Key, v: string)
    requires most >= 1 && Inv(root, None, None)
    ensures Get(root, k) == Some(v) || Safe(root, k, most)
  {
    forall x ensures Get(Put(Sorting, most, Some(root), k, v), x) == Wanted(root, k, v, x) {
      GetAfterPut(Sorting, most, root, k, v, x);
    }
    PutKeepsAllIff(Sorting, most, root, k, v);
  }

  /**
   What going astray comes to in one node, when the halves of child `i` get names within its bounds:
   exactly the keys of that child below the name of its left half are lost, unless it is the first.
   */
  lemma AstrayIff(kids: seq<Entry<Node>>, i: nat, names: (Key, Key), x: Key)
    requires Sorted(kids) && i < |kids| && names.0 < names.1
    requires (i > 0 ==> kids[i].key <= names.0) && (i + 1 < |kids| ==> names.1 < kids[i + 1].key)
    ensures Chosen(Renamed(kids, i, names), x).value != Home(kids, i, names, x)
            <==> i > 0 && Index(kids, x, 0) == i && x < names.0
  {
    var t, j := Renamed(kids, i, names), Index(kids, x, 0);
    IndexProps(kids, x, 0);
    SpotsSorted(kids, i, names);
    var e := if j != i then Entry(kids[j].key, Old(j))
             else if names.1 <= x then Entry(names.1, Right)
             else if i == 0 || names.0 <= x then Entry(names.0, Left) else Entry(kids[i - 1].key, Old(i - 1));
    RenamedMembers(kids, i, names, e);
    assert e in t by {
      if e.value.Old? { assert e.value.index < i ==> kids[e.value.index].key < kids[i].key; }
      if e.value.Old? && e.value.index > i { assert kids[i + 1].key <= kids[e.value.index].key; }
    }
    forall f | f in t ensures (f.key <= x ==> f.key <= e.key) && (e.key > x ==> e.key <= f.key) {
      RenamedMembers(kids, i, names, f);
      if f.value.Old? { OldName(kids, f.value.index, i, j, x); }
    }
    ChosenIs(t, x, e);
  }

  lemma OldName(kids: seq<Entry<Node>>, m: nat, i: nat, j: nat, x: Key)
    requires Sorted(kids) && m < |kids| && m != i && i < |kids| && j == Index(kids, x, 0)
    ensures kids[m].key <= x ==> m <= j
    ensures m < i ==> kids[m].key < kids[i].key && kids[m].key <= kids[i - 1].key
    ensures m > i ==> kids[i + 1].key <= kids[m].key
    ensures m < j ==> kids[m].key < kids[j].key
    ensures m > j ==> kids[j].key < kids[m].key && x < kids[m].key
  {
    IndexProps(kids, x, 0);
    if m > j { assert kids[j + 1].key <= kids[m].key; }
  }

  lemma ChosenIs<T>(s: seq<Entry<T>>, x: Key, e: Entry<T>)
    requires Sorted(s) && e in s
    requires forall f | f in s :: (f.key <= x ==> f.key <= e.key) && (e.key > x ==> e.key <= f.key)
    ensures Chosen(s, x) == e
  {
    ChosenProps(s, x);
    var c := Chosen(s, x);
    assert c.key == e.key;
    var i :| 0 <= i < |s| && s[i] == e;
    var j :| 0 <= j < |s| && s[j] == c;
    KeysRise(s, i, j);
    KeysRise(s, j, i);
  }

  // ---- names within bounds ----

  /** No first child is named below the bound of its node. */
  predicate InBounds(node: Node, lo: Option<Key>)
    decreases node
  {
    node.Inner? && node.kids != [] ==>
      && (lo.Some? ==> lo.value <= node.kids[0].key)
      && forall i | 0 <= i < |node.kids| :: (assert node.kids[i].value < node.kids[i]; InBounds(node.kids[i].value, Low(node.kids, i, lo)))
  }

  /** In trees made by insertions all names are. */
  lemma {:induction false} InsertedInBounds(node: Node, lo: Option<Key>, hi: Option<Key>)
    requires Inv(node, lo, hi)
    ensures InBounds(node, lo)
    decreases node
  {
    if node.Inner? {
      var kids := node.kids;
      forall i | 0 <= i < |kids| ensures InBounds(kids[i].value, Low(kids, i, lo)) {
        assert kids[i] in kids && kids[i].value < kids[i];
        InsertedInBounds(kids[i].value, Low(kids, i, lo), High(kids, i, hi));
      }
    }
  }

  lemma {:induction false} LowerBound(node: Node, lo: Option<Key>, lo': Option<Key>)
    requires InBounds(node, lo) && Wider(lo, None, lo', None)
    ensures InBounds(node, lo')
    decreases node
  {
    if node.Inner? {
      var kids := node.kids;
      forall i | 0 <= i < |kids| ensures InBounds(kids[i].value, Low(kids, i, lo')) {
        assert kids[i] in kids && kids[i].value < kids[i];
        LowerBound(kids[i].value, Low(kids, i, lo), Low(kids, i, lo'));
      }
    }
  }

  lemma RestInBounds(kids: seq<Entry<Node>>, i: nat, lo: Option<Key>, hi: Option<Key>)
    requires Shaped(Inner(kids), lo, hi) && InBounds(Inner(kids), lo) && i < |kids|
    ensures var rest := kids[..i] + kids[i + 1..];
            InBounds(Inner(rest), lo) && (|rest| == 1 ==> InBounds(rest[0].value, lo))
  {
    var rest := kids[..i] + kids[i + 1..];
    forall j | 0 <= j < |rest| ensures InBounds(rest[j].value, Low(rest, j, lo)) && (lo.Some? ==> lo.value <= rest[j].key) {
      RestAt(kids, i, j);
      if Was(i, j) > 0 { KeysInOrder(kids, Was(i, j), Was(i, j), lo, hi); }
      LowerBound(rest[j].value, Low(kids, Was(i, j), lo), Low(rest, j, lo));
    }
  }

  /** Deletions keep them there. */
  lemma {:induction false} DeletedInBounds(node: Node, lo: Option<Key>, hi: Option<Key>, k: Key)
    requires Shaped(node, lo, hi) && InBounds(node, lo) && Delete(Sorting, node, k).Some?
    ensures InBounds(Delete(Sorting, node, k).value, lo)
    decreases node
  {
    if node.Inner? && Get(node, k).Some? {
      var kids := node.kids;
      var i := Index(kids, k, 0);
      assert kids[i] in kids && kids[i].value < kids[i];
      var r := Delete(Sorting, kids[i].value, k);
      if r.Some? {
        DeletedInBounds(kids[i].value, Low(kids, i, lo), High(kids, i, hi), k);
        PlaceThere(Sorting, kids, i, r.value);
        KidInBounds(kids, i, r.value, lo);
      } else {
        RestInBounds(kids, i, lo, hi);
      }
    }
  }

  lemma KidInBounds(kids: seq<Entry<Node>>, i: nat, n: Node, lo: Option<Key>)
    requires InBounds(Inner(kids), lo) && i < |kids| && InBounds(n, Low(kids, i, lo))
    ensures InBounds(Inner(kids[i := Entry(kids[i].key, n)]), lo)
  {
    var r := kids[i := Entry(kids[i].key, n)];
    forall j | 0 <= j < |r| ensures InBounds(r[j].value, Low(r, j, lo)) {
      assert j != i ==> r[j] == kids[j];
    }
  }

  /** The names after a cut lie within the bounds, but for the first, which lies above the lower one. */
  lemma RenamedWithin(kids: seq<Entry<Node>>, i: nat, names: (Key, Key), lo: Option<Key>, hi: Option<Key>, p: nat)
    requires Sorted(kids) && i < |kids| && names.0 < names.1 && p < |Renamed(kids, i, names)|
    requires (forall m | 0 < m < |kids| :: Within(kids[m].key, lo, hi)) && (lo.Some? ==> lo.value <= kids[0].key)
    requires Within(names.1, Low(kids, i, lo), High(kids, i, hi)) && (Low(kids, i, lo).Some? ==> Low(kids, i, lo).value <= names.0)
    ensures lo.Some? ==> lo.value <= Renamed(kids, i, names)[p].key
    ensures p > 0 ==> Within(Renamed(kids, i, names)[p].key, lo, hi)
  {
    var t := Renamed(kids, i, names);
    SpotsSorted(kids, i, names);
    RenamedMembers(kids, i, names, t[p]);
    RenamedMembers(kids, i, names, t[0]);
    assert t[p] in t && t[0] in t;
    KeysRise(t, 0, p);
    if i > 0 { KeysRise(kids, 0, i); }
    assert p > 0 ==> t[p].value != Old(0);
  }

  /** There the halves of a cut node are named within its bounds, so `AstrayIff` tells which keys are lost. */
  lemma {:induction false} CutInBounds(node: Node, k: Key, most: nat, lo: Option<Key>, hi: Option<Key>)
    requires most >= 1 && Shaped(node, lo, hi) && InBounds(node, lo) && Within(k, lo, hi)
    ensures Cut(node, k, most).Some? ==>
              var names := Cut(node, k, most).value;
              (lo.Some? ==> lo.value <= names.0) && Within(names.1, lo, hi)
    decreases node
  {
    match node
    case Leaf(items) =>
      var p := Place(Sorting, items, k, "");
      PlaceSorted(Sorting, items, k, "");
      forall j | 0 <= j < |p| ensures Within(p[j].key, lo, hi) { assert p[j] in p; }
    case Inner(kids) =>
      var i := Index(kids, k, 0);
      assert kids[i] in kids && kids[i].value < kids[i];
      Around(kids, lo, hi, k);
      CutInBounds(kids[i].value, k, most, Low(kids, i, lo), High(kids, i, hi));
      CutOrder(kids[i].value, k, most, Low(kids, i, lo), High(kids, i, hi));
      var names := Cut(kids[i].value, k, most);
      if names.Some? && |Renamed(kids, i, names.value)| > most {
        RenamedWithin(kids, i, names.value, lo, hi, 0);
        RenamedWithin(kids, i, names.value, lo, hi, |Renamed(kids, i, names.value)| / 2);
      }
  }

  // ---- the shape after a safe insertion ----

  lemma MiddleWithin(a: seq<Entry<string>>, b: seq<Entry<string>>, c: seq<Entry<string>>, lo: Option<Key>, hi: Option<Key>)
    requires AllWithin(a + b + c, lo, hi)
    ensures AllWithin(b, lo, hi)
  {
    forall j | 0 <= j < |b| ensures Within(b[j].key, lo, hi) {
      assert (a + b + c)[|a| + j] == b[j];
    }
  }

  lemma KidWithin(kids: seq<Entry<Node>>, i: nat, lo: Option<Key>, hi: Option<Key>, lo': Option<Key>, hi': Option<Key>)
    requires Shaped(Inner(kids), lo, hi) && i < |kids| && AllWithin(Concat(kids), lo', hi')
    ensures Items(kids[i].value) != [] && AllWithin(Items(kids[i].value), Low(kids, i, lo'), High(kids, i, hi'))
    ensures AllWithin(Items(kids[i].value), lo', hi')
  {
    var items := Items(kids[i].value);
    ItemsShaped(kids[i].value, Low(kids, i, lo), High(kids, i, hi));
    ConcatAt(kids, i);
    MiddleWithin(Concat(kids[..i]), items, Concat(kids[i + 1..]), lo', hi');
    BothWithin(items, kids, i, lo, hi, lo', hi');
  }

  lemma BothWithin(items: seq<Entry<string>>, kids: seq<Entry<Node>>, i: nat, lo: Option<Key>, hi: Option<Key>, lo': Option<Key>, hi': Option<Key>)
    requires i < |kids| && AllWithin(items, Low(kids, i, lo), High(kids, i, hi)) && AllWithin(items, lo', hi')
    ensures AllWithin(items, Low(kids, i, lo'), High(kids, i, hi'))
  {
  }

  /** No child is empty, so a node has the shape for any bounds that its keys keep. */
  lemma {:induction false} Rebound(node: Node, lo: Option<Key>, hi: Option<Key>, lo': Option<Key>, hi': Option<Key>)
    requires Shaped(node, lo, hi) && AllWithin(Items(node), lo', hi')
    ensures Shaped(node, lo', hi')
    decreases node
  {
    if node.Inner? {
      var kids := node.kids;
      forall i | 0 <= i < |kids| ensures Shaped(kids[i].value, Low(kids, i, lo'), High(kids, i, hi')) {
        assert kids[i] in kids && kids[i].value < kids[i];
        KidWithin(kids, i, lo, hi, lo', hi');
        Rebound(kids[i].value, Low(kids, i, lo), High(kids, i, hi), Low(kids, i, lo'), High(kids, i, hi'));
      }
      forall i | 0 < i < |kids| ensures Within(kids[i].key, lo', hi') {
        KidWithin(kids, i - 1, lo, hi, lo', hi');
        KidWithin(kids, i, lo, hi, lo', hi');
        NameWithin(kids, i, lo', hi', Items(kids[i - 1].value), Items(kids[i].value));
      }
    }
  }

  /** The bounds in which the node at a spot was shaped before. */
  ghost predicate WasShaped(kids: seq<Entry<Node>>, lo: Option<Key>, hi: Option<Key>, i: nat, l: Node, r: Node)
    requires i < |kids|
  {
    && Shaped(Inner(kids), lo, hi) && FirstName(l) < FirstName(r)
    && Shaped(l, Low(kids, i, lo), Some(FirstName(r))) && Shaped(r, Some(FirstName(r)), High(kids, i, hi))
  }

  /** Every key of the children, and `k`, is looked for where it is. */
  ghost predicate AllHome(kids: seq<Entry<Node>>, i: nat, names: (Key, Key), k: Key)
    requires i < |kids|
  {
    forall x | x == k || HasKey(Concat(kids), x) :: Chosen(Renamed(kids, i, names), x).value == Home(kids, i, names, x)
  }

  lemma OldKeys(kids: seq<Entry<Node>>, lo: Option<Key>, hi: Option<Key>, m: nat, y: Key)
    requires Shaped(Inner(kids), lo, hi) && m < |kids| && HasKey(Items(kids[m].value), y)
    ensures HasKey(Concat(kids), y) && Within(y, lo, hi) && Index(kids, y, 0) == m
  {
    KidItems(kids, kids[m], y);
    ConcatShaped(kids, lo, hi);
    if Index(kids, y, 0) != m { ElsewhereNone(kids, lo, hi, m, y); }
  }

  /** The keys of the node at a spot are at home there. */
  lemma SpotKeys(kids: seq<Entry<Node>>, lo: Option<Key>, hi: Option<Key>, i: nat, l: Node, r: Node, k: Key, n: Node, spot: Spot, y: Key)
    requires i < |kids| && i == Index(kids, k, 0) && Within(k, lo, hi) && WasShaped(kids, lo, hi, i, l, r)
    requires Brought(kids, i, l, r, k)
    requires StandsAt(kids, l, r, n, spot) && spot != Old(i) && HasKey(Items(n), y)
    ensures (y == k || HasKey(Concat(kids), y)) && Within(y, lo, hi)
    ensures Home(kids, i, (FirstName(l), FirstName(r)), y) == spot
  {
    match spot
    case Old(m) => OldKeys(kids, lo, hi, m, y);
    case Left =>
      if y != k { OldKeys(kids, lo, hi, i, y); }
      ItemsShaped(l, Low(kids, i, lo), Some(FirstName(r)));
    case Right =>
      if y != k { OldKeys(kids, lo, hi, i, y); }
      ItemsShaped(r, Some(FirstName(r)), High(kids, i, hi));
  }

  lemma SpotUnique(kids: seq<Entry<Node>>, i: nat, names: (Key, Key), e: Entry<Spot>, f: Entry<Spot>)
    requires i < |kids| && e in Renamed(kids, i, names) && f in Renamed(kids, i, names) && e.value == f.value
    ensures e == f
  {
    RenamedMembers(kids, i, names, e);
    RenamedMembers(kids, i, names, f);
  }

  /** A key that the search takes to entry `p` lies between its name and the next. */
  lemma ChosenBounds<T>(t: seq<Entry<T>>, p: nat, y: Key)
    requires Sorted(t) && p < |t| && Chosen(t, y) == t[p]
    ensures (p == 0 || t[p].key <= y) && (p + 1 < |t| ==> y < t[p + 1].key)
  {
    IndexProps(t, y, 0);
    KeysRise(t, p, Index(t, y, 0));
    KeysRise(t, Index(t, y, 0), p);
  }

  /** The node at place `p` keeps to its new bounds. */
  lemma PlaceWithin(kids: seq<Entry<Node>>, lo: Option<Key>, hi: Option<Key>, i: nat, l: Node, r: Node, k: Key, p: nat)
    requires i < |kids| && i == Index(kids, k, 0) && Within(k, lo, hi) && WasShaped(kids, lo, hi, i, l, r)
    requires Brought(kids, i, l, r, k)
    requires AllHome(kids, i, (FirstName(l), FirstName(r)), k) && p < |Refitted(Sorting, kids, i, Halves(l, r))|
    ensures var s := Refitted(Sorting, kids, i, Halves(l, r));
            && Items(s[p].value) != [] && AllWithin(Items(s[p].value), lo, hi)
            && AllWithin(Items(s[p].value), Low(s, p, lo), High(s, p, hi)) && Shaped(s[p].value, Low(s, p, lo), High(s, p, hi))
  {
    var names, s := (FirstName(l), FirstName(r)), Refitted(Sorting, kids, i, Halves(l, r));
    var t, n := Renamed(kids, i, names), s[p].value;
    RefittedSpots(kids, i, l, r);
    SpotsSorted(kids, i, names);
    assert Stands(kids, l, r)(n, t[p].value) && t[p] in t;
    RenamedMembers(kids, i, names, t[p]);
    var items := Items(n);
    forall j | 0 <= j < |items| ensures Within(items[j].key, lo, hi) && Within(items[j].key, Low(s, p, lo), High(s, p, hi)) {
      var y := items[j].key;
      SpotKeys(kids, lo, hi, i, l, r, k, n, t[p].value, y);
      SpotUnique(kids, i, names, Chosen(t, y), t[p]);
      ChosenBounds(t, p, y);
    }
    SpotRebound(kids, lo, hi, i, l, r, n, t[p].value, Low(s, p, lo), High(s, p, hi));
  }

  lemma SpotRebound(kids: seq<Entry<Node>>, lo: Option<Key>, hi: Option<Key>, i: nat, l: Node, r: Node, n: Node, spot: Spot,
                    lo': Option<Key>, hi': Option<Key>)
    requires i < |kids| && WasShaped(kids, lo, hi, i, l, r) && StandsAt(kids, l, r, n, spot) && AllWithin(Items(n), lo', hi')
    ensures Shaped(n, lo', hi') && Items(n) != []
  {
    var a := match spot case Old(m) => Low(kids, m, lo) case Left => Low(kids, i, lo) case Right => Some(FirstName(r));
    var b := match spot case Old(m) => High(kids, m, hi) case Left => Some(FirstName(r)) case Right => High(kids, i, hi);
    assert Shaped(n, a, b);
    ItemsShaped(n, a, b);
    Rebound(n, a, b, lo', hi');
  }

  /** A name between two nodes lies between a key of the one and a key of the other. */
  lemma NameWithin(s: seq<Entry<Node>>, p: nat, lo: Option<Key>, hi: Option<Key>, a: seq<Entry<string>>, b: seq<Entry<string>>)
    requires 0 < p < |s| && a != [] && b != [] && AllWithin(a, lo, hi) && AllWithin(b, lo, hi)
    requires AllWithin(a, Low(s, p - 1, lo), High(s, p - 1, hi)) && AllWithin(b, Low(s, p, lo), High(s, p, hi))
    ensures Within(s[p].key, lo, hi)
  {
    assert Within(a[0].key, lo, hi) && Within(a[0].key, Low(s, p - 1, lo), High(s, p - 1, hi));
    assert Within(b[0].key, lo, hi) && Within(b[0].key, Low(s, p, lo), High(s, p, hi));
  }

  ghost predicate Brought(kids: seq<Entry<Node>>, i: nat, l: Node, r: Node, k: Key)
    requires i < |kids|
  {
    forall x | HasKey(Items(l), x) || HasKey(Items(r), x) :: x == k || HasKey(Items(kids[i].value), x)
  }

  lemma RenamedName(kids: seq<Entry<Node>>, lo: Option<Key>, hi: Option<Key>, i: nat, l: Node, r: Node, k: Key, p: nat)
    requires i < |kids| && i == Index(kids, k, 0) && Within(k, lo, hi) && WasShaped(kids, lo, hi, i, l, r) && Brought(kids, i, l, r, k)
    requires AllHome(kids, i, (FirstName(l), FirstName(r)), k) && 0 < p < |Refitted(Sorting, kids, i, Halves(l, r))|
    ensures Within(Refitted(Sorting, kids, i, Halves(l, r))[p].key, lo, hi)
  {
    var s := Refitted(Sorting, kids, i, Halves(l, r));
    PlaceWithin(kids, lo, hi, i, l, r, k, p - 1);
    PlaceWithin(kids, lo, hi, i, l, r, k, p);
    NameWithin(s, p, lo, hi, Items(s[p - 1].value), Items(s[p].value));
  }

  /** If every key is looked for where it is, the node with the new names has the shape. */
  lemma RenamedShaped(kids: seq<Entry<Node>>, lo: Option<Key>, hi: Option<Key>, i: nat, l: Node, r: Node, k: Key)
    requires i < |kids| && i == Index(kids, k, 0) && Within(k, lo, hi) && WasShaped(kids, lo, hi, i, l, r) && Brought(kids, i, l, r, k)
    requires AllHome(kids, i, (FirstName(l), FirstName(r)), k)
    ensures Shaped(Inner(Refitted(Sorting, kids, i, Halves(l, r))), lo, hi)
  {
    var s := Refitted(Sorting, kids, i, Halves(l, r));
    RefittedSorted(kids, i, Halves(l, r));
    forall p | 0 <= p < |s| ensures Shaped(s[p].value, Low(s, p, lo), High(s, p, hi)) {
      PlaceWithin(kids, lo, hi, i, l, r, k, p);
    }
    forall p | 0 < p < |s| ensures Within(s[p].key, lo, hi) {
      RenamedName(kids, lo, hi, i, l, r, k, p);
    }
    ShapedFromKids(s, lo, hi);
  }

  lemma ShapedFromKids(s: seq<Entry<Node>>, lo: Option<Key>, hi: Option<Key>)
    requires s != [] && Sorted(s) && forall p | 0 < p < |s| :: Within(s[p].key, lo, hi)
    requires forall p | 0 <= p < |s| :: Shaped(s[p].value, Low(s, p, lo), High(s, p, hi))
    ensures Shaped(Inner(s), lo, hi)
  {
  }

  ghost predicate SafeIn(node: Node, k: Key, most: nat)
    requires most >= 1
  {
    forall x | x == k || HasKey(Items(node), x) :: !Misrouted(node, k, most, x)
  }

  ghost predicate OutcomeShaped(o: Outcome, lo: Option<Key>, hi: Option<Key>)
  {
    match o
    case Whole(n) => Shaped(n, lo, hi)
    case Halves(l, r) => Shaped(l, lo, Some(FirstName(r))) && Shaped(r, Some(FirstName(r)), hi)
  }

  lemma DivideShaped(node: Node, most: nat, lo: Option<Key>, hi: Option<Key>)
    requires most >= 1 && Shaped(node, lo, hi)
    ensures OutcomeShaped(Divide(node, most), lo, hi)
  {
    if Size(node) > most && node.Inner? {
      ShapedFront(node.kids, Size(node) / 2, lo, hi);
      ShapedTail(node.kids, Size(node) / 2, lo, hi);
    }
  }

  lemma KidSafe(kids: seq<Entry<Node>>, lo: Option<Key>, hi: Option<Key>, k: Key, most: nat)
    requires most >= 1 && Shaped(Inner(kids), lo, hi) && SafeIn(Inner(kids), k, most)
    ensures SafeIn(kids[Index(kids, k, 0)].value, k, most)
    ensures var names := Cut(kids[Index(kids, k, 0)].value, k, most);
            names.Some? ==> AllHome(kids, Index(kids, k, 0), names.value, k)
  {
    var i := Index(kids, k, 0);
    forall x | x == k || HasKey(Items(kids[i].value), x) ensures !Misrouted(kids[i].value, k, most, x) {
      if x != k { OldKeys(kids, lo, hi, i, x); }
      assert !Misrouted(Inner(kids), k, most, x);
    }
    var names := Cut(kids[i].value, k, most);
    if names.Some? {
      forall x | x == k || HasKey(Concat(kids), x)
        ensures Chosen(Renamed(kids, i, names.value), x).value == Home(kids, i, names.value, x)
      {
        assert !Misrouted(Inner(kids), k, most, x);
      }
    }
  }

  /** A safe insertion leaves a tree that can be searched. */
  lemma {:induction false} InsertShaped(most: nat, node: Node, lo: Option<Key>, hi: Option<Key>, k: Key, v: string)
    requires most >= 1 && Shaped(node, lo, hi) && Within(k, lo, hi) && SafeIn(node, k, most)
    ensures OutcomeShaped(Insert(Sorting, most, node, k, v), lo, hi)
    decreases node
  {
    match node
    case Leaf(items) =>
      var p := Place(Sorting, items, k, v);
      PlaceSorted(Sorting, items, k, v);
      forall j | 0 <= j < |p| ensures Within(p[j].key, lo, hi) { assert p[j] in p; }
      DivideShaped(Leaf(p), most, lo, hi);
    case Inner(kids) =>
      var i := Index(kids, k, 0);
      assert kids[i] in kids && kids[i].value < kids[i];
      var o := Insert(Sorting, most, kids[i].value, k, v);
      Around(kids, lo, hi, k);
      KidSafe(kids, lo, hi, k, most);
      InsertShaped(most, kids[i].value, Low(kids, i, lo), High(kids, i, hi), k, v);
      RefittedShaped(most, kids, lo, hi, i, o, k, v);
      DivideShaped(Inner(Refitted(Sorting, kids, i, o)), most, lo, hi);
  }

  lemma RefittedShaped(most: nat, kids: seq<Entry<Node>>, lo: Option<Key>, hi: Option<Key>, i: nat, o: Outcome, k: Key, v: string)
    requires most >= 1 && Shaped(Inner(kids), lo, hi) && Within(k, lo, hi) && i == Index(kids, k, 0)
    requires o == Insert(Sorting, most, kids[i].value, k, v) && OutcomeShaped(o, Low(kids, i, lo), High(kids, i, hi))
    requires Cut(kids[i].value, k, most).Some? ==> AllHome(kids, i, Cut(kids[i].value, k, most).value, k)
    ensures Shaped(Inner(Refitted(Sorting, kids, i, o)), lo, hi)
  {
    CutIs(kids[i].value, k, v, most, Low(kids, i, lo), High(kids, i, hi));
    CutOrder(kids[i].value, k, most, Low(kids, i, lo), High(kids, i, hi));
    match o
    case Whole(n) =>
      PlaceThere(Sorting, kids, i, n);
      Replaced(kids, i, n, lo, hi);
    case Halves(l, r) =>
      forall y | HasKey(Items(l), y) || HasKey(Items(r), y) ensures y == k || HasKey(Items(kids[i].value), y) {
        InsertItem(Sorting, most, kids[i].value, k, v, y);
      }
      RenamedShaped(kids, lo, hi, i, l, r, k);
  }

  lemma {:induction false} LookupThere(s: seq<Entry<string>>, x: Key)
    requires HasKey(s, x)
    ensures Lookup(s, x).Some?
  {
    if s[0].key != x {
      var i :| 0 <= i < |s| && s[i].key == x;
      assert s[1..][i - 1].key == x;
      LookupThere(s[1..], x);
    }
  }

  /** A safe insertion, or one that changes nothing, keeps the shape. */
  lemma PutKeepsShape(most: nat, root: Node, k: Key, v: string)
    requires most >= 1 && Shaped(root, None, None) && (Get(root, k) == Some(v) || Safe(root, k, most))
    ensures Shaped(Put(Sorting, most, Some(root), k, v), None, None)
  {
    if Get(root, k) != Some(v) {
      forall x | x == k || HasKey(Items(root), x) ensures !Misrouted(root, k, most, x) {
        if x != k {
          LookupThere(Items(root), x);
          GetFinds(root, None, None, x);
        }
      }
      InsertShaped(most, root, None, None, k, v);
      CutIs(root, k, v, most, None, None);
      CutOrder(root, k, most, None, None);
      var o := Insert(Sorting, most, root, k, v);
      if o.Halves? { GrownTwo(o.left, o.right); }
    }
  }

  // ---- runs of changes ----

  datatype Change = Added(key: Key, value: string) | Removed(key: Key)

  function Next(rank: Rank, most: nat, root: Option<Node>, c: Change): Option<Node>
  {
    match c
    case Added(k, v) => Some(Put(rank, most, root, k, v))
    case Removed(k) => if root.None? then None else Delete(rank, root.value, k)
  }

  /** The tree after some changes. */
  function After(rank: Rank, most: nat, root: Option<Node>, changes: seq<Change>): Option<Node>
    decreases |changes|
  {
    if changes == [] then root else After(rank, most, Next(rank, most, root, changes[0]), changes[1..])
  }

  function Update(m: map<Key, string>, c: Change): map<Key, string>
  {
    match c
    case Added(k, v) => m[k := v]
    case Removed(k) => m - {k}
  }

  function Find(root: Option<Node>, x: Key): Option<string> { if root.None? then None else Get(root.value, x) }

  /** The tree finds what the map holds, and nothing else. */
  ghost predicate Exact(root: Option<Node>, m: map<Key, string>)
  {
    forall x :: Find(root, x) == if x in m then Some(m[x]) else None
  }

  /** The tree is exact after each of the changes. */
  ghost predicate StaysExact(rank: Rank, most: nat, root: Option<Node>, m: map<Key, string>, changes: seq<Change>)
    decreases |changes|
  {
    Exact(root, m) &&
    (changes != [] ==> StaysExact(rank, most, Next(rank, most, root, changes[0]), Update(m, changes[0]), changes[1..]))
  }

  ghost predicate SafeChange(most: nat, root: Option<Node>, c: Change)
    requires most >= 1
  {
    c.Removed? || root.None? || Get(root.value, c.key) == Some(c.value) || Safe(root.value, c.key, most)
  }

  /** Every insertion of the run is safe when its turn comes. */
  ghost predicate SafeRun(rank: Rank, most: nat, root: Option<Node>, changes: seq<Change>)
    requires most >= 1
    decreases |changes|
  {
    changes != [] ==>
      SafeChange(most, root, changes[0]) && SafeRun(rank, most, Next(rank, most, root, changes[0]), changes[1..])
  }

  ghost predicate InRun(root: Option<Node>, changes: seq<Change>, x: Key)
  {
    (root.Some? && Has(root.value, x)) || exists i :: 0 <= i < |changes| && changes[i].key == x
  }

  /** The locale sorts the keys of the tree and of the run as `<` does. */
  ghost predicate AgreeRun(rank: Rank, root: Option<Node>, changes: seq<Change>)
  {
    forall a: Key, b: Key | InRun(root, changes, a) && InRun(root, changes, b) && a < b :: rank(a) < rank(b)
  }

  /** Deleting brings no names. */
  lemma {:induction false} DeleteHas(rank: Rank, node: Node, k: Key, x: Key)
    requires Delete(rank, node, k).Some? && Has(Delete(rank, node, k).value, x)
    ensures Has(node, x)
    decreases node
  {
    if Get(node, k).None? { return; }
    match node
    case Leaf(items) =>
      var w := Without(items, k);
      var j :| 0 <= j < |w| && w[j].key == x;
      WithoutMembers(items, k, w[j]);
    case Inner(kids) =>
      var i := Index(kids, k, 0);
      assert kids[i] in kids && kids[i].value < kids[i];
      var r := Delete(rank, kids[i].value, k);
      if r.Some? {
        var e := HasFrom(Place(rank, kids, kids[i].key, r.value), x);
        PlaceMembers(rank, kids, kids[i].key, r.value, e);
        if e in kids {
          HasIn(kids, e, x);
        } else {
          if x != e.key { DeleteHas(rank, kids[i].value, k, x); }
          HasIn(kids, kids[i], x);
        }
      } else {
        RestHas(kids, i, x);
      }
  }

  lemma RestHas(kids: seq<Entry<Node>>, i: nat, x: Key)
    requires i < |kids|
    ensures var rest := kids[..i] + kids[i + 1..];
            (Has(Inner(rest), x) ==> Has(Inner(kids), x)) && (|rest| == 1 && Has(rest[0].value, x) ==> Has(Inner(kids), x))
  {
    var rest := kids[..i] + kids[i + 1..];
    if Has(Inner(rest), x) {
      var e := HasFrom(rest, x);
      HasIn(kids, e, x);
    }
    if |rest| == 1 && Has(rest[0].value, x) {
      assert rest[0] in kids;
      HasIn(kids, rest[0], x);
    }
  }

  lemma NextAgrees(rank: Rank, most: nat, root: Option<Node>, changes: seq<Change>)
    requires most >= 1 && changes != [] && AgreeRun(rank, root, changes)
    ensures AgreeRun(rank, Next(rank, most, root, changes[0]), changes[1..])
    ensures root.Some? ==> AgreeAt(rank, root.value, changes[0].key)
  {
    var c, next := changes[0], Next(rank, most, root, changes[0]);
    forall x | InRun(next, changes[1..], x) ensures InRun(root, changes, x) {
      if i :| 0 <= i < |changes[1..]| && changes[1..][i].key == x {
        assert changes[i + 1].key == x;
      } else if root.None? {
        assert c.Added? && next == Some(Leaf([Entry(c.key, c.value)]));
        assert changes[0].key == x;
      } else if c.Added? {
        PutHas(rank, most, root.value, c.key, c.value, x);
        assert x == c.key ==> changes[0].key == x;
      } else {
        DeleteHas(rank, root.value, c.key, x);
      }
    }
    if root.Some? {
      forall x | Known(root.value, c.key, x) ensures InRun(root, changes, x) {
        assert x == c.key ==> changes[0].key == x;
      }
    }
  }

  /** One change: it keeps an exact and shaped tree so exactly if it is safe. */
  lemma ChangeIff(rank: Rank, most: nat, root: Option<Node>, m: map<Key, string>, c: Change)
    requires most >= 1 && Exact(root, m) && (root.Some? ==> Shaped(root.value, None, None) && AgreeAt(rank, root.value, c.key))
    ensures Exact(Next(rank, most, root, c), Update(m, c)) <==> SafeChange(most, root, c)
    ensures SafeChange(most, root, c) ==>
              var next := Next(rank, most, root, c); next.Some? ==> Shaped(next.value, None, None)
  {
    var next, m' := Next(rank, most, root, c), Update(m, c);
    if root.None? {
      forall x ensures Find(next, x) == if x in m' then Some(m'[x]) else None {
        assert x !in m by { assert Find(root, x) == None; }
        if c.Added? { LookupOne(Entry(c.key, c.value), x); }
      }
    } else if c.Removed? {
      forall x ensures Find(next, x) == if x in m' then Some(m'[x]) else None {
        assert Find(root, x) == if x in m then Some(m[x]) else None;
        GetAfterDelete(rank, root.value, c.key, x);
      }
      GetAfterDelete(rank, root.value, c.key, c.key);
    } else {
      AddedIff(rank, most, root.value, m, c.key, c.value);
    }
  }

  lemma AddedIff(rank: Rank, most: nat, root: Node, m: map<Key, string>, k: Key, v: string)
    requires most >= 1 && Exact(Some(root), m) && Shaped(root, None, None) && AgreeAt(rank, root, k)
    ensures var next, safe := Put(rank, most, Some(root), k, v), Get(root, k) == Some(v) || Safe(root, k, most);
            (Exact(Some(next), m[k := v]) <==> safe) && (safe ==> Shaped(next, None, None))
  {
    var next, m' := Put(rank, most, Some(root), k, v), m[k := v];
    PutKeepsAllIff(rank, most, root, k, v);
    forall x ensures Wanted(root, k, v, x) == if x in m' then Some(m'[x]) else None {
      assert Find(Some(root), x) == if x in m then Some(m[x]) else None;
    }
    if Exact(Some(next), m') {
      forall x ensures Get(next, x) == Wanted(root, k, v, x) {
        assert Find(Some(next), x) == if x in m' then Some(m'[x]) else None;
      }
    }
    if Get(root, k) == Some(v) || Safe(root, k, most) {
      PutSame(rank, most, root, k, v);
      PutKeepsShape(most, root, k, v);
      forall x ensures Find(Some(next), x) == if x in m' then Some(m'[x]) else None {
        assert Get(next, x) == Wanted(root, k, v, x);
      }
    }
  }

  lemma {:induction false} RunIff(rank: Rank, most: nat, root: Option<Node>, m: map<Key, string>, changes: seq<Change>)
    requires most >= 1 && Exact(root, m) && AgreeRun(rank, root, changes) && (root.Some? ==> Shaped(root.value, None, None))
    ensures StaysExact(rank, most, root, m, changes) <==> SafeRun(rank, most, root, changes)
    decreases |changes|
  {
    if changes != [] {
      NextAgrees(rank, most, root, changes);
      ChangeIff(rank, most, root, m, changes[0]);
      if SafeChange(most, root, changes[0]) {
        RunIff(rank, most, Next(rank, most, root, changes[0]), Update(m, changes[0]), changes[1..]);
      }
    }
  }

  /**
   Any series of insertions and deletions, in any order of the tree: after every change the tree finds
   exactly what was put into it and not taken out, if and only if every insertion is safe when its
   turn comes. Deletions alone never lose a key.
   */
  lemma RunFindsIff(rank: Rank, most: nat, changes: seq<Change>)
    requires most >= 1 && AgreeRun(rank, None, changes)
    ensures StaysExact(rank, most, None, map[], changes) <==> SafeRun(rank, most, None, changes)
  {
    RunIff(rank, most, None, map[], changes);
  }
}
