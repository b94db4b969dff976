/**
 The B-tree under any locale: exactly which keys an insertion or a deletion loses, whatever order the
 listings are sorted in, and which runs of changes lose none.
 */
module BTreeLocale {
  import opened BTree
  import opened BTreeOrders
  import opened BTreeLoss
  import opened Wrappers

  // ---- trees that can be searched ----

  predicate Distinct<T>(s: seq<Entry<T>>) { forall i, j | 0 <= i < j < |s| :: s[i].key != s[j].key }

  /** Whatever is looked for and lies below the entry is looked for there. */
  ghost predicate Leads(kids: seq<Entry<Node>>, e: Entry<Node>)
    requires kids != []
  {
    forall y | HasKey(Items(e.value), y) :: Chosen(kids, y) == e
  }

  /** Every key of the tree is looked for where it lies; how the names are sorted does not matter. */
  ghost predicate Routed(node: Node)
    decreases node
  {
    match node
    case Leaf(items) => Distinct(items)
    case Inner(kids) =>
      kids != [] && Distinct(kids) && forall e | e in kids :: (assert e.value < e; Routed(e.value)) && Leads(kids, e)
  }

  lemma KidRouted(kids: seq<Entry<Node>>, i: nat)
    requires Routed(Inner(kids)) && i < |kids|
    ensures Routed(kids[i].value) && Leads(kids, kids[i])
  {
    assert kids[i] in kids;
  }

  /** A child holds no key that is looked for in another. */
  lemma OnlyAtHome(kids: seq<Entry<Node>>, m: nat, x: Key)
    requires Routed(Inner(kids)) && m < |kids| && HasKey(Items(kids[m].value), x)
    ensures Index(kids, x, 0) == m
  {
    KidRouted(kids, m);
    assert Chosen(kids, x) == kids[m];
  }

  /** In such a tree the keys found are the keys that are there. */
  lemma {:induction false} RoutedFinds(node: Node, x: Key)
    requires Routed(node)
    ensures Get(node, x).Some? <==> HasKey(Items(node), x)
    decreases node
  {
    if Get(node, x).Some? { GetHas(node, x); }
    if HasKey(Items(node), x) {
      match node
      case Leaf(items) => LookupThere(items, x);
      case Inner(kids) =>
        var e := ItemsKid(kids, x);
        assert e.value < e && Leads(kids, e);
        RoutedFinds(e.value, x);
    }
  }

  // ---- listings without repeated names ----

  lemma DistinctCons<T>(e: Entry<T>, s: seq<Entry<T>>)
    requires Distinct(s) && !HasKey(s, e.key)
    ensures Distinct([e] + s)
  {
  }

  lemma DistinctTail<T>(s: seq<Entry<T>>)
    requires Distinct(s) && s != []
    ensures Distinct(s[1..]) && !HasKey(s[1..], s[0].key)
  {
  }

  lemma HasKeyIn<T>(s: seq<Entry<T>>, e: Entry<T>)
    requires e in s
    ensures HasKey(s, e.key)
  {
  }

  lemma {:induction false} WithoutDistinct<T>(s: seq<Entry<T>>, k: Key)
    requires Distinct(s)
    ensures Distinct(Without(s, k)) && !HasKey(Without(s, k), k)
  {
    if s != [] {
      DistinctTail(s);
      WithoutDistinct(s[1..], k);
      var w := Without(s[1..], k);
      if s[0].key != k {
        forall j | 0 <= j < |w| ensures w[j].key != s[0].key {
          WithoutMembers(s[1..], k, w[j]);
          HasKeyIn(s[1..], w[j]);
        }
        DistinctCons(s[0], w);
      }
    }
  }

  lemma {:induction false} SinkDistinct<T>(rank: Rank, s: seq<Entry<T>>, e: Entry<T>)
    requires Distinct(s) && !HasKey(s, e.key)
    ensures Distinct(Sink(rank, s, e))
  {
    if s == [] || rank(e.key) < rank(s[0].key) {
      DistinctCons(e, s);
    } else {
      DistinctTail(s);
      assert s[0].key != e.key;
      forall j | 0 <= j < |s[1..]| ensures s[1..][j].key != e.key { assert s[1..][j] == s[j + 1]; }
      SinkDistinct(rank, s[1..], e);
      var p := Sink(rank, s[1..], e);
      forall j | 0 <= j < |p| ensures p[j].key != s[0].key {
        SinkMembers(rank, s[1..], e, p[j]);
        if p[j] != e { HasKeyIn(s[1..], p[j]); }
      }
      DistinctCons(s[0], p);
    }
  }

  lemma PlaceDistinct<T>(rank: Rank, s: seq<Entry<T>>, k: Key, v: T)
    requires Distinct(s)
    ensures Distinct(Place(rank, s, k, v))
  {
    WithoutDistinct(s, k);
    SinkDistinct(rank, Without(s, k), Entry(k, v));
  }

  lemma {:induction false} LookupSink<T>(rank: Rank, s: seq<Entry<T>>, e: Entry<T>, x: Key)
    requires !HasKey(s, e.key)
    ensures Lookup(Sink(rank, s, e), x) == if x == e.key then Some(e.value) else Lookup(s, x)
  {
    if s != [] && !(rank(e.key) < rank(s[0].key)) {
      assert s[0].key != e.key;
      forall j | 0 <= j < |s[1..]| ensures s[1..][j].key != e.key { assert s[1..][j] == s[j + 1]; }
      LookupSink(rank, s[1..], e, x);
    }
  }

  lemma LookupPlace<T>(rank: Rank, s: seq<Entry<T>>, k: Key, v: T, x: Key)
    requires Distinct(s)
    ensures Lookup(Place(rank, s, k, v), x) == if x == k then Some(v) else Lookup(s, x)
  {
    WithoutDistinct(s, k);
    LookupSink(rank, Without(s, k), Entry(k, v), x);
    WithoutLookup(s, k, x);
  }

  /** A replaced entry leaves no trace. */
  lemma {:induction false} WithoutReplaced<T>(s: seq<Entry<T>>, i: nat, w: T)
    requires i < |s|
    ensures Without(s[i := Entry(s[i].key, w)], s[i].key) == Without(s, s[i].key)
  {
    var t := s[i := Entry(s[i].key, w)];
    if i == 0 {
      assert t[1..] == s[1..];
    } else {
      assert t[1..] == s[1..][i - 1 := Entry(s[i].key, w)];
      WithoutReplaced(s[1..], i - 1, w);
    }
  }

  // ---- what the names decide beforehand ----

  /** The names of the children, and where they stand, after an insertion into child `i`; before the node itself is cut. */
  function Names(rank: Rank, kids: seq<Entry<Node>>, i: nat, cut: Option<(Key, Key)>): (s: seq<Entry<Spot>>)
    requires i < |kids|
    ensures s != []
  {
    var s := Spots(kids);
    match cut
    case None => Place(rank, s, kids[i].key, Old(i))
    case Some(names) => Place(rank, Place(rank, s[..i] + s[i + 1..], names.0, Left), names.1, Right)
  }

  /** The names of the halves, if inserting `k` cuts the node. */
  function CutBy(rank: Rank, node: Node, k: Key, most: nat): Option<(Key, Key)>
    requires most >= 1
    decreases node
  {
    match node
    case Leaf(items) => Halved(Place(rank, items, k, ""), most)
    case Inner(kids) =>
      if kids == [] then None
      else
        var e := Chosen(kids, k);
        assert e.value < e;
        Halved(Names(rank, kids, Index(kids, k, 0), CutBy(rank, e.value, k, most)), most)
  }

  /** One half of a listing, or all of it if it fits. */
  function Half<T>(s: seq<Entry<T>>, most: nat, right: bool): (h: seq<Entry<T>>)
    ensures most >= 1 && s != [] ==> h != []
  {
    if |s| <= most then s else if right then s[|s| / 2..] else s[..|s| / 2]
  }

  predicate HasSpot(s: seq<Entry<Spot>>, spot: Spot) { exists p | 0 <= p < |s| :: s[p].value == spot }

  /** Where `x` lies after an insertion into child `i`; if the child is cut, `right` says in which half. */
  function Lies(kids: seq<Entry<Node>>, i: nat, cut: bool, right: bool, x: Key): Spot
    requires i < |kids|
  {
    var j := Index(kids, x, 0);
    if j != i then Old(j) else if !cut then Old(i) else if right then Right else Left
  }

  /** Inserting `k` cuts the node and leaves `x` in its right half. */
  predicate GoesRight(rank: Rank, node: Node, k: Key, most: nat, x: Key)
    requires most >= 1
    decreases node
  {
    match node
    case Leaf(items) =>
      var p := Place(rank, items, k, "");
      |p| > most && HasKey(Half(p, most, true), x)
    case Inner(kids) =>
      kids != [] &&
      var e, i := Chosen(kids, k), Index(kids, k, 0);
      assert e.value < e;
      var cut := CutBy(rank, e.value, k, most);
      var names := Names(rank, kids, i, cut);
      |names| > most && HasSpot(Half(names, most, true), Lies(kids, i, cut.Some?, GoesRight(rank, e.value, k, most, x), x))
  }

  /**
   Inserting `k` makes the search for `x` go astray: in some node on the path of `k`, the names in the
   half that holds `x` lead to where it is not.
   */
  predicate Astray(rank: Rank, node: Node, k: Key, most: nat, x: Key)
    requires most >= 1
    decreases node
  {
    node.Inner? && node.kids != [] &&
    var kids, i := node.kids, Index(node.kids, k, 0);
    assert kids[i] in kids && kids[i].value < kids[i];
    var cut := CutBy(rank, kids[i].value, k, most);
    var lies := Lies(kids, i, cut.Some?, GoesRight(rank, kids[i].value, k, most, x), x);
    || (Index(kids, x, 0) == i && Astray(rank, kids[i].value, k, most, x))
    || Chosen(Half(Names(rank, kids, i, cut), most, GoesRight(rank, node, k, most, x)), x).value != lies
  }

  // ---- the names are those of the insertion ----

  function HalfOf(o: Outcome, right: bool): Node
  {
    match o
    case Whole(n) => n
    case Halves(l, r) => if right then r else l
  }

  /** The children, with what an uncut child became. */
  function Renewed(kids: seq<Entry<Node>>, i: nat, o: Outcome): (s: seq<Entry<Node>>)
    requires i < |kids|
    ensures |s| == |kids|
  {
    if o.Whole? then kids[i := Entry(kids[i].key, o.node)] else kids
  }

  function StandsAfter(kids: seq<Entry<Node>>, i: nat, o: Outcome): (Node, Spot) -> bool
    requires i < |kids|
  {
    Stands(Renewed(kids, i, o), HalfOf(o, false), HalfOf(o, true))
  }

  lemma SpotsRelated(kids: seq<Entry<Node>>, l: Node, r: Node)
    ensures Related(Stands(kids, l, r), kids, Spots(kids))
  {
  }

  lemma RestRelated(kids: seq<Entry<Node>>, i: nat, l: Node, r: Node)
    requires i < |kids|
    ensures Related(Stands(kids, l, r), kids[..i] + kids[i + 1..], Spots(kids)[..i] + Spots(kids)[i + 1..])
  {
    var rel, s := Stands(kids, l, r), Spots(kids);
    var rest, spots := kids[..i] + kids[i + 1..], s[..i] + s[i + 1..];
    forall p | 0 <= p < |rest| ensures rest[p].key == spots[p].key && rel(rest[p].value, spots[p].value) {
      assert rest[p] == kids[Was(i, p)] && spots[p] == s[Was(i, p)];
    }
  }

  /** After the insertion the children stand where the names say. */
  lemma NamesStand(rank: Rank, kids: seq<Entry<Node>>, i: nat, o: Outcome, names: Option<(Key, Key)>)
    requires i < |kids| && SameNames(o, names)
    ensures Related(StandsAfter(kids, i, o), Refitted(rank, kids, i, o), Names(rank, kids, i, names))
  {
    var rel, s := StandsAfter(kids, i, o), Spots(kids);
    match o
    case Whole(n) =>
      var t := Renewed(kids, i, o);
      SpotsRelated(t, n, n);
      assert Spots(t) == s;
      PlaceRelated(rank, rel, t, s, kids[i].key, n, Old(i));
      WithoutReplaced(kids, i, n);
    case Halves(l, r) =>
      var rest, spots := kids[..i] + kids[i + 1..], s[..i] + s[i + 1..];
      RestRelated(kids, i, l, r);
      PlaceRelated(rank, rel, rest, spots, FirstName(l), l, Left);
      PlaceRelated(rank, rel, Place(rank, rest, FirstName(l), l), Place(rank, spots, FirstName(l), Left), FirstName(r), r, Right);
  }

  /** `CutBy` tells whether an insertion cuts the node, and under which names. */
  lemma {:induction false} CutByIs(rank: Rank, node: Node, k: Key, v: string, most: nat)
    requires most >= 1
    ensures SameNames(Insert(rank, most, node, k, v), CutBy(rank, node, k, most))
    decreases node
  {
    match node
    case Leaf(items) =>
      PlaceRelated(rank, Any, items, items, k, v, "");
      HalvedRelated(Any, Place(rank, items, k, v), Place(rank, items, k, ""), most);
      DivideNames(Leaf(Place(rank, items, k, v)), most);
    case Inner(kids) =>
      if kids != [] {
        var i := Index(kids, k, 0);
        assert kids[i] in kids && kids[i].value < kids[i];
        CutByIs(rank, kids[i].value, k, v, most);
        var o, names := Insert(rank, most, kids[i].value, k, v), CutBy(rank, kids[i].value, k, most);
        NamesStand(rank, kids, i, o, names);
        HalvedRelated(StandsAfter(kids, i, o), Refitted(rank, kids, i, o), Names(rank, kids, i, names), most);
        DivideNames(Inner(Refitted(rank, kids, i, o)), most);
      }
  }

  lemma HalfRelated<T, U>(rel: (T, U) -> bool, s: seq<Entry<T>>, t: seq<Entry<U>>, most: nat, right: bool)
    requires Related(rel, s, t)
    ensures Related(rel, Half(s, most, right), Half(t, most, right))
  {
  }

  // ---- every spot has one name ----

  function NameOf(kids: seq<Entry<Node>>, names: Option<(Key, Key)>, spot: Spot): Key
  {
    match spot
    case Old(m) => if m < |kids| then kids[m].key else 0
    case Left => if names.Some? then names.value.0 else 0
    case Right => if names.Some? then names.value.1 else 0
  }

  /** The spots there are: halves only if the child was cut, and then not the child. */
  predicate Possible(i: nat, cut: bool, spot: Spot) { if cut then spot != Old(i) else spot.Old? }

  lemma NamesMembers(rank: Rank, kids: seq<Entry<Node>>, i: nat, names: Option<(Key, Key)>, e: Entry<Spot>)
    requires i < |kids| && e in Names(rank, kids, i, names)
    ensures e.key == NameOf(kids, names, e.value) && Possible(i, names.Some?, e.value)
  {
    var s := Spots(kids);
    match names
    case None =>
      PlaceMembers(rank, s, kids[i].key, Old(i), e);
    case Some((a, b)) =>
      var rest := s[..i] + s[i + 1..];
      PlaceMembers(rank, Place(rank, rest, a, Left), b, Right, e);
      PlaceMembers(rank, rest, a, Left, e);
      if e in rest {
        var p :| 0 <= p < |rest| && rest[p] == e;
        assert e == s[Was(i, p)];
      }
  }

  lemma NamesDistinct(rank: Rank, kids: seq<Entry<Node>>, i: nat, names: Option<(Key, Key)>)
    requires i < |kids| && Distinct(kids)
    ensures Distinct(Names(rank, kids, i, names))
  {
    var s := Spots(kids);
    match names
    case None => PlaceDistinct(rank, s, kids[i].key, Old(i));
    case Some((a, b)) =>
      var rest := s[..i] + s[i + 1..];
      forall p, q | 0 <= p < q < |rest| ensures rest[p].key != rest[q].key {
        assert rest[p] == s[Was(i, p)] && rest[q] == s[Was(i, q)];
      }
      PlaceDistinct(rank, rest, a, Left);
      PlaceDistinct(rank, Place(rank, rest, a, Left), b, Right);
  }

  lemma SpotOnce(rank: Rank, kids: seq<Entry<Node>>, i: nat, names: Option<(Key, Key)>, p: nat, q: nat)
    requires i < |kids| && Distinct(kids)
    requires var t := Names(rank, kids, i, names); p < |t| && q < |t| && t[p].value == t[q].value
    ensures p == q
  {
    var t := Names(rank, kids, i, names);
    NamesDistinct(rank, kids, i, names);
    NamesMembers(rank, kids, i, names, t[p]);
    NamesMembers(rank, kids, i, names, t[q]);
  }

  lemma HalfOnce(rank: Rank, kids: seq<Entry<Node>>, i: nat, names: Option<(Key, Key)>, wide: nat, b: bool, p: nat, q: nat)
    requires i < |kids| && Distinct(kids)
    requires var h := Half(Names(rank, kids, i, names), wide, b); p < |h| && q < |h| && h[p].value == h[q].value
    ensures p == q
  {
    var t := Names(rank, kids, i, names);
    var from := if |t| > wide && b then |t| / 2 else 0;
    var h := Half(t, wide, b);
    assert h[p] == t[from + p] && h[q] == t[from + q];
    SpotOnce(rank, kids, i, names, from + p, from + q);
  }

  /** Nothing stands in both halves. */
  lemma OneHalf(rank: Rank, kids: seq<Entry<Node>>, i: nat, names: Option<(Key, Key)>, wide: nat, spot: Spot)
    requires i < |kids| && Distinct(kids) && |Names(rank, kids, i, names)| > wide
    ensures var t := Names(rank, kids, i, names); !(HasSpot(Half(t, wide, true), spot) && HasSpot(Half(t, wide, false), spot))
  {
    var t := Names(rank, kids, i, names);
    var mid := |t| / 2;
    if HasSpot(t[mid..], spot) && HasSpot(t[..mid], spot) {
      var p :| 0 <= p < |t[..mid]| && t[..mid][p].value == spot;
      var q :| 0 <= q < |t[mid..]| && t[mid..][q].value == spot;
      assert t[..mid][p] == t[p] && t[mid..][q] == t[mid + q];
      SpotOnce(rank, kids, i, names, p, mid + q);
    }
  }

  // ---- where the keys lie after an insertion ----

  ghost predicate Present(node: Node, k: Key, x: Key) { x == k || HasKey(Items(node), x) }

  /** What became of a child holds its keys and `k`, no others. */
  ghost predicate Pieces(kid: Node, k: Key, o: Outcome) { forall y | OutcomeItem(o, y) :: Present(kid, k, y) }

  /** `x` lies in no half but the one named, if it is looked for in child `i`. */
  ghost predicate InHalf(kids: seq<Entry<Node>>, i: nat, o: Outcome, right: bool, x: Key)
    requires i < |kids|
  {
    Index(kids, x, 0) == i && o.Halves? ==> !HasKey(Items(HalfOf(o, !right)), x)
  }

  /** Child `i`, the one on the path of `k`, has become `o`, under these names. */
  ghost predicate Step(kids: seq<Entry<Node>>, i: nat, o: Outcome, names: Option<(Key, Key)>, k: Key)
  {
    Routed(Inner(kids)) && i == Index(kids, k, 0) && SameNames(o, names) && Pieces(kids[i].value, k, o)
  }

  lemma NotElsewhere(kids: seq<Entry<Node>>, i: nat, o: Outcome, names: Option<(Key, Key)>, k: Key, x: Key, right: bool, n: Node, spot: Spot)
    requires i < |kids| && Step(kids, i, o, names, k) && InHalf(kids, i, o, right, x)
    requires StandsAfter(kids, i, o)(n, spot) && Possible(i, names.Some?, spot)
    requires HasKey(Items(n), x)
    ensures spot == Lies(kids, i, names.Some?, right, x)
  {
    if spot.Old? && spot.index != i {
      assert n == kids[spot.index].value;
      OnlyAtHome(kids, spot.index, x);
    } else {
      assert OutcomeItem(o, x);
      if x != k { OnlyAtHome(kids, i, x); }
    }
  }

  /** What is found in a half of the listing: what should be, if the names lead to where the key lies, and else nothing. */
  lemma StepFinds(rank: Rank, kids: seq<Entry<Node>>, i: nat, o: Outcome, names: Option<(Key, Key)>, k: Key, wide: nat, b: bool, x: Key, right: bool)
    requires i < |kids| && Step(kids, i, o, names, k) && InHalf(kids, i, o, right, x) && wide >= 1
    requires Refitted(rank, kids, i, o) != []
    ensures Get(Inner(Half(Refitted(rank, kids, i, o), wide, b)), x)
            == if Chosen(Half(Names(rank, kids, i, names), wide, b), x).value != Lies(kids, i, names.Some?, right, x) then None
               else if Index(kids, x, 0) == i then Get(HalfOf(o, right), x) else Get(Inner(kids), x)
  {
    var rel, s, t := StandsAfter(kids, i, o), Refitted(rank, kids, i, o), Names(rank, kids, i, names);
    var s', t' := Half(s, wide, b), Half(t, wide, b);
    NamesStand(rank, kids, i, o, names);
    HalfRelated(rel, s, t, wide, b);
    IndexRelated(rel, s', t', x, 0);
    GetInner(s', x);
    var n, spot := Chosen(s', x).value, Chosen(t', x).value;
    assert rel(n, spot);
    assert Chosen(t', x) in t;
    NamesMembers(rank, kids, i, names, Chosen(t', x));
    if spot != Lies(kids, i, names.Some?, right, x) {
      if Get(n, x).Some? {
        GetHas(n, x);
        NotElsewhere(kids, i, o, names, k, x, right, n, spot);
      }
    } else {
      GetInner(kids, x);
    }
  }

  /** A half that holds a key has the spot where it lies. */
  lemma StepHolds(rank: Rank, kids: seq<Entry<Node>>, i: nat, o: Outcome, names: Option<(Key, Key)>, k: Key, wide: nat, b: bool, x: Key, right: bool, p: nat)
    requires i < |kids| && Step(kids, i, o, names, k) && InHalf(kids, i, o, right, x)
    requires var s' := Half(Refitted(rank, kids, i, o), wide, b); p < |s'| && HasKey(Items(s'[p].value), x)
    ensures var t' := Half(Names(rank, kids, i, names), wide, b); p < |t'| && t'[p].value == Lies(kids, i, names.Some?, right, x)
  {
    var rel, s, t := StandsAfter(kids, i, o), Refitted(rank, kids, i, o), Names(rank, kids, i, names);
    var s', t' := Half(s, wide, b), Half(t, wide, b);
    NamesStand(rank, kids, i, o, names);
    HalfRelated(rel, s, t, wide, b);
    assert rel(s'[p].value, t'[p].value);
    assert t'[p] in t;
    NamesMembers(rank, kids, i, names, t'[p]);
    NotElsewhere(kids, i, o, names, k, x, right, s'[p].value, t'[p].value);
  }

  // ---- what one insertion does to every key ----

  /** What is claimed of `x`: it is found in its half unless its search goes astray, and it is in no other half. */
  ghost predicate Told(rank: Rank, most: nat, node: Node, k: Key, v: string, x: Key)
    requires most >= 1
  {
    var o, right := Insert(rank, most, node, k, v), GoesRight(rank, node, k, most, x);
    && Get(HalfOf(o, right), x) == (if Astray(rank, node, k, most, x) then None else Wanted(node, k, v, x))
    && (o.Halves? ==> !HasKey(Items(HalfOf(o, !right)), x))
  }

  lemma LookupHalves(s: seq<Entry<string>>, mid: nat, x: Key)
    requires Distinct(s) && mid <= |s|
    ensures Lookup(s, x) == if HasKey(s[mid..], x) then Lookup(s[mid..], x) else Lookup(s[..mid], x)
    ensures HasKey(s[mid..], x) ==> !HasKey(s[..mid], x)
  {
    var l, r := s[..mid], s[mid..];
    assert s == l + r;
    LookupConcat(l, r, x);
    if HasKey(r, x) {
      var q :| 0 <= q < |r| && r[q].key == x;
      forall p | 0 <= p < |l| ensures l[p].key != x { assert l[p] == s[p] && r[q] == s[mid + q]; }
      LookupNone(l, x);
    } else {
      LookupNone(r, x);
    }
  }

  lemma {:induction false} RelatedKeys<T, U>(rel: (T, U) -> bool, s: seq<Entry<T>>, t: seq<Entry<U>>, x: Key)
    requires Related(rel, s, t)
    ensures HasKey(s, x) <==> HasKey(t, x)
  {
    if HasKey(s, x) {
      var p :| 0 <= p < |s| && s[p].key == x;
      assert t[p].key == x;
    }
    if HasKey(t, x) {
      var p :| 0 <= p < |t| && t[p].key == x;
      assert s[p].key == x;
    }
  }

  lemma LeafTold(rank: Rank, most: nat, items: seq<Entry<string>>, k: Key, v: string, x: Key)
    requires most >= 1 && Distinct(items)
    ensures Told(rank, most, Leaf(items), k, v, x)
  {
    var p, q := Place(rank, items, k, v), Place(rank, items, k, "");
    PlaceDistinct(rank, items, k, v);
    LookupPlace(rank, items, k, v, x);
    PlaceRelated(rank, Any, items, items, k, v, "");
    HalfRelated(Any, p, q, most, true);
    RelatedKeys(Any, Half(p, most, true), Half(q, most, true), x);
    if |p| > most { LookupHalves(p, |p| / 2, x); }
  }

  lemma DivideHalf(kids: seq<Entry<Node>>, most: nat, b: bool)
    ensures HalfOf(Divide(Inner(kids), most), b) == Inner(Half(kids, most, b))
    ensures Divide(Inner(kids), most).Halves? <==> |kids| > most
  {
  }

  lemma KidStep(rank: Rank, most: nat, kids: seq<Entry<Node>>, k: Key, v: string)
    requires most >= 1 && Routed(Inner(kids))
    ensures var i := Index(kids, k, 0);
            var o, names := Insert(rank, most, kids[i].value, k, v), CutBy(rank, kids[i].value, k, most);
            Step(kids, i, o, names, k) && Refitted(rank, kids, i, o) != [] && |Refitted(rank, kids, i, o)| == |Names(rank, kids, i, names)|
  {
    var i := Index(kids, k, 0);
    var o, names := Insert(rank, most, kids[i].value, k, v), CutBy(rank, kids[i].value, k, most);
    CutByIs(rank, kids[i].value, k, v, most);
    NamesStand(rank, kids, i, o, names);
    forall y | OutcomeItem(o, y) ensures Present(kids[i].value, k, y) {
      InsertItem(rank, most, kids[i].value, k, v, y);
    }
  }

  lemma {:induction false} InsertTold(rank: Rank, most: nat, node: Node, k: Key, v: string, x: Key)
    requires most >= 1 && Routed(node)
    ensures Told(rank, most, node, k, v, x)
    decreases node
  {
    match node
    case Leaf(items) => LeafTold(rank, most, items, k, v, x);
    case Inner(kids) =>
      var i := Index(kids, k, 0);
      assert kids[i] in kids && kids[i].value < kids[i];
      KidRouted(kids, i);
      InsertTold(rank, most, kids[i].value, k, v, x);
      InnerTold(rank, most, kids, k, v, x);
  }

  lemma InnerTold(rank: Rank, most: nat, kids: seq<Entry<Node>>, k: Key, v: string, x: Key)
    requires most >= 1 && Routed(Inner(kids)) && Told(rank, most, kids[Index(kids, k, 0)].value, k, v, x)
    ensures Told(rank, most, Inner(kids), k, v, x)
  {
    var node, i := Inner(kids), Index(kids, k, 0);
    var kid := kids[i].value;
    var o, names, right := Insert(rank, most, kid, k, v), CutBy(rank, kid, k, most), GoesRight(rank, kid, k, most, x);
    var s, b := Refitted(rank, kids, i, o), GoesRight(rank, node, k, most, x);
    KidStep(rank, most, kids, k, v);
    StepFinds(rank, kids, i, o, names, k, most, b, x, right);
    DivideHalf(s, most, b);
    DivideHalf(s, most, !b);
    GetInner(kids, x);
    if |s| > most { OtherHalf(rank, kids, i, o, names, k, most, x, right); }
  }

  /** A key is not in the half without its spot. */
  lemma OtherHalf(rank: Rank, kids: seq<Entry<Node>>, i: nat, o: Outcome, names: Option<(Key, Key)>, k: Key, wide: nat, x: Key, right: bool)
    requires i < |kids| && Step(kids, i, o, names, k) && InHalf(kids, i, o, right, x) && |Names(rank, kids, i, names)| > wide
    ensures var b := HasSpot(Half(Names(rank, kids, i, names), wide, true), Lies(kids, i, names.Some?, right, x));
            !HasKey(Items(Inner(Half(Refitted(rank, kids, i, o), wide, !b))), x)
  {
    var lies := Lies(kids, i, names.Some?, right, x);
    var b := HasSpot(Half(Names(rank, kids, i, names), wide, true), lies);
    var s' := Half(Refitted(rank, kids, i, o), wide, !b);
    OneHalf(rank, kids, i, names, wide, lies);
    if HasKey(Items(Inner(s')), x) {
      var e := ItemsKid(s', x);
      var p :| 0 <= p < |s'| && s'[p] == e;
      StepHolds(rank, kids, i, o, names, k, wide, !b, x, right, p);
    }
  }

  // ---- trees stay searchable ----

  lemma RelatedDistinct<T, U>(rel: (T, U) -> bool, s: seq<Entry<T>>, t: seq<Entry<U>>)
    requires Related(rel, s, t) && Distinct(t)
    ensures Distinct(s)
  {
  }

  lemma HalfDistinct<T>(s: seq<Entry<T>>, wide: nat, b: bool)
    requires Distinct(s)
    ensures Distinct(Half(s, wide, b))
  {
  }

  lemma HalfIn<T>(s: seq<Entry<T>>, wide: nat, b: bool, e: Entry<T>)
    requires e in Half(s, wide, b)
    ensures e in s
  {
  }

  /** The names of a half lead to whatever lies in it. */
  ghost predicate LedHome(rank: Rank, most: nat, kids: seq<Entry<Node>>, k: Key, wide: nat, b: bool, y: Key)
    requires kids != [] && most >= 1 && wide >= 1
  {
    var i := Index(kids, k, 0);
    var names := CutBy(rank, kids[i].value, k, most);
    var lies := Lies(kids, i, names.Some?, GoesRight(rank, kids[i].value, k, most, y), y);
    var t' := Half(Names(rank, kids, i, names), wide, b);
    HasSpot(t', lies) ==> Chosen(t', y).value == lies
  }

  /** The entry at `p` of a half is where its keys are looked for. */
  lemma LeadsThere(rank: Rank, most: nat, kids: seq<Entry<Node>>, k: Key, v: string, wide: nat, b: bool, p: nat, y: Key)
    requires most >= 1 && wide >= 1 && Routed(Inner(kids))
    requires Told(rank, most, kids[Index(kids, k, 0)].value, k, v, y) && LedHome(rank, most, kids, k, wide, b, y)
    requires var i := Index(kids, k, 0);
             var s' := Half(Refitted(rank, kids, i, Insert(rank, most, kids[i].value, k, v)), wide, b);
             p < |s'| && HasKey(Items(s'[p].value), y)
    ensures var i := Index(kids, k, 0);
            var s' := Half(Refitted(rank, kids, i, Insert(rank, most, kids[i].value, k, v)), wide, b);
            Chosen(s', y) == s'[p]
  {
    var i := Index(kids, k, 0);
    var o, names, right := Insert(rank, most, kids[i].value, k, v), CutBy(rank, kids[i].value, k, most), GoesRight(rank, kids[i].value, k, most, y);
    var s, t := Refitted(rank, kids, i, o), Names(rank, kids, i, names);
    KidStep(rank, most, kids, k, v);
    StepHolds(rank, kids, i, o, names, k, wide, b, y, right, p);
    NamesStand(rank, kids, i, o, names);
    HalfRelated(StandsAfter(kids, i, o), s, t, wide, b);
    IndexRelated(StandsAfter(kids, i, o), Half(s, wide, b), Half(t, wide, b), y, 0);
    assert HasSpot(Half(t, wide, b), Half(t, wide, b)[p].value);
    HalfOnce(rank, kids, i, names, wide, b, Index(Half(t, wide, b), y, 0), p);
  }

  ghost predicate OutcomeRouted(o: Outcome)
  {
    match o
    case Whole(n) => Routed(n)
    case Halves(l, r) => Routed(l) && Routed(r)
  }

  lemma HalfRouted(rank: Rank, most: nat, kids: seq<Entry<Node>>, k: Key, v: string, wide: nat, b: bool)
    requires most >= 1 && wide >= 1 && Routed(Inner(kids))
    requires OutcomeRouted(Insert(rank, most, kids[Index(kids, k, 0)].value, k, v))
    requires forall y | Present(Inner(kids), k, y) :: LedHome(rank, most, kids, k, wide, b, y)
    ensures var i := Index(kids, k, 0);
            Routed(Inner(Half(Refitted(rank, kids, i, Insert(rank, most, kids[i].value, k, v)), wide, b)))
  {
    var i := Index(kids, k, 0);
    var o, names := Insert(rank, most, kids[i].value, k, v), CutBy(rank, kids[i].value, k, most);
    var s := Refitted(rank, kids, i, o);
    var s' := Half(s, wide, b);
    KidRouted(kids, i);
    KidStep(rank, most, kids, k, v);
    NamesStand(rank, kids, i, o, names);
    NamesDistinct(rank, kids, i, names);
    RelatedDistinct(StandsAfter(kids, i, o), s, Names(rank, kids, i, names));
    HalfDistinct(s, wide, b);
    forall e | e in s' ensures (assert e.value < e; Routed(e.value)) && Leads(s', e) {
      HalfIn(s, wide, b, e);
      RefittedEntry(rank, kids, i, o, e);
      var p :| 0 <= p < |s'| && s'[p] == e;
      forall y | HasKey(Items(e.value), y) ensures Chosen(s', y) == e {
        RefittedPresent(rank, most, kids, k, v, e, y);
        InsertTold(rank, most, kids[i].value, k, v, y);
        LeadsThere(rank, most, kids, k, v, wide, b, p, y);
      }
    }
  }

  lemma RefittedPresent(rank: Rank, most: nat, kids: seq<Entry<Node>>, k: Key, v: string, e: Entry<Node>, y: Key)
    requires most >= 1 && kids != []
    requires var i := Index(kids, k, 0); e in Refitted(rank, kids, i, Insert(rank, most, kids[i].value, k, v))
    requires HasKey(Items(e.value), y)
    ensures Present(Inner(kids), k, y)
  {
    var i := Index(kids, k, 0);
    var o := Insert(rank, most, kids[i].value, k, v);
    RefittedEntry(rank, kids, i, o, e);
    if e in kids {
      KidItems(kids, e, y);
    } else {
      assert OutcomeItem(o, y);
      InsertItem(rank, most, kids[i].value, k, v, y);
      if y != k { KidItems(kids, kids[i], y); }
    }
  }

  /** Where no key goes astray, what an insertion leaves can be searched. */
  lemma {:induction false} InsertRouted(rank: Rank, most: nat, node: Node, k: Key, v: string)
    requires most >= 1 && Routed(node) && forall x | Present(node, k, x) :: !Astray(rank, node, k, most, x)
    ensures OutcomeRouted(Insert(rank, most, node, k, v))
    decreases node
  {
    match node
    case Leaf(items) =>
      var p := Place(rank, items, k, v);
      PlaceDistinct(rank, items, k, v);
      HalfDistinct(p, most, false);
      HalfDistinct(p, most, true);
    case Inner(kids) =>
      var i := Index(kids, k, 0);
      assert kids[i] in kids && kids[i].value < kids[i];
      KidRouted(kids, i);
      forall x | Present(kids[i].value, k, x) ensures !Astray(rank, kids[i].value, k, most, x) {
        if x != k {
          KidItems(kids, kids[i], x);
          OnlyAtHome(kids, i, x);
        }
        assert Present(node, k, x);
      }
      InsertRouted(rank, most, kids[i].value, k, v);
      InnerRouted(rank, most, kids, k, v);
  }

  lemma InnerRouted(rank: Rank, most: nat, kids: seq<Entry<Node>>, k: Key, v: string)
    requires most >= 1 && Routed(Inner(kids)) && forall x | Present(Inner(kids), k, x) :: !Astray(rank, Inner(kids), k, most, x)
    requires OutcomeRouted(Insert(rank, most, kids[Index(kids, k, 0)].value, k, v))
    ensures OutcomeRouted(Insert(rank, most, Inner(kids), k, v))
  {
    var i := Index(kids, k, 0);
    var s := Refitted(rank, kids, i, Insert(rank, most, kids[i].value, k, v));
    forall b, y | Present(Inner(kids), k, y) ensures LedHome(rank, most, kids, k, most, b, y) {
      NotAstray(rank, most, kids, k, b, y);
    }
    HalfRouted(rank, most, kids, k, v, most, false);
    HalfRouted(rank, most, kids, k, v, most, true);
    DivideHalf(s, most, false);
    DivideHalf(s, most, true);
  }

  lemma NotAstray(rank: Rank, most: nat, kids: seq<Entry<Node>>, k: Key, b: bool, y: Key)
    requires most >= 1 && Routed(Inner(kids)) && !Astray(rank, Inner(kids), k, most, y)
    ensures LedHome(rank, most, kids, k, most, b, y)
  {
    var i := Index(kids, k, 0);
    var names := CutBy(rank, kids[i].value, k, most);
    var lies := Lies(kids, i, names.Some?, GoesRight(rank, kids[i].value, k, most, y), y);
    var t := Names(rank, kids, i, names);
    if |t| > most { OneHalf(rank, kids, i, names, most, lies); }
  }

  // ---- at the root ----

  /** A root that is cut is replaced by its halves in a new root, as a child is in its parent. */
  function UnderRoot(root: Node): seq<Entry<Node>> { [Entry(0, root)] }

  /** What an insertion loses: the search goes astray below the root, or in the new root. */
  predicate LostBy(rank: Rank, root: Node, k: Key, most: nat, x: Key)
    requires most >= 1
  {
    var cut, right := CutBy(rank, root, k, most), GoesRight(rank, root, k, most, x);
    || Astray(rank, root, k, most, x)
    || (cut.Some? && Chosen(Place(rank, [Entry(cut.value.0, Left)], cut.value.1, Right), x).value != if right then Right else Left)
  }

  lemma NewRoot(rank: Rank, most: nat, root: Node, k: Key, v: string)
    requires most >= 1 && Routed(root) && Insert(rank, most, root, k, v).Halves?
    ensures var kids, o, cut := UnderRoot(root), Insert(rank, most, root, k, v), CutBy(rank, root, k, most);
            && Routed(Inner(kids)) && Index(kids, k, 0) == 0 && cut.Some?
            && Grown(rank, o) == Inner(Refitted(rank, kids, 0, o))
            && Names(rank, kids, 0, cut) == Place(rank, [Entry(cut.value.0, Left)], cut.value.1, Right)
  {
    var kids, o, cut := UnderRoot(root), Insert(rank, most, root, k, v), CutBy(rank, root, k, most);
    CutByIs(rank, root, k, v, most);
    assert kids[..0] + kids[1..] == [] && Spots(kids)[..0] + Spots(kids)[1..] == [];
    PlaceInOne(rank, Entry(cut.value.0, Left), cut.value.0, Left);
    forall e | e in kids ensures (assert e.value < e; Routed(e.value)) && Leads(kids, e) {
      forall y | HasKey(Items(e.value), y) ensures Chosen(kids, y) == e { OneKid(kids, y); }
    }
  }

  lemma OneKid(kids: seq<Entry<Node>>, y: Key)
    requires |kids| == 1
    ensures Chosen(kids, y) == kids[0]
  {
  }

  /**
   Inserting into any tree that can be searched, under any locale: a key is lost exactly when its search
   goes astray, which the names and sizes of the tree decide beforehand; every other key is found as
   before, and the inserted one has its value.
   */
  lemma PutLosesByIff(rank: Rank, most: nat, root: Node, k: Key, v: string, x: Key)
    requires most >= 1 && Routed(root)
    ensures Get(Put(rank, most, Some(root), k, v), x)
            == if Get(root, k) != Some(v) && LostBy(rank, root, k, most, x) then None else Wanted(root, k, v, x)
  {
    if Get(root, k) != Some(v) {
      var o := Insert(rank, most, root, k, v);
      InsertTold(rank, most, root, k, v, x);
      CutByIs(rank, root, k, v, most);
      if o.Halves? {
        var kids, cut, right := UnderRoot(root), CutBy(rank, root, k, most), GoesRight(rank, root, k, most, x);
        NewRoot(rank, most, root, k, v);
        KidStep(rank, most, kids, k, v);
        OneKid(kids, x);
        StepFinds(rank, kids, 0, o, cut, k, |Names(rank, kids, 0, cut)|, right, x, right);
      }
    }
  }

  /** No key of the tree is lost, nor the new one. */
  ghost predicate SafeBy(rank: Rank, root: Node, k: Key, most: nat)
    requires most >= 1
  {
    forall x | x == k || Get(root, x).Some? :: !LostBy(rank, root, k, most, x)
  }

  /** The new key is found, and every other as before, exactly when nothing is to be done or the insertion is safe. */
  lemma PutKeepsAllByIff(rank: Rank, most: nat, root: Node, k: Key, v: string)
    requires most >= 1 && Routed(root)
    ensures (forall x :: Get(Put(rank, most, Some(root), k, v), x) == Wanted(root, k, v, x))
            <==> Get(root, k) == Some(v) || SafeBy(rank, root, k, most)
  {
    forall x ensures Get(Put(rank, most, Some(root), k, v), x)
                     == if Get(root, k) != Some(v) && LostBy(rank, root, k, most, x) then None else Wanted(root, k, v, x)
    {
      PutLosesByIff(rank, most, root, k, v, x);
    }
    if Get(root, k) != Some(v) && !SafeBy(rank, root, k, most) {
      var x :| (x == k || Get(root, x).Some?) && LostBy(rank, root, k, most, x);
      assert Get(Put(rank, most, Some(root), k, v), x) == None;
    }
  }

  /** A safe insertion leaves a tree that can be searched. */
  lemma PutRouted(rank: Rank, most: nat, root: Node, k: Key, v: string)
    requires most >= 1 && Routed(root) && (Get(root, k) == Some(v) || SafeBy(rank, root, k, most))
    ensures Routed(Put(rank, most, Some(root), k, v))
  {
    if Get(root, k) != Some(v) {
      var o := Insert(rank, most, root, k, v);
      forall x | Present(root, k, x) ensures !LostBy(rank, root, k, most, x) { RoutedFinds(root, x); }
      InsertRouted(rank, most, root, k, v);
      if o.Halves? {
        var kids, cut := UnderRoot(root), CutBy(rank, root, k, most);
        var wide := |Names(rank, kids, 0, cut)|;
        NewRoot(rank, most, root, k, v);
        KidStep(rank, most, kids, k, v);
        forall y | Present(Inner(kids), k, y) ensures LedHome(rank, most, kids, k, wide, true, y) {
          OneKid(kids, y);
          if y != k { var e := ItemsKid(kids, y); }
          assert Present(root, k, y);
        }
        HalfRouted(rank, most, kids, k, v, wide, true);
      }
    }
  }

  // ---- deletions ----

  /** The names of the children after a deletion in child `i`, which goes if nothing is left of it. */
  function Remaining(rank: Rank, kids: seq<Entry<Node>>, i: nat, gone: bool): seq<Entry<Spot>>
    requires i < |kids|
  {
    if gone then Spots(kids)[..i] + Spots(kids)[i + 1..] else Names(rank, kids, i, None)
  }

  /** Nothing is left of the node once `k` is deleted. */
  predicate Goes(node: Node, k: Key)
    decreases node
  {
    match node
    case Leaf(items) => Lookup(items, k).Some? && Without(items, k) == []
    case Inner(kids) => |kids| == 1 && (assert kids[0].value < kids[0]; Goes(kids[0].value, k))
  }

  lemma {:induction false} GoesIff(rank: Rank, node: Node, k: Key)
    ensures Goes(node, k) <==> Delete(rank, node, k).None?
    decreases node
  {
    if node.Inner? && node.kids != [] {
      var kids, i := node.kids, Index(node.kids, k, 0);
      assert kids[i] in kids && kids[i].value < kids[i];
      GoesIff(rank, kids[i].value, k);
    }
  }

  /** Deleting `k`, if it is there, makes the search for `x` go astray: in a node on the path of `k`, unless all but one child goes. */
  predicate LostByDelete(rank: Rank, node: Node, k: Key, x: Key)
    decreases node
  {
    node.Inner? && Get(node, k).Some? &&
    var kids, i, j := node.kids, Index(node.kids, k, 0), Index(node.kids, x, 0);
    assert kids[i] in kids && kids[i].value < kids[i];
    var gone := Goes(kids[i].value, k);
    || (j == i && LostByDelete(rank, kids[i].value, k, x))
    || ((gone ==> |kids| > 2) && Chosen(Remaining(rank, kids, i, gone), x).value != Old(j))
  }

  /** What is in the children, one of them replaced. */
  lemma PutBackItem(rank: Rank, kids: seq<Entry<Node>>, i: nat, n: Node, k: Key, x: Key)
    requires Routed(Inner(kids)) && i == Index(kids, k, 0) && HasKey(Items(Inner(Refitted(rank, kids, i, Whole(n)))), x)
    requires HasKey(Items(n), x) ==> x != k && HasKey(Items(kids[i].value), x)
    ensures x != k && HasKey(Items(Inner(kids)), x)
  {
    var e := ItemsKid(Refitted(rank, kids, i, Whole(n)), x);
    PlaceMembers(rank, kids, kids[i].key, n, e);
    if e in kids && e.key != kids[i].key { KidElsewhere(kids, e, i, k, x); } else { KidItems(kids, kids[i], x); }
  }

  /** What is in the other children. */
  lemma RestItem(kids: seq<Entry<Node>>, i: nat, k: Key, x: Key)
    requires Routed(Inner(kids)) && i == Index(kids, k, 0)
    requires var rest := kids[..i] + kids[i + 1..];
             rest != [] && HasKey(Items(if |rest| == 1 then rest[0].value else Inner(rest)), x)
    ensures x != k && HasKey(Items(Inner(kids)), x)
  {
    var rest := kids[..i] + kids[i + 1..];
    var e := rest[0];
    if |rest| > 1 { e := ItemsKid(rest, x); }
    var p :| 0 <= p < |rest| && rest[p] == e;
    assert rest[p] == kids[Was(i, p)];
    assert kids[Was(i, p)].key != kids[i].key;
    KidElsewhere(kids, e, i, k, x);
  }

  lemma DeleteInner(rank: Rank, kids: seq<Entry<Node>>, k: Key)
    requires Get(Inner(kids), k).Some?
    ensures var i := Index(kids, k, 0);
            && Get(kids[i].value, k).Some?
            && Delete(rank, Inner(kids), k) == Settled(rank, kids, i, Delete(rank, kids[i].value, k))
  {
  }

  /** A deletion adds no key, and takes the one deleted. */
  lemma {:induction false} DeleteItem(rank: Rank, node: Node, k: Key, x: Key)
    requires Routed(node) && Delete(rank, node, k).Some? && HasKey(Items(Delete(rank, node, k).value), x)
    ensures x != k && HasKey(Items(node), x)
    decreases node
  {
    RoutedFinds(node, k);
    if Get(node, k).Some? {
      match node
      case Leaf(items) => LookupLeaf(items, k, x);
      case Inner(kids) =>
        var i := Index(kids, k, 0);
        assert kids[i] in kids && kids[i].value < kids[i];
        KidRouted(kids, i);
        DeleteInner(rank, kids, k);
        var r := Delete(rank, kids[i].value, k);
        if r.Some? {
          if HasKey(Items(r.value), x) { DeleteItem(rank, kids[i].value, k, x); }
          PutBackItem(rank, kids, i, r.value, k, x);
        } else {
          RestItem(kids, i, k, x);
        }
    }
  }

  lemma KidElsewhere(kids: seq<Entry<Node>>, e: Entry<Node>, i: nat, k: Key, x: Key)
    requires Routed(Inner(kids)) && i == Index(kids, k, 0) && e in kids && e.key != kids[i].key && HasKey(Items(e.value), x)
    ensures x != k && HasKey(Items(Inner(kids)), x)
  {
    KidItems(kids, e, x);
    assert Leads(kids, e);
  }

  lemma LookupLeaf(items: seq<Entry<string>>, k: Key, x: Key)
    requires HasKey(Without(items, k), x)
    ensures x != k && HasKey(items, x)
  {
    var w := Without(items, k);
    var p :| 0 <= p < |w| && w[p].key == x;
    WithoutMembers(items, k, w[p]);
    HasKeyIn(items, w[p]);
  }

  lemma DeleteStep(rank: Rank, kids: seq<Entry<Node>>, k: Key)
    requires Routed(Inner(kids))
    ensures var i := Index(kids, k, 0);
            var r := Delete(rank, kids[i].value, k);
            r.Some? ==> Step(kids, i, Whole(r.value), None, k) && |Refitted(rank, kids, i, Whole(r.value))| == |Names(rank, kids, i, None)|
  {
    var i := Index(kids, k, 0);
    var r := Delete(rank, kids[i].value, k);
    KidRouted(kids, i);
    if r.Some? {
      NamesStand(rank, kids, i, Whole(r.value), None);
      forall y | OutcomeItem(Whole(r.value), y) ensures Present(kids[i].value, k, y) {
        DeleteItem(rank, kids[i].value, k, y);
      }
    }
  }

  /** Where the children besides `i` stand. */
  lemma RestSpots(kids: seq<Entry<Node>>, i: nat, x: Key)
    requires i < |kids| && |kids| > 1
    ensures var rest, spots := kids[..i] + kids[i + 1..], Spots(kids)[..i] + Spots(kids)[i + 1..];
            var m := Was(i, Index(rest, x, 0));
            m < |kids| && m != i && Chosen(rest, x) == kids[m] && Chosen(spots, x).value == Old(m)
  {
    var rest, s := kids[..i] + kids[i + 1..], Spots(kids);
    var spots := s[..i] + s[i + 1..];
    var n := kids[i].value;
    RestRelated(kids, i, n, n);
    IndexRelated(Stands(kids, n, n), rest, spots, x, 0);
    var q := Index(rest, x, 0);
    assert rest[q] == kids[Was(i, q)] && spots[q] == s[Was(i, q)];
  }

  /** What is found once child `i` is gone. */
  lemma RestFinds(kids: seq<Entry<Node>>, i: nat, x: Key)
    requires Routed(Inner(kids)) && i < |kids| && |kids| > 1 && Index(kids, x, 0) != i
    ensures var rest, spots := kids[..i] + kids[i + 1..], Spots(kids)[..i] + Spots(kids)[i + 1..];
            Get(Inner(rest), x) == if Chosen(spots, x).value != Old(Index(kids, x, 0)) then None else Get(Inner(kids), x)
  {
    var rest := kids[..i] + kids[i + 1..];
    var m := Was(i, Index(rest, x, 0));
    RestSpots(kids, i, x);
    GetInner(rest, x);
    GetInner(kids, x);
    if Get(kids[m].value, x).Some? {
      GetHas(kids[m].value, x);
      OnlyAtHome(kids, m, x);
    }
  }

  ghost predicate Kept(rank: Rank, node: Node, k: Key, x: Key)
  {
    var r := Delete(rank, node, k);
    r.Some? && Get(r.value, x) == if LostByDelete(rank, node, k, x) then None else Get(node, x)
  }

  lemma PutBackTold(rank: Rank, kids: seq<Entry<Node>>, k: Key, x: Key)
    requires Routed(Inner(kids)) && Get(Inner(kids), k).Some? && Delete(rank, kids[Index(kids, k, 0)].value, k).Some?
    requires Index(kids, x, 0) == Index(kids, k, 0) ==> Kept(rank, kids[Index(kids, k, 0)].value, k, x)
    ensures Kept(rank, Inner(kids), k, x)
  {
    var i := Index(kids, k, 0);
    var o := Whole(Delete(rank, kids[i].value, k).value);
    DeleteStep(rank, kids, k);
    GetInner(kids, x);
    GoesIff(rank, kids[i].value, k);
    StepFinds(rank, kids, i, o, None, k, |Names(rank, kids, i, None)|, false, x, false);
    DeleteInner(rank, kids, k);
  }

  lemma DeleteRest(rank: Rank, kids: seq<Entry<Node>>, k: Key)
    requires kids != [] && Delete(rank, kids[Index(kids, k, 0)].value, k).None?
    ensures var i := Index(kids, k, 0);
            var rest := kids[..i] + kids[i + 1..];
            Delete(rank, Inner(kids), k) == if rest == [] then None else if |rest| == 1 then Some(rest[0].value) else Some(Inner(rest))
  {
  }

  lemma LostRest(rank: Rank, kids: seq<Entry<Node>>, k: Key, x: Key)
    requires kids != [] && Delete(rank, kids[Index(kids, k, 0)].value, k).None? && Index(kids, x, 0) != Index(kids, k, 0)
    ensures var i := Index(kids, k, 0);
            LostByDelete(rank, Inner(kids), k, x)
            <==> |kids| > 2 && Chosen(Spots(kids)[..i] + Spots(kids)[i + 1..], x).value != Old(Index(kids, x, 0))
  {
    GoesIff(rank, kids[Index(kids, k, 0)].value, k);
  }

  lemma RestGets(kids: seq<Entry<Node>>, i: nat, x: Key)
    requires Routed(Inner(kids)) && i < |kids| && |kids| > 1 && Index(kids, x, 0) != i
    ensures var rest, spots := kids[..i] + kids[i + 1..], Spots(kids)[..i] + Spots(kids)[i + 1..];
            Get(if |rest| == 1 then rest[0].value else Inner(rest), x)
            == if |kids| > 2 && Chosen(spots, x).value != Old(Index(kids, x, 0)) then None else Get(Inner(kids), x)
  {
    if |kids| == 2 {
      GetInner(kids, x);
      assert kids[..i] + kids[i + 1..] == [kids[Index(kids, x, 0)]];
    } else {
      RestFinds(kids, i, x);
    }
  }

  lemma RestTold(rank: Rank, kids: seq<Entry<Node>>, k: Key, x: Key)
    requires Routed(Inner(kids)) && Delete(rank, kids[Index(kids, k, 0)].value, k).None? && Index(kids, x, 0) != Index(kids, k, 0)
    ensures Kept(rank, Inner(kids), k, x)
  {
    DeleteRest(rank, kids, k);
    LostRest(rank, kids, k, x);
    RestGets(kids, Index(kids, k, 0), x);
  }

  /** What a deletion does to another key of the tree. */
  lemma {:induction false} DeleteTold(rank: Rank, node: Node, k: Key, x: Key)
    requires Routed(node) && x != k && HasKey(Items(node), x)
    ensures Kept(rank, node, k, x)
    decreases node
  {
    if Get(node, k).Some? {
      match node
      case Leaf(items) =>
        LookupThere(items, x);
        WithoutLookup(items, k, x);
      case Inner(kids) =>
        var i := Index(kids, k, 0);
        assert kids[i] in kids && kids[i].value < kids[i];
        KidRouted(kids, i);
        var e := ItemsKid(kids, x);
        assert Leads(kids, e);
        if Index(kids, x, 0) == i { DeleteTold(rank, kids[i].value, k, x); }
        DeleteInner(rank, kids, k);
        if Delete(rank, kids[i].value, k).Some? { PutBackTold(rank, kids, k, x); } else { RestTold(rank, kids, k, x); }
    }
  }

  /**
   Deleting from any tree that can be searched, under any locale: another key is lost exactly when the
   names left over lead its search astray, or those of a child that was put back behind its ties.
   */
  lemma DeleteLosesByIff(rank: Rank, root: Node, k: Key, x: Key)
    requires Routed(root)
    ensures Find(Delete(rank, root, k), x) == if x == k || LostByDelete(rank, root, k, x) then None else Get(root, x)
  {
    RoutedFinds(root, x);
    var r := Delete(rank, root, k);
    if x != k && HasKey(Items(root), x) {
      DeleteTold(rank, root, k, x);
    } else if r.Some? && Get(r.value, x).Some? {
      GetHas(r.value, x);
      DeleteItem(rank, root, k, x);
    }
  }

  ghost predicate SafeToDelete(rank: Rank, root: Node, k: Key)
  {
    forall x | x != k && Get(root, x).Some? :: !LostByDelete(rank, root, k, x)
  }

  lemma {:induction false} DeleteRouted(rank: Rank, node: Node, k: Key)
    requires Routed(node) && SafeToDelete(rank, node, k) && Delete(rank, node, k).Some?
    ensures Routed(Delete(rank, node, k).value)
    decreases node
  {
    if Get(node, k).Some? {
      match node
      case Leaf(items) => WithoutDistinct(items, k);
      case Inner(kids) =>
        var i := Index(kids, k, 0);
        assert kids[i] in kids && kids[i].value < kids[i];
        KidRouted(kids, i);
        forall x | x != k && Get(kids[i].value, x).Some? ensures !LostByDelete(rank, kids[i].value, k, x) {
          GetHas(kids[i].value, x);
          OnlyAtHome(kids, i, x);
          GetInner(kids, x);
        }
        DeleteInner(rank, kids, k);
        if Delete(rank, kids[i].value, k).Some? {
          DeleteRouted(rank, kids[i].value, k);
          DeletePutBack(rank, kids, k);
        } else {
          RestRouted(rank, kids, k);
        }
    }
  }

  /** Where a key of the remaining tree lies. */
  lemma DeletedKey(rank: Rank, node: Node, k: Key, y: Key)
    requires Routed(node) && SafeToDelete(rank, node, k) && Delete(rank, node, k).Some? && HasKey(Items(Delete(rank, node, k).value), y)
    ensures y != k && !LostByDelete(rank, node, k, y)
  {
    DeleteItem(rank, node, k, y);
    RoutedFinds(node, y);
  }

  lemma PutBackRouted(rank: Rank, kids: seq<Entry<Node>>, i: nat, n: Node, k: Key)
    requires i < |kids| && Step(kids, i, Whole(n), None, k) && Routed(n)
    requires forall y | HasKey(Items(Inner(Refitted(rank, kids, i, Whole(n)))), y) ::
               Chosen(Names(rank, kids, i, None), y).value == Old(Index(kids, y, 0))
    ensures Routed(Inner(Refitted(rank, kids, i, Whole(n))))
  {
    var s, t, rel := Refitted(rank, kids, i, Whole(n)), Names(rank, kids, i, None), StandsAfter(kids, i, Whole(n));
    NamesStand(rank, kids, i, Whole(n), None);
    NamesDistinct(rank, kids, i, None);
    RelatedDistinct(rel, s, t);
    forall p | 0 <= p < |s| ensures Routed(s[p].value) && Leads(s, s[p]) {
      RefittedEntry(rank, kids, i, Whole(n), s[p]);
      forall y | HasKey(Items(s[p].value), y) ensures Chosen(s, y) == s[p] {
        KidItems(s, s[p], y);
        StepHolds(rank, kids, i, Whole(n), None, k, |t|, false, y, false, p);
        IndexRelated(rel, s, t, y, 0);
        SpotOnce(rank, kids, i, None, Index(t, y, 0), p);
      }
    }
  }

  lemma DeletePutBack(rank: Rank, kids: seq<Entry<Node>>, k: Key)
    requires Routed(Inner(kids)) && SafeToDelete(rank, Inner(kids), k)
    requires Get(Inner(kids), k).Some?
    requires var r := Delete(rank, kids[Index(kids, k, 0)].value, k); r.Some? && Routed(r.value)
    ensures Routed(Delete(rank, Inner(kids), k).value)
  {
    var i := Index(kids, k, 0);
    var n := Delete(rank, kids[i].value, k).value;
    DeleteStep(rank, kids, k);
    DeleteInner(rank, kids, k);
    forall y | HasKey(Items(Inner(Refitted(rank, kids, i, Whole(n)))), y)
      ensures Chosen(Names(rank, kids, i, None), y).value == Old(Index(kids, y, 0))
    {
      DeletedKey(rank, Inner(kids), k, y);
      StaysFindable(rank, kids, k, y);
    }
    PutBackRouted(rank, kids, i, n, k);
  }

  lemma StaysFindable(rank: Rank, kids: seq<Entry<Node>>, k: Key, y: Key)
    requires Get(Inner(kids), k).Some? && !LostByDelete(rank, Inner(kids), k, y)
    ensures var i := Index(kids, k, 0);
            var gone := Delete(rank, kids[i].value, k).None?;
            (gone ==> |kids| > 2) ==>
              Remaining(rank, kids, i, gone) != [] && Chosen(Remaining(rank, kids, i, gone), y).value == Old(Index(kids, y, 0))
  {
    GoesIff(rank, kids[Index(kids, k, 0)].value, k);
  }

  lemma RestLeads(kids: seq<Entry<Node>>, i: nat, p: nat, y: Key)
    requires Routed(Inner(kids)) && i < |kids| && |kids| > 2
    requires var rest := kids[..i] + kids[i + 1..]; p < |rest| && HasKey(Items(rest[p].value), y)
    requires Chosen(Spots(kids)[..i] + Spots(kids)[i + 1..], y).value == Old(Index(kids, y, 0))
    ensures var rest := kids[..i] + kids[i + 1..]; Chosen(rest, y) == rest[p]
  {
    var rest := kids[..i] + kids[i + 1..];
    assert rest[p] == kids[Was(i, p)];
    OnlyAtHome(kids, Was(i, p), y);
    RestSpots(kids, i, y);
  }

  lemma RestLeadsAll(rank: Rank, kids: seq<Entry<Node>>, k: Key, p: nat)
    requires Routed(Inner(kids)) && SafeToDelete(rank, Inner(kids), k)
    requires Delete(rank, kids[Index(kids, k, 0)].value, k).None? && |kids| > 2 && p < |kids| - 1
    ensures var i := Index(kids, k, 0);
            var rest := kids[..i] + kids[i + 1..];
            Leads(rest, rest[p])
  {
    var i := Index(kids, k, 0);
    var rest := kids[..i] + kids[i + 1..];
    assert Delete(rank, Inner(kids), k) == Some(Inner(rest));
    forall y | HasKey(Items(rest[p].value), y) ensures Chosen(rest, y) == rest[p] {
      KidItems(rest, rest[p], y);
      DeletedKey(rank, Inner(kids), k, y);
      StaysFindable(rank, kids, k, y);
      RestLeads(kids, i, p, y);
    }
  }

  lemma RestDistinct(kids: seq<Entry<Node>>, i: nat)
    requires Distinct(kids) && i < |kids|
    ensures Distinct(kids[..i] + kids[i + 1..])
  {
    var rest := kids[..i] + kids[i + 1..];
    forall p, q | 0 <= p < q < |rest| ensures rest[p].key != rest[q].key {
      assert rest[p] == kids[Was(i, p)] && rest[q] == kids[Was(i, q)];
    }
  }

  ghost predicate AllRouted(kids: seq<Entry<Node>>) { forall p | 0 <= p < |kids| :: Routed(kids[p].value) }

  ghost predicate AllLead(kids: seq<Entry<Node>>)
    requires kids != []
  {
    forall p | 0 <= p < |kids| :: Leads(kids, kids[p])
  }

  lemma RoutedNode(kids: seq<Entry<Node>>)
    requires kids != [] && Distinct(kids) && AllRouted(kids) && AllLead(kids)
    ensures Routed(Inner(kids))
  {
  }

  lemma RestKidsRouted(kids: seq<Entry<Node>>, i: nat)
    requires Routed(Inner(kids)) && i < |kids|
    ensures AllRouted(kids[..i] + kids[i + 1..])
  {
    var rest := kids[..i] + kids[i + 1..];
    forall p | 0 <= p < |rest| ensures Routed(rest[p].value) {
      assert rest[p] == kids[Was(i, p)];
      KidRouted(kids, Was(i, p));
    }
  }

  lemma RestAllLead(rank: Rank, kids: seq<Entry<Node>>, k: Key)
    requires Routed(Inner(kids)) && SafeToDelete(rank, Inner(kids), k)
    requires Delete(rank, kids[Index(kids, k, 0)].value, k).None? && |kids| > 2
    ensures var i := Index(kids, k, 0); AllLead(kids[..i] + kids[i + 1..])
  {
    var i := Index(kids, k, 0);
    var rest := kids[..i] + kids[i + 1..];
    forall p | 0 <= p < |rest| ensures Leads(rest, rest[p]) {
      RestLeadsAll(rank, kids, k, p);
    }
  }

  lemma RestRouted(rank: Rank, kids: seq<Entry<Node>>, k: Key)
    requires Routed(Inner(kids)) && SafeToDelete(rank, Inner(kids), k)
    requires Delete(rank, kids[Index(kids, k, 0)].value, k).None? && |kids| > 1
    ensures Routed(Delete(rank, Inner(kids), k).value)
  {
    var i := Index(kids, k, 0);
    DeleteRest(rank, kids, k);
    RestKidsRouted(kids, i);
    if |kids| > 2 {
      RestDistinct(kids, i);
      RestAllLead(rank, kids, k);
      RoutedNode(kids[..i] + kids[i + 1..]);
    }
  }

  // ---- runs of changes ----

  ghost predicate SafeChangeBy(rank: Rank, most: nat, root: Option<Node>, c: Change)
    requires most >= 1
  {
    match c
    case Added(k, v) => root.None? || Get(root.value, k) == Some(v) || SafeBy(rank, root.value, k, most)
    case Removed(k) => root.None? || SafeToDelete(rank, root.value, k)
  }

  /** Every change of the run is safe when its turn comes. */
  ghost predicate SafeRunBy(rank: Rank, most: nat, root: Option<Node>, changes: seq<Change>)
    requires most >= 1
    decreases |changes|
  {
    changes != [] ==>
      SafeChangeBy(rank, most, root, changes[0]) && SafeRunBy(rank, most, Next(rank, most, root, changes[0]), changes[1..])
  }

  ghost predicate Searchable(root: Option<Node>) { root.Some? ==> Routed(root.value) }

  /** One change: a tree that finds exactly what it should does so afterwards exactly if the change is safe. */
  lemma ChangeByIff(rank: Rank, most: nat, root: Option<Node>, m: map<Key, string>, c: Change)
    requires most >= 1 && Exact(root, m) && Searchable(root)
    ensures Exact(Next(rank, most, root, c), Update(m, c)) <==> SafeChangeBy(rank, most, root, c)
    ensures SafeChangeBy(rank, most, root, c) ==> Searchable(Next(rank, most, root, c))
  {
    if root.None? {
      NothingYet(rank, most, m, c);
    } else if c.Added? {
      AddedByIff(rank, most, root.value, m, c.key, c.value);
    } else {
      RemovedByIff(rank, root.value, m, c.key);
    }
  }

  lemma NothingYet(rank: Rank, most: nat, m: map<Key, string>, c: Change)
    requires Exact(None, m)
    ensures Exact(Next(rank, most, None, c), Update(m, c)) && Searchable(Next(rank, most, None, c))
  {
    forall x ensures Find(Next(rank, most, None, c), x) == if x in Update(m, c) then Some(Update(m, c)[x]) else None {
      assert x !in m by { assert Find(None, x) == None; }
      if c.Added? { LookupOne(Entry(c.key, c.value), x); }
    }
  }

  lemma AddedByIff(rank: Rank, most: nat, root: Node, m: map<Key, string>, k: Key, v: string)
    requires most >= 1 && Exact(Some(root), m) && Routed(root)
    ensures var next, safe := Put(rank, most, Some(root), k, v), Get(root, k) == Some(v) || SafeBy(rank, root, k, most);
            (Exact(Some(next), m[k := v]) <==> safe) && (safe ==> Routed(next))
  {
    var next, m' := Put(rank, most, Some(root), k, v), m[k := v];
    PutKeepsAllByIff(rank, most, root, k, v);
    if Get(root, k) == Some(v) || SafeBy(rank, root, k, most) { PutRouted(rank, most, root, k, v); }
    forall x ensures Wanted(root, k, v, x) == if x in m' then Some(m'[x]) else None {
      assert Find(Some(root), x) == if x in m then Some(m[x]) else None;
    }
    assert forall x :: Find(Some(next), x) == Get(next, x);
  }

  lemma RemovedByIff(rank: Rank, root: Node, m: map<Key, string>, k: Key)
    requires Exact(Some(root), m) && Routed(root)
    ensures Exact(Delete(rank, root, k), m - {k}) <==> SafeToDelete(rank, root, k)
    ensures SafeToDelete(rank, root, k) ==> Searchable(Delete(rank, root, k))
  {
    var next, m' := Delete(rank, root, k), m - {k};
    forall x ensures Find(next, x) == (if x == k || LostByDelete(rank, root, k, x) then None else Get(root, x))
                     && (if x in m' then Some(m'[x]) else None) == (if x == k then None else Get(root, x))
    {
      DeleteLosesByIff(rank, root, k, x);
      assert Find(Some(root), x) == if x in m then Some(m[x]) else None;
    }
    if SafeToDelete(rank, root, k) {
      if next.Some? { DeleteRouted(rank, root, k); }
    } else {
      var x :| x != k && Get(root, x).Some? && LostByDelete(rank, root, k, x);
      assert Find(next, x) == None;
    }
  }

  lemma {:induction false} RunByIff(rank: Rank, most: nat, root: Option<Node>, m: map<Key, string>, changes: seq<Change>)
    requires most >= 1 && Exact(root, m) && Searchable(root)
    ensures StaysExact(rank, most, root, m, changes) <==> SafeRunBy(rank, most, root, changes)
    decreases |changes|
  {
    if changes != [] {
      ChangeByIff(rank, most, root, m, changes[0]);
      if SafeChangeBy(rank, most, root, changes[0]) {
        RunByIff(rank, most, Next(rank, most, root, changes[0]), Update(m, changes[0]), changes[1..]);
      }
    }
  }

  /**
   Any series of insertions and deletions, under any locale and in any order of the tree: after every
   change the tree finds exactly what was put into it and not taken out, if and only if every change is
   safe when its turn comes.
   */
  lemma RunFindsByIff(rank: Rank, most: nat, changes: seq<Change>)
    requires most >= 1
    ensures StaysExact(rank, most, None, map[], changes) <==> SafeRunBy(rank, most, None, changes)
  {
    RunByIff(rank, most, None, map[], changes);
  }

  /** Where the locale sorts as `<` does, deletions are always safe and the two notions of a safe run are one. */
  lemma SafeRunsAgree(rank: Rank, most: nat, changes: seq<Change>)
    requires most >= 1 && AgreeRun(rank, None, changes)
    ensures SafeRunBy(rank, most, None, changes) <==> SafeRun(rank, most, None, changes)
  {
    RunFindsByIff(rank, most, changes);
    RunFindsIff(rank, most, changes);
  }

  // ---- the listings stay in the order of the locale ----

  /** Every node lists its entries as the locale sorts them. */
  predicate Listed(rank: Rank, node: Node)
    decreases node
  {
    match node
    case Leaf(items) => InRank(rank, items)
    case Inner(kids) => InRank(rank, kids) && forall e | e in kids :: (assert e.value < e; Listed(rank, e.value))
  }

  lemma RankCons<T>(rank: Rank, e: Entry<T>, s: seq<Entry<T>>)
    requires InRank(rank, s) && forall f | f in s :: rank(e.key) <= rank(f.key)
    ensures InRank(rank, [e] + s)
  {
  }

  lemma RankTail<T>(rank: Rank, s: seq<Entry<T>>)
    requires InRank(rank, s) && s != []
    ensures InRank(rank, s[1..]) && forall f | f in s[1..] :: rank(s[0].key) <= rank(f.key)
  {
  }

  lemma {:induction false} WithoutInRank<T>(rank: Rank, s: seq<Entry<T>>, k: Key)
    requires InRank(rank, s)
    ensures InRank(rank, Without(s, k))
  {
    if s != [] {
      RankTail(rank, s);
      WithoutInRank(rank, s[1..], k);
      if s[0].key != k {
        forall f | f in Without(s[1..], k) ensures rank(s[0].key) <= rank(f.key) { WithoutMembers(s[1..], k, f); }
        RankCons(rank, s[0], Without(s[1..], k));
      }
    }
  }

  lemma {:induction false} SinkInRank<T>(rank: Rank, s: seq<Entry<T>>, e: Entry<T>)
    requires InRank(rank, s)
    ensures InRank(rank, Sink(rank, s, e))
  {
    if s != [] { RankTail(rank, s); }
    if s == [] || rank(e.key) < rank(s[0].key) {
      forall f | f in s ensures rank(e.key) <= rank(f.key) {
        if f != s[0] { assert f in s[1..]; }
      }
      RankCons(rank, e, s);
    } else {
      SinkInRank(rank, s[1..], e);
      forall f | f in Sink(rank, s[1..], e) ensures rank(s[0].key) <= rank(f.key) { SinkMembers(rank, s[1..], e, f); }
      RankCons(rank, s[0], Sink(rank, s[1..], e));
    }
  }

  lemma PlaceInRank<T>(rank: Rank, s: seq<Entry<T>>, k: Key, v: T)
    requires InRank(rank, s)
    ensures InRank(rank, Place(rank, s, k, v))
  {
    WithoutInRank(rank, s, k);
    SinkInRank(rank, Without(s, k), Entry(k, v));
  }

  lemma RestInRank(rank: Rank, kids: seq<Entry<Node>>, i: nat)
    requires InRank(rank, kids) && i < |kids|
    ensures InRank(rank, kids[..i] + kids[i + 1..])
  {
    var rest := kids[..i] + kids[i + 1..];
    forall p, q | 0 <= p < q < |rest| ensures rank(rest[p].key) <= rank(rest[q].key) {
      assert rest[p] == kids[Was(i, p)] && rest[q] == kids[Was(i, q)];
    }
  }

  predicate OutcomeListed(rank: Rank, o: Outcome)
  {
    match o
    case Whole(n) => Listed(rank, n)
    case Halves(l, r) => Listed(rank, l) && Listed(rank, r)
  }

  lemma RefittedListed(rank: Rank, kids: seq<Entry<Node>>, i: nat, o: Outcome)
    requires Listed(rank, Inner(kids)) && i < |kids| && OutcomeListed(rank, o)
    ensures Listed(rank, Inner(Refitted(rank, kids, i, o)))
  {
    var s := Refitted(rank, kids, i, o);
    match o {
      case Whole(n) => PlaceInRank(rank, kids, kids[i].key, n);
      case Halves(l, r) =>
        var rest := kids[..i] + kids[i + 1..];
        RestInRank(rank, kids, i);
        PlaceInRank(rank, rest, FirstName(l), l);
        PlaceInRank(rank, Place(rank, rest, FirstName(l), l), FirstName(r), r);
    }
    forall e | e in s ensures (assert e.value < e; Listed(rank, e.value)) {
      RefittedEntry(rank, kids, i, o, e);
    }
  }

  lemma DivideListed(rank: Rank, node: Node, most: nat)
    requires Listed(rank, node)
    ensures OutcomeListed(rank, Divide(node, most))
  {
  }

  lemma {:induction false} InsertListed(rank: Rank, most: nat, node: Node, k: Key, v: string)
    requires Listed(rank, node)
    ensures OutcomeListed(rank, Insert(rank, most, node, k, v))
    decreases node
  {
    match node
    case Leaf(items) =>
      PlaceInRank(rank, items, k, v);
      DivideListed(rank, Leaf(Place(rank, items, k, v)), most);
    case Inner(kids) =>
      if kids != [] {
        var i := Index(kids, k, 0);
        assert kids[i] in kids && kids[i].value < kids[i];
        InsertListed(rank, most, kids[i].value, k, v);
        var o := Insert(rank, most, kids[i].value, k, v);
        RefittedListed(rank, kids, i, o);
        DivideListed(rank, Inner(Refitted(rank, kids, i, o)), most);
      }
  }

  lemma PutListed(rank: Rank, most: nat, root: Node, k: Key, v: string)
    requires Listed(rank, root)
    ensures Listed(rank, Put(rank, most, Some(root), k, v))
  {
    InsertListed(rank, most, root, k, v);
    var o := Insert(rank, most, root, k, v);
    if o.Halves? {
      var kids := UnderRoot(root);
      assert kids[..0] + kids[1..] == [];
      RefittedListed(rank, kids, 0, o);
    }
  }

  lemma {:induction false} DeleteListed(rank: Rank, node: Node, k: Key)
    requires Listed(rank, node) && Delete(rank, node, k).Some?
    ensures Listed(rank, Delete(rank, node, k).value)
    decreases node
  {
    if Get(node, k).Some? {
      match node
      case Leaf(items) => WithoutInRank(rank, items, k);
      case Inner(kids) =>
        var i := Index(kids, k, 0);
        assert kids[i] in kids && kids[i].value < kids[i];
        var r := Delete(rank, kids[i].value, k);
        DeleteInner(rank, kids, k);
        RestInRank(rank, kids, i);
        if r.Some? {
          DeleteListed(rank, kids[i].value, k);
          RefittedListed(rank, kids, i, Whole(r.value));
        }
    }
  }

  /**
   Whatever is inserted and deleted, under any locale, every listing of the tree stays in its order, so
   that putting an entry behind those it does not come before is what the stable sort does.
   */
  lemma {:induction false} AlwaysListed(rank: Rank, most: nat, root: Option<Node>, changes: seq<Change>)
    requires root.Some? ==> Listed(rank, root.value)
    ensures var t := After(rank, most, root, changes); t.Some? ==> Listed(rank, t.value)
    decreases |changes|
  {
    if changes != [] {
      var next := Next(rank, most, root, changes[0]);
      if root.Some? && changes[0].Added? {
        PutListed(rank, most, root.value, changes[0].key, changes[0].value);
      } else if root.Some? && next.Some? {
        DeleteListed(rank, root.value, changes[0].key);
      }
      AlwaysListed(rank, most, next, changes[1..]);
    }
  }

  // ---- a deletion that loses another key ----

  lemma SinkLast(rank: Rank, s: seq<Entry<string>>, e: Entry<string>)
    requires forall f | f in s :: rank(f.key) <= rank(e.key)
    ensures Sink(rank, s, e) == s + [e]
  {
    if s != [] {
      assert forall f | f in s[1..] :: f in s;
      assert s == [s[0]] + s[1..] && s[0] in s;
      SinkLast(rank, s[1..], e);
    }
  }

  lemma FourRanked(rank: Rank, a: Entry<string>, b: Entry<string>, c: Entry<string>, d: Entry<string>)
    requires rank(a.key) <= rank(b.key) <= rank(c.key) <= rank(d.key)
    ensures Ranked(rank, [a, b, c, d]) == [a, b, c, d]
  {
    var four, three, two := [a, b, c, d], [a, b, c], [a, b];
    assert four[..3] == three && three[..2] == two && two[..1] == [a] && [a][..0] == [];
    SinkLast(rank, [a], b);
    SinkLast(rank, two, c);
    SinkLast(rank, three, d);
    assert Ranked(rank, [a]) == Sink(rank, [], a) == [a];
    assert Ranked(rank, two) == Sink(rank, Ranked(rank, two[..1]), b) == two;
    assert Ranked(rank, three) == Sink(rank, Ranked(rank, three[..2]), c) == three;
  }

  lemma WithoutFirst<T>(e: Entry<T>, f: Entry<T>)
    requires e.key != f.key
    ensures Without([e, f], e.key) == [f] && Without([f], e.key) == [f]
  {
    assert [e, f][1..] == [f] && [f][1..] == [];
    assert Without([f], e.key) == [f] + Without([], e.key) == [f];
  }

  /**
   Keys the locale holds equal: in a tree of order 4, after inserting four keys in order, deleting the
   first puts its leaf behind the other one, and the third is no longer found.
   */
  lemma DeletionLosesTied(rank: Rank, a: Entry<string>, b: Entry<string>, c: Entry<string>, d: Entry<string>)
    requires a.key < b.key < c.key < d.key
    requires rank(a.key) == rank(b.key) == rank(c.key) && rank(c.key) <= rank(d.key)
    ensures var root := Filled(rank, 3, [a, b, c, d]).value;
            Get(root, c.key) == Some(c.value) && Find(Delete(rank, root, a.key), c.key) == None
  {
    var l, r := Leaf([a, b]), Leaf([c, d]);
    var el, er, l' := Entry(a.key, l), Entry(c.key, r), Entry(a.key, Leaf([b]));
    FourRanked(rank, a, b, c, d);
    FilledSplit(rank, 3, [a, b, c, d]);
    assert [a, b, c, d][..2] == [a, b] && [a, b, c, d][2..] == [c, d];
    var kids := [el, er];
    assert Filled(rank, 3, [a, b, c, d]) == Some(Inner(kids));
    assert Index(kids, a.key, 0) == 0 && Index(kids, c.key, 1) == 1 && Index(kids, c.key, 0) == 1;
    assert Get(Inner(kids), a.key) == Some(a.value);
    WithoutFirst(a, b);
    assert Delete(rank, l, a.key) == Some(l'.value);
    DeleteInner(rank, kids, a.key);
    WithoutFirst(el, er);
    PlaceInOne(rank, er, a.key, l'.value);
    assert Place(rank, kids, a.key, l'.value) == [er, l'];
    assert Delete(rank, Inner(kids), a.key) == Some(Inner([er, l']));
    LookupOne(b, c.key);
    assert Index([er, l'], c.key, 1) == 1 && Index([er, l'], c.key, 0) == 1;
    GetInner([er, l'], c.key);
  }
}
