/**
 Concrete runs of the B-tree: one that loses a key, and one whose range misses one.
 */
module BTreeRuns {
  import opened BTree
  import opened BTreeOrders
  import opened BTreeLoss
  import opened Wrappers

  // ---- a run that loses a key ----

  const VALUE := "v"

  function Plus(k: Key): Change { Added(k, VALUE) }

  function E(k: Key): Entry<string> { Entry(k, VALUE) }
  function One(a: Key): Node { Leaf([E(a)]) }
  function Two(a: Key, b: Key): Node { Leaf([E(a), E(b)]) }
  function Three(a: Key, b: Key, c: Key): Node { Leaf([E(a), E(b), E(c)]) }
  function N2(a: Key, x: Node, b: Key, y: Node): Node { Inner([Entry(a, x), Entry(b, y)]) }
  function N3(a: Key, x: Node, b: Key, y: Node, c: Key, z: Node): Node { Inner([Entry(a, x), Entry(b, y), Entry(c, z)]) }

  lemma LookupMany(a: Key, b: Key, c: Key, k: Key)
    ensures Lookup([E(a), E(b)], k) == if k == a || k == b then Some(VALUE) else None
    ensures Lookup([E(a), E(b), E(c)], k) == if k == a || k == b || k == c then Some(VALUE) else None
  {
    LookupOne(E(a), k);
    LookupOne(E(b), k);
    LookupOne(E(c), k);
    LookupConcat([E(a)], [E(b)], k);
    LookupConcat([E(a), E(b)], [E(c)], k);
    assert [E(a)] + [E(b)] == [E(a), E(b)] && [E(a), E(b)] + [E(c)] == [E(a), E(b), E(c)];
  }

  /** Filling a leaf from behind, and from the front. */
  lemma FillLeaf(a: Key, b: Key, c: Key, d: Key)
    requires a < b < c < d
    ensures Insert(Sorting, 3, One(a), b, VALUE) == Whole(Two(a, b)) && Get(One(a), b) == None
    ensures Insert(Sorting, 3, Two(a, b), c, VALUE) == Whole(Three(a, b, c)) && Get(Two(a, b), c) == None
    ensures Insert(Sorting, 3, Two(b, c), a, VALUE) == Whole(Three(a, b, c)) && Get(Two(b, c), a) == None
    ensures Insert(Sorting, 3, Three(a, b, c), d, VALUE) == Halves(Two(a, b), Two(c, d)) && Get(Three(a, b, c), d) == None
  {
    LookupOne(E(a), b);
    LookupMany(a, b, c, c);
    LookupMany(b, c, d, a);
    LookupMany(a, b, c, d);
    PlaceBetween(Sorting, [E(a)], [], b, VALUE);
    PlaceBetween(Sorting, [E(a), E(b)], [], c, VALUE);
    PlaceBetween(Sorting, [], [E(b), E(c)], a, VALUE);
    PlaceBetween(Sorting, [E(a), E(b), E(c)], [], d, VALUE);
    var four := [E(a), E(b), E(c), E(d)];
    assert [E(a)] + [] == [E(a)] && [E(a)] + [E(b)] + [] == [E(a), E(b)];
    assert [E(a), E(b)] + [] == [E(a), E(b)] && [E(a), E(b)] + [E(c)] + [] == [E(a), E(b), E(c)];
    assert [] + [E(b), E(c)] == [E(b), E(c)] && [] + [E(a)] + [E(b), E(c)] == [E(a), E(b), E(c)];
    assert [E(a), E(b), E(c)] + [] == [E(a), E(b), E(c)] && [E(a), E(b), E(c)] + [E(d)] + [] == four;
    assert four[..2] == [E(a), E(b)] && four[2..] == [E(c), E(d)];
  }

  /** One step down: what an insertion makes of an inner node, given what it makes of the chosen child. */
  lemma InsertAt(kids: seq<Entry<Node>>, i: nat, k: Key, o: Outcome)
    requires i < |kids| && i == Index(kids, k, 0) && Insert(Sorting, 3, kids[i].value, k, VALUE) == o
    ensures Insert(Sorting, 3, Inner(kids), k, VALUE) == Divide(Inner(Refitted(Sorting, kids, i, o)), 3)
    ensures Get(Inner(kids), k) == Get(kids[i].value, k)
  {
  }

  lemma RefitHalves(a: seq<Entry<Node>>, kid: Entry<Node>, c: seq<Entry<Node>>, l: Node, r: Node)
    requires FirstName(l) < FirstName(r) && Below(a, FirstName(l)) && Above(c, FirstName(r))
    ensures Refitted(Sorting, a + [kid] + c, |a|, Halves(l, r)) == a + [Entry(FirstName(l), l), Entry(FirstName(r), r)] + c
  {
    var kids := a + [kid] + c;
    assert kids[..|a|] == a && kids[|a| + 1..] == c;
    PlaceTwo(Sorting, a, c, Entry(FirstName(l), l), Entry(FirstName(r), r));
  }

  lemma InLast2(a: Key, x: Node, b: Key, y: Node, k: Key, o: Outcome)
    requires a < b <= k && Insert(Sorting, 3, y, k, VALUE) == o && (o.Halves? ==> a < FirstName(o.left) < FirstName(o.right))
    ensures Insert(Sorting, 3, N2(a, x, b, y), k, VALUE)
            == Whole(if o.Whole? then N2(a, x, b, o.node) else N3(a, x, FirstName(o.left), o.left, FirstName(o.right), o.right))
    ensures Get(N2(a, x, b, y), k) == Get(y, k)
  {
    var ea, eb := Entry(a, x), Entry(b, y);
    var kids := [ea, eb];
    IndexProps(kids, k, 0);
    InsertAt(kids, 1, k, o);
    if o.Halves? {
      RefitHalves([ea], eb, [], o.left, o.right);
      assert [ea] + [eb] + [] == kids;
      assert [ea] + [Entry(FirstName(o.left), o.left), Entry(FirstName(o.right), o.right)] + []
             == [ea, Entry(FirstName(o.left), o.left), Entry(FirstName(o.right), o.right)];
    } else {
      PlaceThere(Sorting, kids, 1, o.node);
      assert kids[1 := Entry(b, o.node)] == [ea, Entry(b, o.node)];
    }
  }

  lemma InFirst2(a: Key, x: Node, b: Key, y: Node, k: Key, o: Outcome)
    requires a < b && k < b && Insert(Sorting, 3, x, k, VALUE) == o && (o.Halves? ==> FirstName(o.left) < FirstName(o.right) < b)
    ensures Insert(Sorting, 3, N2(a, x, b, y), k, VALUE)
            == Whole(if o.Whole? then N2(a, o.node, b, y) else N3(FirstName(o.left), o.left, FirstName(o.right), o.right, b, y))
    ensures Get(N2(a, x, b, y), k) == Get(x, k)
  {
    var ea, eb := Entry(a, x), Entry(b, y);
    var kids := [ea, eb];
    InsertAt(kids, 0, k, o);
    if o.Halves? {
      RefitHalves([], ea, [eb], o.left, o.right);
      assert [] + [ea] + [eb] == kids;
      assert [] + [Entry(FirstName(o.left), o.left), Entry(FirstName(o.right), o.right)] + [eb]
             == [Entry(FirstName(o.left), o.left), Entry(FirstName(o.right), o.right), eb];
    } else {
      PlaceThere(Sorting, kids, 0, o.node);
      assert kids[0 := Entry(a, o.node)] == [Entry(a, o.node), eb];
    }
  }

  lemma InFirst3(a: Key, x: Node, b: Key, y: Node, c: Key, z: Node, k: Key, n: Node)
    requires a < b < c && k < b && Insert(Sorting, 3, x, k, VALUE) == Whole(n)
    ensures Insert(Sorting, 3, N3(a, x, b, y, c, z), k, VALUE) == Whole(N3(a, n, b, y, c, z))
    ensures Get(N3(a, x, b, y, c, z), k) == Get(x, k)
  {
    var kids := [Entry(a, x), Entry(b, y), Entry(c, z)];
    InsertAt(kids, 0, k, Whole(n));
    PlaceThere(Sorting, kids, 0, n);
    assert kids[0 := Entry(a, n)] == [Entry(a, n), Entry(b, y), Entry(c, z)];
  }

  lemma LastOfThree(ea: Entry<Node>, eb: Entry<Node>, ec: Entry<Node>, k: Key)
    requires ea.key < eb.key < ec.key <= k
    ensures Index([ea, eb, ec], k, 0) == 2
  {
    IndexProps([ea, eb, ec], k, 0);
  }

  lemma InLast3(a: Key, x: Node, b: Key, y: Node, c: Key, z: Node, k: Key, n: Node)
    requires a < b < c <= k && Insert(Sorting, 3, z, k, VALUE) == Whole(n)
    ensures Insert(Sorting, 3, N3(a, x, b, y, c, z), k, VALUE) == Whole(N3(a, x, b, y, c, n))
    ensures Get(N3(a, x, b, y, c, z), k) == Get(z, k)
  {
    var kids := [Entry(a, x), Entry(b, y), Entry(c, z)];
    LastOfThree(kids[0], kids[1], kids[2], k);
    InsertAt(kids, 2, k, Whole(n));
    PlaceThere(Sorting, kids, 2, n);
    assert kids[2 := Entry(c, n)] == [Entry(a, x), Entry(b, y), Entry(c, n)];
  }

  lemma SplitLast3(a: Key, x: Node, b: Key, y: Node, c: Key, z: Node, k: Key, l: Node, r: Node)
    requires a < b < c <= k && Insert(Sorting, 3, z, k, VALUE) == Halves(l, r) && b < FirstName(l) < FirstName(r)
    ensures Insert(Sorting, 3, N3(a, x, b, y, c, z), k, VALUE) == Halves(N2(a, x, b, y), N2(FirstName(l), l, FirstName(r), r))
    ensures Get(N3(a, x, b, y, c, z), k) == Get(z, k)
  {
    var ea, eb, ec, el, er := Entry(a, x), Entry(b, y), Entry(c, z), Entry(FirstName(l), l), Entry(FirstName(r), r);
    LastOfThree(ea, eb, ec, k);
    InsertAt([ea, eb, ec], 2, k, Halves(l, r));
    RefitHalves([ea, eb], ec, [], l, r);
    assert [ea, eb] + [ec] + [] == [ea, eb, ec];
    var four := [ea, eb, el, er];
    assert [ea, eb] + [el, er] + [] == four && four[..2] == [ea, eb] && four[2..] == [el, er];
  }

  /** Growing a new root over two halves. */
  lemma GrowTwo(root: Node, k: Key, l: Node, r: Node)
    requires Get(root, k) == None && Insert(Sorting, 3, root, k, VALUE) == Halves(l, r) && FirstName(l) < FirstName(r)
    ensures Put(Sorting, 3, Some(root), k, VALUE) == N2(FirstName(l), l, FirstName(r), r)
  {
    PlaceBetween(Sorting, [Entry(FirstName(l), l)], [], FirstName(r), r);
    assert [Entry(FirstName(l), l)] + [] == [Entry(FirstName(l), l)];
    assert [Entry(FirstName(l), l)] + [Entry(FirstName(r), r)] + [] == [Entry(FirstName(l), l), Entry(FirstName(r), r)];
  }

  function LeftHalf(): Node { N2(10, Two(10, 20), 30, Two(30, 40)) }

  /** Inserting 10, 20, up to 80 makes two halves of two leaves each. */
  lemma EightKeys()
    ensures After(Sorting, 3, None, [Plus(10), Plus(20), Plus(30), Plus(40), Plus(50), Plus(60), Plus(70), Plus(80)])
            == Some(N2(10, LeftHalf(), 50, N2(50, Two(50, 60), 70, Two(70, 80))))
  {
    FillLeaf(10, 20, 30, 40);
    var t4 := LeftHalf();
    GrowTwo(Three(10, 20, 30), 40, Two(10, 20), Two(30, 40));
    FillLeaf(30, 40, 50, 60);
    var t5 := N2(10, Two(10, 20), 30, Three(30, 40, 50));
    InLast2(10, Two(10, 20), 30, Two(30, 40), 50, Whole(Three(30, 40, 50)));
    var t6 := N3(10, Two(10, 20), 30, Two(30, 40), 50, Two(50, 60));
    InLast2(10, Two(10, 20), 30, Three(30, 40, 50), 60, Halves(Two(30, 40), Two(50, 60)));
    FillLeaf(50, 60, 70, 80);
    var t7 := N3(10, Two(10, 20), 30, Two(30, 40), 50, Three(50, 60, 70));
    InLast3(10, Two(10, 20), 30, Two(30, 40), 50, Two(50, 60), 70, Three(50, 60, 70));
    var right := N2(50, Two(50, 60), 70, Two(70, 80));
    SplitLast3(10, Two(10, 20), 30, Two(30, 40), 50, Three(50, 60, 70), 80, Two(50, 60), Two(70, 80));
    GrowTwo(t7, 80, LeftHalf(), right);
    var t8 := N2(10, LeftHalf(), 50, right);
    Steps8(One(10), Two(10, 20), Three(10, 20, 30), t4, t5, t6, t7, t8);
  }

  function Add(root: Node, k: Key): Node { Put(Sorting, 3, Some(root), k, VALUE) }

  lemma OneStep(all: seq<Change>, i: nat, root: Option<Node>, next: Option<Node>)
    requires i < |all| && Next(Sorting, 3, root, all[i]) == next
    ensures After(Sorting, 3, root, all[i..]) == After(Sorting, 3, next, all[i + 1..])
  {
    assert all[i..][0] == all[i] && all[i..][1..] == all[i + 1..];
  }

  lemma Steps8(t1: Node, t2: Node, t3: Node, t4: Node, t5: Node, t6: Node, t7: Node, t8: Node)
    requires t1 == One(10) && Add(t1, 20) == t2 && Add(t2, 30) == t3 && Add(t3, 40) == t4
    requires Add(t4, 50) == t5 && Add(t5, 60) == t6 && Add(t6, 70) == t7 && Add(t7, 80) == t8
    ensures After(Sorting, 3, None, [Plus(10), Plus(20), Plus(30), Plus(40), Plus(50), Plus(60), Plus(70), Plus(80)]) == Some(t8)
  {
    var all := [Plus(10), Plus(20), Plus(30), Plus(40), Plus(50), Plus(60), Plus(70), Plus(80)];
    assert all[0..] == all;
    OneStep(all, 0, None, Some(t1));
    OneStep(all, 1, Some(t1), Some(t2));
    OneStep(all, 2, Some(t2), Some(t3));
    OneStep(all, 3, Some(t3), Some(t4));
    OneStep(all, 4, Some(t4), Some(t5));
    OneStep(all, 5, Some(t5), Some(t6));
    OneStep(all, 6, Some(t6), Some(t7));
    OneStep(all, 7, Some(t7), Some(t8));
    assert After(Sorting, 3, Some(t8), all[8..]) == Some(t8);
  }

  lemma AfterConcat(root: Option<Node>, a: seq<Change>, b: seq<Change>)
    ensures After(Sorting, 3, root, a + b) == After(Sorting, 3, After(Sorting, 3, root, a), b)
    decreases |a|
  {
    if a == [] {
      assert a + b == b;
    } else {
      assert (a + b)[1..] == a[1..] + b;
      AfterConcat(Next(Sorting, 3, root, a[0]), a[1..], b);
    }
  }

  /** A change in the second half of the tree. */
  lemma AddRight(right: Node, k: Key, n: Node)
    requires 50 <= k && Get(right, k) == None && Insert(Sorting, 3, right, k, VALUE) == Whole(n)
    ensures Add(N2(10, LeftHalf(), 50, right), k) == N2(10, LeftHalf(), 50, n)
  {
    InLast2(10, LeftHalf(), 50, right, k, Whole(n));
  }

  /** Deleting 50 leaves its leaf under the old name. */
  lemma Delete50()
    ensures Delete(Sorting, N2(10, LeftHalf(), 50, N2(50, Two(50, 60), 70, Two(70, 80))), 50)
            == Some(N2(10, LeftHalf(), 50, N2(50, One(60), 70, Two(70, 80))))
  {
    var right, left := N2(50, Two(50, 60), 70, Two(70, 80)), N2(50, One(60), 70, Two(70, 80));
    LookupMany(50, 60, 70, 50);
    assert Without([E(50), E(60)], 50) == [E(60)];
    assert Delete(Sorting, Two(50, 60), 50) == Some(One(60));
    PlaceThere(Sorting, right.kids, 0, One(60));
    assert right.kids[0 := Entry(50, One(60))] == left.kids;
    assert Delete(Sorting, right, 50) == Some(left);
    var kids := [Entry(10, LeftHalf()), Entry(50, right)];
    assert Index(kids, 50, 1) == 1 && Index(kids, 50, 0) == 1;
    PlaceThere(Sorting, kids, 1, left);
    assert kids[1 := Entry(50, left)] == [Entry(10, LeftHalf()), Entry(50, left)];
  }

  /** Four insertions split the first leaf, whose name then rises to 60, above the key 55 that comes next. */
  lemma FirstLeafSplits()
    ensures var t0, t1 := N2(50, One(60), 70, Two(70, 80)), N2(50, Two(60, 62), 70, Two(70, 80));
            var t2, t3 := N2(50, Three(60, 62, 64), 70, Two(70, 80)), N3(60, Two(60, 62), 64, Two(64, 66), 70, Two(70, 80));
            var t4 := N3(60, Three(55, 60, 62), 64, Two(64, 66), 70, Two(70, 80));
            && Insert(Sorting, 3, t0, 62, VALUE) == Whole(t1) && Get(t0, 62) == None
            && Insert(Sorting, 3, t1, 64, VALUE) == Whole(t2) && Get(t1, 64) == None
            && Insert(Sorting, 3, t2, 66, VALUE) == Whole(t3) && Get(t2, 66) == None
            && Insert(Sorting, 3, t3, 55, VALUE) == Whole(t4) && Get(t3, 55) == None
  {
    var z := Two(70, 80);
    FillLeaf(60, 62, 64, 66);
    FillLeaf(55, 60, 62, 64);
    InFirst2(50, One(60), 70, z, 62, Whole(Two(60, 62)));
    InFirst2(50, Two(60, 62), 70, z, 64, Whole(Three(60, 62, 64)));
    InFirst2(50, Three(60, 62, 64), 70, z, 66, Halves(Two(60, 62), Two(64, 66)));
    InFirst3(60, Two(60, 62), 64, Two(64, 66), 70, z, 55, Three(55, 60, 62));
  }

  /** The next split of the node renames it to 60, and 55 is looked for before it. */
  lemma NodeSplits()
    ensures var t4 := N3(60, Three(55, 60, 62), 64, Two(64, 66), 70, Two(70, 80));
            var t5 := N3(60, Three(55, 60, 62), 64, Two(64, 66), 70, Three(70, 80, 82));
            var l, r := N2(60, Three(55, 60, 62), 64, Two(64, 66)), N2(70, Two(70, 80), 82, Two(82, 84));
            && Insert(Sorting, 3, t4, 82, VALUE) == Whole(t5) && Get(t4, 82) == None
            && Insert(Sorting, 3, t5, 84, VALUE) == Halves(l, r) && Get(t5, 84) == None
            && Add(N2(10, LeftHalf(), 50, t5), 84) == N3(10, LeftHalf(), 60, l, 70, r)
            && Get(N3(10, LeftHalf(), 60, l, 70, r), 55) == None
  {
    var x, y := Three(55, 60, 62), Two(64, 66);
    FillLeaf(70, 80, 82, 84);
    InLast3(60, x, 64, y, 70, Two(70, 80), 82, Three(70, 80, 82));
    SplitLast3(60, x, 64, y, 70, Three(70, 80, 82), 84, Two(70, 80), Two(82, 84));
    var t5 := N3(60, x, 64, y, 70, Three(70, 80, 82));
    var l, r := N2(60, x, 64, y), N2(70, Two(70, 80), 82, Two(82, 84));
    InLast2(10, LeftHalf(), 50, t5, 84, Halves(l, r));
    var kids := [Entry(10, LeftHalf()), Entry(60, l), Entry(70, r)];
    assert Index(kids, 55, 0) == 0;
    var inner := [Entry(10, Two(10, 20)), Entry(30, Two(30, 40))];
    assert Index(inner, 55, 1) == 1 && Index(inner, 55, 0) == 1;
    LookupMany(30, 40, 50, 55);
    assert Get(Two(30, 40), 55) == None;
    assert Get(LeftHalf(), 55) == None;
  }

  /**
   Deletions spoil this: in a tree of order 4, after inserting 10 to 80 in tens, deleting 50 and
   inserting six more keys, the key 55 among them, which was never deleted, is not found.
   */
  lemma InsertAfterDeleteLosesKey()
    ensures var changes := [Plus(10), Plus(20), Plus(30), Plus(40), Plus(50), Plus(60), Plus(70), Plus(80)]
                           + [Removed(50), Plus(62), Plus(64), Plus(66), Plus(55), Plus(82), Plus(84)];
            var root := After(Sorting, 3, None, changes);
            root.Some? && Get(root.value, 55) == None
  {
    var first := [Plus(10), Plus(20), Plus(30), Plus(40), Plus(50), Plus(60), Plus(70), Plus(80)];
    var second := [Removed(50), Plus(62), Plus(64), Plus(66), Plus(55), Plus(82), Plus(84)];
    AfterConcat(None, first, second);
    EightKeys();
    Delete50();
    FirstLeafSplits();
    NodeSplits();
    var z := Two(70, 80);
    var r0, r1, r2 := N2(50, One(60), 70, z), N2(50, Two(60, 62), 70, z), N2(50, Three(60, 62, 64), 70, z);
    var r3, r4 := N3(60, Two(60, 62), 64, Two(64, 66), 70, z), N3(60, Three(55, 60, 62), 64, Two(64, 66), 70, z);
    var r5 := N3(60, Three(55, 60, 62), 64, Two(64, 66), 70, Three(70, 80, 82));
    AddRight(r0, 62, r1);
    AddRight(r1, 64, r2);
    AddRight(r2, 66, r3);
    AddRight(r3, 55, r4);
    AddRight(r4, 82, r5);
    var l, r := N2(60, Three(55, 60, 62), 64, Two(64, 66)), N2(70, Two(70, 80), 82, Two(82, 84));
    Steps7(N2(10, LeftHalf(), 50, N2(50, Two(50, 60), 70, z)), N2(10, LeftHalf(), 50, r0), N2(10, LeftHalf(), 50, r1),
           N2(10, LeftHalf(), 50, r2), N2(10, LeftHalf(), 50, r3), N2(10, LeftHalf(), 50, r4), N2(10, LeftHalf(), 50, r5),
           N3(10, LeftHalf(), 60, l, 70, r));
  }

  lemma AddStep(all: seq<Change>, i: nat, k: Key, root: Node, next: Node)
    requires i < |all| && all[i] == Plus(k) && Add(root, k) == next
    ensures After(Sorting, 3, Some(root), all[i..]) == After(Sorting, 3, Some(next), all[i + 1..])
  {
    OneStep(all, i, Some(root), Some(next));
  }

  lemma LastFive(all: seq<Change>, t1: Node, t2: Node, t3: Node, t4: Node, t5: Node, t6: Node)
    requires |all| == 7 && all[2..] == [Plus(64), Plus(66), Plus(55), Plus(82), Plus(84)]
    requires Add(t1, 64) == t2 && Add(t2, 66) == t3 && Add(t3, 55) == t4 && Add(t4, 82) == t5 && Add(t5, 84) == t6
    ensures After(Sorting, 3, Some(t1), all[2..]) == Some(t6)
  {
    assert all[2] == all[2..][0] && all[3] == all[2..][1] && all[4] == all[2..][2] && all[5] == all[2..][3] && all[6] == all[2..][4];
    AddStep(all, 2, 64, t1, t2);
    AddStep(all, 3, 66, t2, t3);
    AddStep(all, 4, 55, t3, t4);
    AddStep(all, 5, 82, t4, t5);
    AddStep(all, 6, 84, t5, t6);
    assert After(Sorting, 3, Some(t6), all[7..]) == Some(t6);
  }

  lemma Steps7(t: Node, t0: Node, t1: Node, t2: Node, t3: Node, t4: Node, t5: Node, t6: Node)
    requires Next(Sorting, 3, Some(t), Removed(50)) == Some(t0) && Add(t0, 62) == t1 && Add(t1, 64) == t2 && Add(t2, 66) == t3
    requires Add(t3, 55) == t4 && Add(t4, 82) == t5 && Add(t5, 84) == t6
    ensures After(Sorting, 3, Some(t), [Removed(50), Plus(62), Plus(64), Plus(66), Plus(55), Plus(82), Plus(84)]) == Some(t6)
  {
    var all := [Removed(50), Plus(62), Plus(64), Plus(66), Plus(55), Plus(82), Plus(84)];
    assert all[0..] == all && all[2..] == [Plus(64), Plus(66), Plus(55), Plus(82), Plus(84)];
    OneStep(all, 0, Some(t), Some(t0));
    AddStep(all, 1, 62, t0, t1);
    LastFive(all, t1, t2, t3, t4, t5, t6);
  }

  lemma SplitThree(a: Key, b: Key, c: Key)
    requires a < b < c
    ensures Insert(Sorting, 2, Two(a, b), c, VALUE) == Halves(One(a), Two(b, c)) && Get(Two(a, b), c) == None
  {
    var three := [E(a), E(b), E(c)];
    LookupMany(a, b, c, c);
    PlaceBetween(Sorting, [E(a), E(b)], [], c, VALUE);
    assert [E(a), E(b)] + [] == [E(a), E(b)] && [E(a), E(b)] + [E(c)] + [] == three;
    assert three[..1] == [E(a)] && three[1..] == [E(b), E(c)];
  }

  lemma GrowLeaves(a: Key, b: Key, c: Key)
    requires a < b < c
    ensures Put(Sorting, 2, Some(Two(a, b)), c, VALUE) == N2(a, One(a), b, Two(b, c))
  {
    var ek, er := Entry(a, One(a)), Entry(b, Two(b, c));
    SplitThree(a, b, c);
    PlaceBetween(Sorting, [ek], [], b, Two(b, c));
    assert [ek] + [] == [ek] && [ek] + [er] + [] == [ek, er];
  }

  /** Inserting 20, 30 and 40 into a tree of order 3. */
  lemma ThreeKeys()
    ensures Filled(Sorting, 2, [E(20), E(30), E(40)]) == Some(N2(20, One(20), 30, Two(30, 40)))
  {
    var three := [E(20), E(30), E(40)];
    assert three[..2] == [E(20), E(30)] && three[..2][..1] == [E(20)] && [E(20)][..0] == [];
    assert Filled(Sorting, 2, [E(20)]) == Some(One(20));
    PlaceTwoLeaf(20, 30);
    GrowLeaves(20, 30, 40);
  }

  lemma PlaceTwoLeaf(a: Key, b: Key)
    requires a < b
    ensures Put(Sorting, 2, Some(One(a)), b, VALUE) == Two(a, b)
  {
    LookupOne(E(a), b);
    PlaceBetween(Sorting, [E(a)], [], b, VALUE);
    assert [E(a)] + [] == [E(a)] && [E(a)] + [E(b)] + [] == [E(a), E(b)];
  }

  /** A range misses small keys that came late: 10 after 20, 30 and 40 is not in the range up to 15. */
  lemma RangeMissesLateKey()
    ensures var root := N2(20, Two(10, 20), 30, Two(30, 40));
            && Filled(Sorting, 2, [E(20), E(30), E(40), E(10)]) == Some(root)
            && Range(root, None, Some(15)) == [] && Get(root, 10) == Some(VALUE)
  {
    var ops := [E(20), E(30), E(40), E(10)];
    assert ops[..3] == [E(20), E(30), E(40)];
    ThreeKeys();
    var ek, er, root := Entry(20, One(20)), Entry(30, Two(30, 40)), N2(20, Two(10, 20), 30, Two(30, 40));
    LookupOne(E(20), 10);
    LookupMany(10, 20, 30, 10);
    PlaceBetween(Sorting, [], [E(20)], 10, VALUE);
    assert [] + [E(20)] == [E(20)] && [] + [E(10)] + [E(20)] == [E(10), E(20)];
    assert Insert(Sorting, 2, One(20), 10, VALUE) == Whole(Two(10, 20));
    var kids := [ek, er];
    PlaceThere(Sorting, kids, 0, Two(10, 20));
    assert kids[0 := Entry(20, Two(10, 20))] == root.kids;
    assert Insert(Sorting, 2, Inner(kids), 10, VALUE) == Whole(root);
    PastTheEnd(root.kids, 0, None, Some(15));
  }
}
