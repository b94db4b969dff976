/**
 The two orders of the B-tree: what holds where the locale sorts the keys at hand as `<` does, and
 what is lost where it does not.
 */
module BTreeOrders {
  import opened BTree
  import opened Wrappers

  // ---- the keys on which the two orders must agree ----

  predicate HasKey<T>(s: seq<Entry<T>>, x: Key) { exists i | 0 <= i < |s| :: s[i].key == x }

  /** `x` is a key or a name somewhere in the node. */
  predicate Has(node: Node, x: Key)
    decreases node
  {
    match node
    case Leaf(items) => HasKey(items, x)
    case Inner(kids) =>
      HasKey(kids, x) || exists i | 0 <= i < |kids| :: (assert kids[i].value < kids[i]; Has(kids[i].value, x))
  }

  ghost predicate Known(node: Node, k: Key, x: Key) { x == k || Has(node, x) }

  /** The locale sorts the keys and names of the node, and `k`, as `<` does. */
  ghost predicate AgreeAt(rank: Rank, node: Node, k: Key)
  {
    forall a: Key, b: Key | Known(node, k, a) && Known(node, k, b) && a < b :: rank(a) < rank(b)
  }

  lemma HasIn(kids: seq<Entry<Node>>, e: Entry<Node>, x: Key)
    requires e in kids && (e.key == x || Has(e.value, x))
    ensures Has(Inner(kids), x)
  {
    var i :| 0 <= i < |kids| && kids[i] == e;
    assert kids[i].key == x || Has(kids[i].value, x);
  }

  lemma HasFrom(kids: seq<Entry<Node>>, x: Key) returns (e: Entry<Node>)
    requires Has(Inner(kids), x)
    ensures e in kids && (e.key == x || Has(e.value, x))
  {
    var i :| 0 <= i < |kids| && (kids[i].key == x || Has(kids[i].value, x));
    e := kids[i];
  }

  lemma {:induction false} WithoutMembers<T>(s: seq<Entry<T>>, k: Key, e: Entry<T>)
    ensures e in Without(s, k) <==> e in s && e.key != k
  {
    if s != [] {
      WithoutMembers(s[1..], k, e);
      assert s == [s[0]] + s[1..];
    }
  }

  lemma {:induction false} SinkMembers<T>(rank: Rank, s: seq<Entry<T>>, n: Entry<T>, e: Entry<T>)
    ensures e in Sink(rank, s, n) <==> e == n || e in s
  {
    if s != [] && !(rank(n.key) < rank(s[0].key)) {
      SinkMembers(rank, s[1..], n, e);
      assert s == [s[0]] + s[1..];
    }
  }

  lemma PlaceMembers<T>(rank: Rank, s: seq<Entry<T>>, k: Key, v: T, e: Entry<T>)
    ensures e in Place(rank, s, k, v) <==> e == Entry(k, v) || (e in s && e.key != k)
  {
    WithoutMembers(s, k, e);
    SinkMembers(rank, Without(s, k), Entry(k, v), e);
  }

  /** Both orders put `k` into the same place among the entries. */
  ghost predicate SamePlace<T>(rank: Rank, s: seq<Entry<T>>, k: Key)
  {
    forall e | e in s && e.key != k :: rank(k) < rank(e.key) <==> k < e.key
  }

  lemma {:induction false} SinkSame<T>(rank: Rank, s: seq<Entry<T>>, e: Entry<T>)
    requires forall f | f in s :: rank(e.key) < rank(f.key) <==> e.key < f.key
    ensures Sink(rank, s, e) == Sink(Sorting, s, e)
  {
    if s != [] {
      assert forall f | f in s[1..] :: f in s;
      SinkSame(rank, s[1..], e);
    }
  }

  lemma PlaceSame<T>(rank: Rank, s: seq<Entry<T>>, k: Key, v: T)
    requires SamePlace(rank, s, k)
    ensures Place(rank, s, k, v) == Place(Sorting, s, k, v)
  {
    forall f | f in Without(s, k) ensures rank(k) < rank(f.key) <==> k < f.key {
      WithoutMembers(s, k, f);
    }
    SinkSame(rank, Without(s, k), Entry(k, v));
  }

  /** Neither half of a split is empty. */
  predicate Proper(o: Outcome) { o.Halves? ==> Size(o.left) > 0 && Size(o.right) > 0 }

  ghost predicate OutcomeHas(o: Outcome, x: Key)
  {
    match o
    case Whole(n) => Has(n, x)
    case Halves(l, r) => Has(l, x) || Has(r, x)
  }

  lemma DivideHas(node: Node, most: nat, x: Key)
    requires most >= 1
    ensures Proper(Divide(node, most)) && (OutcomeHas(Divide(node, most), x) ==> Has(node, x))
  {
    var o := Divide(node, most);
    if o.Halves? && node.Inner? && OutcomeHas(o, x) {
      var e := HasFrom(if Has(o.left, x) then o.left.kids else o.right.kids, x);
      HasIn(node.kids, e, x);
    }
  }

  lemma FirstNameHas(node: Node)
    requires Size(node) > 0
    ensures Has(node, FirstName(node))
  {
    if node.Leaf? { assert node.items[0].key == FirstName(node); } else { assert node.kids[0].key == FirstName(node); }
  }

  /** What a child became brings no names but its own and the key inserted. */
  ghost predicate Brings(o: Outcome, kid: Node, k: Key) { Proper(o) && forall x | OutcomeHas(o, x) :: Known(kid, k, x) }

  lemma RefittedEntry(rank: Rank, kids: seq<Entry<Node>>, i: nat, o: Outcome, e: Entry<Node>)
    requires i < |kids| && e in Refitted(rank, kids, i, o)
    ensures e in kids || (match o case Whole(n) => e == Entry(kids[i].key, n)
                                  case Halves(l, r) => e == Entry(FirstName(l), l) || e == Entry(FirstName(r), r))
  {
    match o
    case Whole(n) => PlaceMembers(rank, kids, kids[i].key, n, e);
    case Halves(l, r) =>
      var rest := kids[..i] + kids[i + 1..];
      PlaceMembers(rank, Place(rank, rest, FirstName(l), l), FirstName(r), r, e);
      PlaceMembers(rank, rest, FirstName(l), l, e);
  }

  lemma RefittedHas(rank: Rank, kids: seq<Entry<Node>>, i: nat, o: Outcome, k: Key, x: Key)
    requires i < |kids| && Brings(o, kids[i].value, k) && Has(Inner(Refitted(rank, kids, i, o)), x)
    ensures Known(Inner(kids), k, x)
  {
    var e := HasFrom(Refitted(rank, kids, i, o), x);
    RefittedEntry(rank, kids, i, o, e);
    if e in kids {
      HasIn(kids, e, x);
    } else {
      if o.Halves? {
        FirstNameHas(o.left);
        FirstNameHas(o.right);
      }
      assert x == kids[i].key || OutcomeHas(o, x);
      if x != k { HasIn(kids, kids[i], x); }
    }
  }

  lemma {:induction false} InsertHas(rank: Rank, most: nat, node: Node, k: Key, v: string)
    requires most >= 1
    ensures Brings(Insert(rank, most, node, k, v), node, k)
    decreases node
  {
    var o := Insert(rank, most, node, k, v);
    match node
    case Leaf(items) =>
      var p := Place(rank, items, k, v);
      DivideHas(Leaf(p), most, k);
      forall x | OutcomeHas(o, x) ensures Known(node, k, x) {
        DivideHas(Leaf(p), most, x);
        var j :| 0 <= j < |p| && p[j].key == x;
        PlaceMembers(rank, items, k, v, p[j]);
      }
    case Inner(kids) =>
      if kids != [] {
        var i := Index(kids, k, 0);
        assert kids[i] in kids && kids[i].value < kids[i];
        var below := Insert(rank, most, kids[i].value, k, v);
        InsertHas(rank, most, kids[i].value, k, v);
        DivideHas(Inner(Refitted(rank, kids, i, below)), most, k);
        forall x | OutcomeHas(o, x) ensures Known(node, k, x) {
          DivideHas(Inner(Refitted(rank, kids, i, below)), most, x);
          RefittedHas(rank, kids, i, below, k, x);
        }
      }
  }

  lemma KidsKnown(rank: Rank, kids: seq<Entry<Node>>, k: Key, x: Key)
    requires AgreeAt(rank, Inner(kids), k) && Known(Inner(kids), k, x)
    ensures SamePlace(rank, kids, x)
  {
    forall e | e in kids && e.key != x ensures rank(x) < rank(e.key) <==> x < e.key {
      HasIn(kids, e, e.key);
      assert Known(Inner(kids), k, e.key);
    }
  }

  lemma RefittedSame(rank: Rank, kids: seq<Entry<Node>>, i: nat, o: Outcome, k: Key)
    requires AgreeAt(rank, Inner(kids), k) && i < |kids| && Brings(o, kids[i].value, k)
    ensures Refitted(rank, kids, i, o) == Refitted(Sorting, kids, i, o)
  {
    match o
    case Whole(n) =>
      HasIn(kids, kids[i], kids[i].key);
      KidsKnown(rank, kids, k, kids[i].key);
      PlaceSame(rank, kids, kids[i].key, n);
    case Halves(l, r) =>
      var a, b, rest := FirstName(l), FirstName(r), kids[..i] + kids[i + 1..];
      FirstNameHas(l);
      FirstNameHas(r);
      assert OutcomeHas(o, a) && OutcomeHas(o, b);
      if a != k { HasIn(kids, kids[i], a); }
      if b != k { HasIn(kids, kids[i], b); }
      KidsKnown(rank, kids, k, a);
      KidsKnown(rank, kids, k, b);
      assert forall e | e in rest :: e in kids;
      PlaceSame(rank, rest, a, l);
      forall e | e in Place(Sorting, rest, a, l) && e.key != b ensures rank(b) < rank(e.key) <==> b < e.key {
        PlaceMembers(Sorting, rest, a, l, e);
      }
      PlaceSame(rank, Place(Sorting, rest, a, l), b, r);
  }

  lemma KidAgrees(rank: Rank, kids: seq<Entry<Node>>, i: nat, k: Key)
    requires AgreeAt(rank, Inner(kids), k) && i < |kids|
    ensures AgreeAt(rank, kids[i].value, k)
  {
    forall x | Known(kids[i].value, k, x) ensures Known(Inner(kids), k, x) {
      if x != k { HasIn(kids, kids[i], x); }
    }
  }

  /** Where the two orders agree on the keys at hand, an insertion is the same in both. */
  lemma {:induction false} InsertSame(rank: Rank, most: nat, node: Node, k: Key, v: string)
    requires most >= 1 && AgreeAt(rank, node, k)
    ensures Insert(rank, most, node, k, v) == Insert(Sorting, most, node, k, v)
    decreases node
  {
    match node
    case Leaf(items) =>
      forall e | e in items && e.key != k ensures rank(k) < rank(e.key) <==> k < e.key {
        var j :| 0 <= j < |items| && items[j] == e;
        assert HasKey(items, e.key) && Known(node, k, e.key);
      }
      PlaceSame(rank, items, k, v);
    case Inner(kids) =>
      if kids != [] {
        var i := Index(kids, k, 0);
        assert kids[i] in kids && kids[i].value < kids[i];
        KidAgrees(rank, kids, i, k);
        InsertSame(rank, most, kids[i].value, k, v);
        InsertHas(Sorting, most, kids[i].value, k, v);
        RefittedSame(rank, kids, i, Insert(Sorting, most, kids[i].value, k, v), k);
      }
  }

  lemma PutSame(rank: Rank, most: nat, root: Node, k: Key, v: string)
    requires most >= 1 && AgreeAt(rank, root, k)
    ensures Put(rank, most, Some(root), k, v) == Put(Sorting, most, Some(root), k, v)
  {
    InsertSame(rank, most, root, k, v);
    var o := Insert(Sorting, most, root, k, v);
    if o.Halves? {
      InsertHas(Sorting, most, root, k, v);
      FirstNameHas(o.left);
      FirstNameHas(o.right);
      assert OutcomeHas(o, FirstName(o.left)) && OutcomeHas(o, FirstName(o.right));
      PlaceInOne(rank, Entry(FirstName(o.left), o.left), FirstName(o.left), o.left);
      PlaceInOne(Sorting, Entry(FirstName(o.left), o.left), FirstName(o.left), o.left);
      PlaceInOne(rank, Entry(FirstName(o.left), o.left), FirstName(o.right), o.right);
      PlaceInOne(Sorting, Entry(FirstName(o.left), o.left), FirstName(o.right), o.right);
    }
  }

  /** Deleting only sets names that are there. */
  lemma {:induction false} DeleteSame(rank: Rank, node: Node, k: Key)
    requires AgreeAt(rank, node, k)
    ensures Delete(rank, node, k) == Delete(Sorting, node, k)
    decreases node
  {
    if node.Inner? && Get(node, k).Some? {
      var kids := node.kids;
      var i := Index(kids, k, 0);
      assert kids[i] in kids && kids[i].value < kids[i];
      KidAgrees(rank, kids, i, k);
      DeleteSame(rank, kids[i].value, k);
      HasIn(kids, kids[i], kids[i].key);
      KidsKnown(rank, kids, k, kids[i].key);
      var r := Delete(Sorting, kids[i].value, k);
      if r.Some? { PlaceSame(rank, kids, kids[i].key, r.value); }
    }
  }

  // ---- one change, where the orders agree ----

  /**
   Inserting into a tree that was made by insertions keeps its shape, adds the key or replaces its
   value, and leaves every other key as it was, whatever splits; when the locale sorts the names and
   keys of the tree and the new one as `<` does.
   */
  lemma GetAfterPut(rank: Rank, most: nat, root: Node, k: Key, v: string, x: Key)
    requires AgreeAt(rank, root, k) && most >= 1 && Inv(root, None, None)
    ensures var n := Put(rank, most, Some(root), k, v);
            Inv(n, None, None) && Get(n, x) == if x == k then Some(v) else Get(root, x)
  {
    var n := Put(Sorting, most, Some(root), k, v);
    PutSame(rank, most, root, k, v);
    GetFinds(root, None, None, x);
    if Get(root, k) != Some(v) {
      var o := Insert(Sorting, most, root, k, v);
      InsertFits(Sorting, most, root, None, None, k, v);
      ItemsShaped(root, None, None);
      PlaceSorted(Sorting, Items(root), k, v);
      GrownIs(Sorting, o, Place(Sorting, Items(root), k, v), FirstName(root));
      GetFinds(n, None, None, x);
    }
  }

  /** After a deletion every key but the deleted one is found as before. */
  lemma GetAfterDelete(rank: Rank, root: Node, k: Key, x: Key)
    requires AgreeAt(rank, root, k) && Shaped(root, None, None)
    ensures match Delete(rank, root, k)
            case Some(n) => Shaped(n, None, None) && Get(n, x) == if x == k then None else Get(root, x)
            case None => x != k ==> Get(root, x) == None
  {
    DeleteSame(rank, root, k);
    DeleteRemoves(Sorting, root, None, None, k);
    GetFinds(root, None, None, x);
    ItemsShaped(root, None, None);
    WithoutLookup(Items(root), k, x);
    if Delete(Sorting, root, k).Some? { GetFinds(Delete(Sorting, root, k).value, None, None, x); }
  }

  // ---- runs of insertions ----

  /** The tree after inserting these entries, the last one last. */
  function Filled(rank: Rank, most: nat, ops: seq<Entry<string>>): Option<Node>
    decreases |ops|
  {
    if ops == [] then None
    else
      var last := ops[|ops| - 1];
      Some(Put(rank, most, Filled(rank, most, ops[..|ops| - 1]), last.key, last.value))
  }

  /** The value a key was given last. */
  function LastValue(ops: seq<Entry<string>>, k: Key): Option<string>
    decreases |ops|
  {
    if ops == [] then None
    else if ops[|ops| - 1].key == k then Some(ops[|ops| - 1].value)
    else LastValue(ops[..|ops| - 1], k)
  }

  /** The locale sorts the keys inserted as `<` does. */
  predicate AgreeOn(rank: Rank, ops: seq<Entry<string>>)
  {
    forall i, j | 0 <= i < |ops| && 0 <= j < |ops| && ops[i].key < ops[j].key :: rank(ops[i].key) < rank(ops[j].key)
  }

  /** All keys and names of the tree were inserted. */
  lemma {:induction false} FilledHas(rank: Rank, most: nat, ops: seq<Entry<string>>, x: Key)
    requires most >= 1 && ops != [] && Has(Filled(rank, most, ops).value, x)
    ensures HasKey(ops, x)
    decreases |ops|
  {
    var last, before := ops[|ops| - 1], ops[..|ops| - 1];
    if before == [] {
      assert Filled(rank, most, ops).value == Leaf([last]);
      assert HasKey([last], x) && ops[0] == last;
    } else {
      var root := Filled(rank, most, before).value;
      if Has(root, x) {
        FilledHas(rank, most, before, x);
        var j :| 0 <= j < |before| && before[j].key == x;
        assert ops[j].key == x;
      } else {
        PutHas(rank, most, root, last.key, last.value, x);
        assert ops[|ops| - 1].key == x;
      }
    }
  }

  lemma PutHas(rank: Rank, most: nat, root: Node, k: Key, v: string, x: Key)
    requires most >= 1 && Has(Put(rank, most, Some(root), k, v), x)
    ensures Known(root, k, x)
  {
    var o := Insert(rank, most, root, k, v);
    InsertHas(rank, most, root, k, v);
    if o.Halves? && Get(root, k) != Some(v) {
      var l, r := Entry(FirstName(o.left), o.left), Entry(FirstName(o.right), o.right);
      FirstNameHas(o.left);
      FirstNameHas(o.right);
      var e := HasFrom(Grown(rank, o).kids, x);
      PlaceMembers(rank, Place(rank, [], l.key, l.value), r.key, r.value, e);
      PlaceMembers(rank, [], l.key, l.value, e);
      assert OutcomeHas(o, x);
    } else if Get(root, k) != Some(v) {
      assert OutcomeHas(o, x);
    }
  }

  lemma OpsAgree(rank: Rank, most: nat, before: seq<Entry<string>>, last: Entry<string>)
    requires most >= 1 && before != [] && AgreeOn(rank, before + [last])
    ensures AgreeAt(rank, Filled(rank, most, before).value, last.key)
  {
    var ops, root := before + [last], Filled(rank, most, before).value;
    forall x | Known(root, last.key, x) ensures HasKey(ops, x) {
      if x == last.key {
        assert ops[|before|].key == x;
      } else {
        FilledHas(rank, most, before, x);
        var j :| 0 <= j < |before| && before[j].key == x;
        assert ops[j].key == x;
      }
    }
  }

  lemma AgreeFront(rank: Rank, before: seq<Entry<string>>, last: Entry<string>)
    requires AgreeOn(rank, before + [last])
    ensures AgreeOn(rank, before)
  {
    var ops := before + [last];
    forall i, j | 0 <= i < |before| && 0 <= j < |before| && before[i].key < before[j].key
      ensures rank(before[i].key) < rank(before[j].key)
    {
      assert before[i] == ops[i] && before[j] == ops[j];
    }
  }

  lemma FilledOne(rank: Rank, most: nat, e: Entry<string>, k: Key)
    ensures Filled(rank, most, [e]) == Some(Leaf([e])) && Inv(Leaf([e]), None, None)
    ensures Get(Leaf([e]), k) == LastValue([e], k)
  {
    assert [e][..0] == [];
    LookupOne(e, k);
  }

  /** After any series of insertions every key has its last value, in any tree order from 2 on. */
  lemma {:induction false} FilledFinds(rank: Rank, most: nat, ops: seq<Entry<string>>, k: Key)
    requires AgreeOn(rank, ops) && most >= 1 && ops != []
    ensures var root := Filled(rank, most, ops).value;
            Inv(root, None, None) && Get(root, k) == LastValue(ops, k)
    decreases |ops|
  {
    var last, before := ops[|ops| - 1], ops[..|ops| - 1];
    assert ops == before + [last];
    if before == [] {
      assert ops == [last];
      FilledOne(rank, most, last, k);
    } else {
      AgreeFront(rank, before, last);
      FilledFinds(rank, most, before, k);
      OpsAgree(rank, most, before, last);
      GetAfterPut(rank, most, Filled(rank, most, before).value, last.key, last.value, k);
    }
  }

  // ---- when the locale sorts otherwise ----

  predicate Fresh(ops: seq<Entry<string>>) { forall i, j | 0 <= i < j < |ops| :: ops[i].key != ops[j].key }

  /** The entries as the locale sorts them; those that tie stay in the order of insertion. */
  function Ranked(rank: Rank, ops: seq<Entry<string>>): seq<Entry<string>>
    decreases |ops|
  {
    if ops == [] then [] else Sink(rank, Ranked(rank, ops[..|ops| - 1]), ops[|ops| - 1])
  }

  predicate InRank<T>(rank: Rank, s: seq<Entry<T>>)
  {
    forall i, j | 0 <= i < j < |s| :: rank(s[i].key) <= rank(s[j].key)
  }

  lemma {:induction false} SinkRank(rank: Rank, s: seq<Entry<string>>, e: Entry<string>)
    requires InRank(rank, s) && Fresh(s) && !HasKey(s, e.key)
    ensures var p := Sink(rank, s, e);
            InRank(rank, p) && Fresh(p) && |p| == |s| + 1
  {
    var p := Sink(rank, s, e);
    if s != [] && !(rank(e.key) < rank(s[0].key)) {
      var t := s[1..];
      forall i, j | 0 <= i < j < |t| ensures rank(t[i].key) <= rank(t[j].key) && t[i].key != t[j].key {
        assert t[i] == s[i + 1] && t[j] == s[j + 1];
      }
      forall j | 0 <= j < |t| ensures t[j].key != e.key { assert t[j] == s[j + 1]; }
      SinkRank(rank, t, e);
      var q := Sink(rank, t, e);
      forall j | 0 <= j < |q| ensures rank(s[0].key) <= rank(q[j].key) && s[0].key != q[j].key {
        SinkMembers(rank, t, e, q[j]);
        if q[j] != e {
          var i :| 0 <= i < |t| && t[i] == q[j];
          assert t[i] == s[i + 1];
        }
      }
      assert p == [s[0]] + q;
    } else {
      assert p == [e] + s;
      forall j | 0 <= j < |s| ensures rank(e.key) <= rank(s[j].key) && s[j].key != e.key {
      }
    }
  }

  lemma {:induction false} RankedIs(rank: Rank, ops: seq<Entry<string>>)
    requires Fresh(ops)
    ensures var s := Ranked(rank, ops);
            InRank(rank, s) && Fresh(s) && |s| == |ops| && forall e :: e in s <==> e in ops
    decreases |ops|
  {
    if ops != [] {
      var last, before := ops[|ops| - 1], ops[..|ops| - 1];
      var s := Ranked(rank, before);
      RankedIs(rank, before);
      forall j | 0 <= j < |s| ensures s[j].key != last.key {
        assert s[j] in s;
        var i :| 0 <= i < |before| && before[i] == s[j];
        assert before[i] == ops[i];
      }
      SinkRank(rank, s, last);
      forall e ensures e in Ranked(rank, ops) <==> e in ops {
        SinkMembers(rank, s, last, e);
        assert ops == before + [last];
      }
    }
  }

  /** A new key put into a leaf. */
  lemma LeafPut(rank: Rank, most: nat, s: seq<Entry<string>>, e: Entry<string>)
    requires !HasKey(s, e.key)
    ensures Put(rank, most, Some(Leaf(s)), e.key, e.value) == Grown(rank, Divide(Leaf(Sink(rank, s, e)), most))
  {
    LookupNone(s, e.key);
    WithoutLookup(s, e.key, e.key);
  }

  /** The last of fresh keys is not in the tree of those before. */
  lemma LastIsNew(rank: Rank, ops: seq<Entry<string>>)
    requires Fresh(ops) && ops != []
    ensures !HasKey(Ranked(rank, ops[..|ops| - 1]), ops[|ops| - 1].key) && Fresh(ops[..|ops| - 1])
  {
    var before := ops[..|ops| - 1];
    var s := Ranked(rank, before);
    RankedIs(rank, before);
    forall j | 0 <= j < |s| ensures s[j].key != ops[|ops| - 1].key {
      assert s[j] in before;
      var i :| 0 <= i < |before| && before[i] == s[j];
      assert before[i] == ops[i];
    }
  }

  lemma {:induction false} FilledLeaf(rank: Rank, most: nat, ops: seq<Entry<string>>)
    requires Fresh(ops) && 0 < |ops| <= most
    ensures Filled(rank, most, ops) == Some(Leaf(Ranked(rank, ops)))
    decreases |ops|
  {
    var last, before := ops[|ops| - 1], ops[..|ops| - 1];
    LastIsNew(rank, ops);
    RankedIs(rank, ops);
    if before == [] {
      assert Ranked(rank, ops) == Sink(rank, [], last) == [last];
    } else {
      FilledLeaf(rank, most, before);
      LeafPut(rank, most, Ranked(rank, before), last);
    }
  }

  /** One key more than fits makes two leaves, cut in the middle of the sorted entries. */
  lemma FilledSplit(rank: Rank, most: nat, ops: seq<Entry<string>>)
    requires Fresh(ops) && most >= 1 && |ops| == most + 1
    ensures var s, mid := Ranked(rank, ops), (most + 1) / 2;
            && |s| == |ops| && 0 < mid < |s|
            && Filled(rank, most, ops) == Some(Inner([Entry(s[0].key, Leaf(s[..mid])), Entry(s[mid].key, Leaf(s[mid..]))]))
  {
    var last, before, s, mid := ops[|ops| - 1], ops[..|ops| - 1], Ranked(rank, ops), (most + 1) / 2;
    LastIsNew(rank, ops);
    RankedIs(rank, ops);
    FilledLeaf(rank, most, before);
    LeafPut(rank, most, Ranked(rank, before), last);
    var l, r := Entry(s[0].key, Leaf(s[..mid])), Entry(s[mid].key, Leaf(s[mid..]));
    assert Divide(Leaf(s), most) == Halves(l.value, r.value);
    PlaceInOne(rank, l, l.key, l.value);
    PlaceInOne(rank, l, r.key, r.value);
  }

  lemma {:induction false} LookupAt(s: seq<Entry<string>>, i: nat)
    requires Fresh(s) && i < |s|
    ensures Lookup(s, s[i].key) == Some(s[i].value)
  {
    if i > 0 {
      assert forall m, n | 0 <= m < n < |s[1..]| :: s[1..][m] == s[m + 1] && s[1..][n] == s[n + 1];
      LookupAt(s[1..], i - 1);
    }
  }

  /** Entry `i` is found exactly if it lies on the side of the cut where it is looked for. */
  lemma SplitFinds(s: seq<Entry<string>>, mid: nat, i: nat)
    requires Fresh(s) && 0 < mid < |s| && i < |s|
    ensures var root := Inner([Entry(s[0].key, Leaf(s[..mid])), Entry(s[mid].key, Leaf(s[mid..]))]);
            Get(root, s[i].key) == Some(s[i].value) <==> (i < mid <==> s[i].key < s[mid].key)
  {
    var l, r := s[..mid], s[mid..];
    assert forall m, n | 0 <= m < n < |r| :: r[m] == s[mid + m] && r[n] == s[mid + n];
    if i < mid {
      LookupAt(l, i);
      forall n | 0 <= n < |r| ensures r[n].key != s[i].key { assert r[n] == s[mid + n]; }
      LookupNone(r, s[i].key);
    } else {
      LookupAt(r, i - mid);
      LookupNone(l, s[i].key);
    }
  }

  predicate CutRight(s: seq<Entry<string>>, mid: nat)
    requires mid < |s|
  {
    forall i | 0 <= i < |s| :: i < mid <==> s[i].key < s[mid].key
  }

  /**
   In every order of the tree: once one key more than fits has been inserted, all keys are found
   exactly when the middle of the entries, as the locale sorts them, separates smaller from larger
   keys in the sense of `<`. Keys that tie in the locale count in the order of their insertion.
   */
  lemma FilledFoundIff(rank: Rank, most: nat, ops: seq<Entry<string>>)
    requires Fresh(ops) && most >= 1 && |ops| == most + 1
    ensures |Ranked(rank, ops)| == most + 1
    ensures (forall i | 0 <= i < |ops| :: Get(Filled(rank, most, ops).value, ops[i].key) == Some(ops[i].value))
            <==> CutRight(Ranked(rank, ops), (most + 1) / 2)
  {
    var s, mid, root := Ranked(rank, ops), (most + 1) / 2, Filled(rank, most, ops).value;
    RankedIs(rank, ops);
    FilledSplit(rank, most, ops);
    forall i | 0 <= i < |s|
      ensures Get(root, s[i].key) == Some(s[i].value) <==> (i < mid <==> s[i].key < s[mid].key)
    {
      SplitFinds(s, mid, i);
    }
    if CutRight(s, mid) {
      forall i | 0 <= i < |ops| ensures Get(root, ops[i].key) == Some(ops[i].value) {
        assert ops[i] in s;
        var j :| 0 <= j < |s| && s[j] == ops[i];
      }
    }
    if forall i | 0 <= i < |ops| :: Get(root, ops[i].key) == Some(ops[i].value) {
      forall i | 0 <= i < |s| ensures i < mid <==> s[i].key < s[mid].key {
        assert s[i] in ops;
        var j :| 0 <= j < |ops| && ops[j] == s[i];
      }
    }
  }

  /**
   In a tree of order 2, two inserted keys are both found exactly when the locale sorts them as `<`
   does, and if they tie there, exactly when the smaller one came first.
   */
  lemma PairFoundIff(rank: Rank, first: Entry<string>, second: Entry<string>)
    requires first.key != second.key
    ensures var root := Filled(rank, 1, [first, second]).value;
            Get(root, first.key) == Some(first.value) && Get(root, second.key) == Some(second.value)
            <==> (first.key < second.key <==> rank(first.key) <= rank(second.key))
  {
    var ops, root := [first, second], Filled(rank, 1, [first, second]).value;
    FilledFoundIff(rank, 1, ops);
    assert ops[..1] == [first] && [first][..0] == [];
    assert Ranked(rank, [first]) == Sink(rank, [], first) == [first];
    PlaceInOne(rank, first, second.key, second.value);
    assert Without([first], second.key) == [first] by { assert [first][1..] == []; }
    var s := Ranked(rank, ops);
    assert s == if rank(second.key) < rank(first.key) then [second, first] else [first, second];
    assert CutRight(s, 1) <==> s[0].key < s[1].key;
    assert (1 + 1) / 2 == 1;
    assert (forall i | 0 <= i < |ops| :: Get(root, ops[i].key) == Some(ops[i].value))
      <==> Get(root, ops[0].key) == Some(ops[0].value) && Get(root, ops[1].key) == Some(ops[1].value);
  }
}
