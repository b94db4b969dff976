/**
 The feed event handler: videos and deletions from many relays, merged per video.

 Relays deliver the events of a video in any order and any number of times. The handler keeps the
 newest video and a tombstone with the time of a deletion; a newer video clears the tombstone.
 */
module FeedMerge {
  import opened Wrappers

  // ---- events ----

  type Tag = seq<string>

  /** `npub` is what `pubkeyToNpub` makes of the author's key, if anything. */
  datatype Event = Event(npub: Option<string>, tags: seq<Tag>, createdAt: nat)

  datatype Video = Video(npub: string, tree: string, timestamp: nat, hash: string, key: Option<string>)

  /** What an event asks for, for the video it is about. */
  datatype Op = Delete(at: nat) | Put(video: Video)

  datatype Request = Ignored | Asks(key: string, op: Op)

  /** The value of the first tag called `name`. */
  function TagValue(tags: seq<Tag>, name: string): Option<string>
    decreases |tags|
  {
    if tags == [] then None
    else if |tags[0]| > 0 && tags[0][0] == name then (if |tags[0]| > 1 then Some(tags[0][1]) else None)
    else TagValue(tags[1..], name)
  }

  predicate HasTag(tags: seq<Tag>, name: string)
  {
    exists t | t in tags :: |t| > 0 && t[0] == name
  }

  /** An absent or empty string is falsy. */
  function Truthy(s: Option<string>): Option<string>
  {
    if s == Some("") then None else s
  }

  function KeyFor(npub: string, tree: string): string { npub + "/" + tree }

  function Classify(e: Event): Request
  {
    var tree, npub := Truthy(TagValue(e.tags, "d")), Truthy(e.npub);
    if tree.None? || !("videos/" <= tree.value) || npub.None? then Ignored
    else
      var key, hash := KeyFor(npub.value, tree.value), Truthy(TagValue(e.tags, "hash"));
      if hash.None? then Asks(key, Delete(e.createdAt))
      else if HasTag(e.tags, "encryptedKey") || HasTag(e.tags, "selfEncryptedKey") then Ignored
      else Asks(key, Put(Video(npub.value, tree.value, e.createdAt, hash.value, Truthy(TagValue(e.tags, "key")))))
  }

  // ---- what an event says ----

  /** The tag is the first of its name. */
  predicate FirstTag(tags: seq<Tag>, name: string, i: nat)
  {
    && i < |tags| && |tags[i]| > 0 && tags[i][0] == name
    && forall j | 0 <= j < i :: !(|tags[j]| > 0 && tags[j][0] == name)
  }

  /** The first tag of the name has this value, which is not empty. */
  predicate Says(tags: seq<Tag>, name: string, value: string)
  {
    value != "" && exists i | 0 <= i < |tags| :: FirstTag(tags, name, i) && |tags[i]| > 1 && tags[i][1] == value
  }

  lemma {:induction false} TagValueIs(tags: seq<Tag>, name: string, value: string)
    ensures Truthy(TagValue(tags, name)) == Some(value) <==> Says(tags, name, value)
    decreases |tags|
  {
    if tags != [] {
      var rest := tags[1..];
      if |tags[0]| > 0 && tags[0][0] == name {
        assert FirstTag(tags, name, 0);
        assert forall i | 0 <= i < |tags| && FirstTag(tags, name, i) :: i == 0;
      } else {
        TagValueIs(rest, name, value);
        forall i | 0 <= i < |rest| ensures FirstTag(rest, name, i) <==> FirstTag(tags, name, i + 1) {
          assert rest[i] == tags[i + 1];
          assert FirstTag(tags, name, i + 1) ==> forall j | 0 <= j < i :: rest[j] == tags[j + 1];
          assert FirstTag(rest, name, i) ==> forall j | 0 < j < i + 1 :: tags[j] == rest[j - 1];
        }
        if Says(tags, name, value) {
          var i :| 0 <= i < |tags| && FirstTag(tags, name, i) && |tags[i]| > 1 && tags[i][1] == value;
          assert rest[i - 1] == tags[i] && FirstTag(rest, name, i - 1);
        }
        if Says(rest, name, value) {
          var i :| 0 <= i < |rest| && FirstTag(rest, name, i) && |rest[i]| > 1 && rest[i][1] == value;
          assert rest[i] == tags[i + 1] && FirstTag(tags, name, i + 1);
        }
      }
    }
  }

  /** The event names an author and a tree of videos. */
  predicate IsAbout(e: Event, npub: string, tree: string)
  {
    e.npub == Some(npub) && npub != "" && Says(e.tags, "d", tree) && "videos/" <= tree
  }

  lemma AboutIs(e: Event, npub: string, tree: string)
    ensures IsAbout(e, npub, tree) <==>
            Truthy(e.npub) == Some(npub) && Truthy(TagValue(e.tags, "d")) == Some(tree) && "videos/" <= tree
  {
    TagValueIs(e.tags, "d", tree);
  }

  /** The event publishes just this video: a hash, the key if one is given, and no sign of a private one. */
  ghost predicate PublishesVideo(e: Event, v: Video)
  {
    && IsAbout(e, v.npub, v.tree) && v.timestamp == e.createdAt
    && Says(e.tags, "hash", v.hash) && !HasTag(e.tags, "encryptedKey") && !HasTag(e.tags, "selfEncryptedKey")
    && (if v.key.Some? then Says(e.tags, "key", v.key.value) else forall k: string :: !Says(e.tags, "key", k))
  }

  /** An event puts a video exactly if it publishes that one; private videos are ignored. */
  lemma PutsIff(e: Event, v: Video)
    ensures Classify(e) == Asks(KeyFor(v.npub, v.tree), Put(v)) <==> PublishesVideo(e, v)
  {
    AboutIs(e, v.npub, v.tree);
    TagValueIs(e.tags, "hash", v.hash);
    forall k: string ensures Truthy(TagValue(e.tags, "key")) == Some(k) <==> Says(e.tags, "key", k) {
      TagValueIs(e.tags, "key", k);
    }
    var key := Truthy(TagValue(e.tags, "key"));
    if key.Some? { assert Says(e.tags, "key", key.value); }
  }

  /** An event deletes exactly if it is about a video and names no hash. */
  lemma DeletesIff(e: Event, npub: string, tree: string, at: nat)
    requires IsAbout(e, npub, tree)
    ensures Classify(e) == Asks(KeyFor(npub, tree), Delete(at)) <==> at == e.createdAt && forall h: string :: !Says(e.tags, "hash", h)
  {
    AboutIs(e, npub, tree);
    forall h: string ensures Truthy(TagValue(e.tags, "hash")) == Some(h) <==> Says(e.tags, "hash", h) {
      TagValueIs(e.tags, "hash", h);
    }
    var hash := Truthy(TagValue(e.tags, "hash"));
    if hash.Some? { assert Says(e.tags, "hash", hash.value); }
  }

  /** An event that is about no video is ignored. */
  lemma AboutNothing(e: Event)
    requires forall npub: string, tree: string :: !IsAbout(e, npub, tree)
    ensures Classify(e) == Ignored
  {
    var npub, tree := Truthy(e.npub), Truthy(TagValue(e.tags, "d"));
    if npub.Some? && tree.Some? { AboutIs(e, npub.value, tree.value); }
  }

  // ---- one video ----

  /** A tombstone of 0 and none at all are the same to the handler: both are falsy. */
  datatype Cell = Cell(entry: Option<Video>, tomb: nat)

  /** `recordDeletedVideo` overwrites; with `keepsLargest` it would keep the later deletion. */
  function Recorded(tomb: nat, at: nat, keepsLargest: bool): nat
  {
    if keepsLargest && tomb > at then tomb else at
  }

  predicate Blocks(tomb: nat, t: nat) { tomb != 0 && tomb >= t }

  function CellStep(c: Cell, op: Op, keepsLargest: bool): Cell
  {
    match op
    case Delete(at) =>
      Cell(if c.entry.Some? && c.entry.value.timestamp <= at then None else c.entry, Recorded(c.tomb, at, keepsLargest))
    case Put(v) =>
      if Blocks(c.tomb, v.timestamp) then c
      else
        Cell(if c.entry.Some? && c.entry.value.timestamp >= v.timestamp then c.entry else Some(v), 0)
  }

  function CellRun(c: Cell, ops: seq<Op>, keepsLargest: bool): Cell
    decreases |ops|
  {
    if ops == [] then c else CellRun(CellStep(c, ops[0], keepsLargest), ops[1..], keepsLargest)
  }

  // ---- the whole handler ----

  datatype State = State(seen: map<string, Video>, deletes: map<string, nat>)

  function CellOf(s: State, key: string): Cell
  {
    Cell(if key in s.seen then Some(s.seen[key]) else None, if key in s.deletes then s.deletes[key] else 0)
  }

  /** The handler of `sub.on('event')`: `flush` says that the feed changed. */
  class Feed {
    var seenVideos: map<string, Video>
    var deletes: map<string, nat>

    ghost function Abs(): State
      reads this
    {
      State(seenVideos, deletes)
    }

    constructor (stored: map<string, nat>)
      ensures Abs() == State(map[], stored)
    {
      seenVideos, deletes := map[], stored;
    }

    method OnEvent(e: Event) returns (flush: bool)
      modifies this
      ensures Follows(old(Abs()), e, Abs())
      ensures flush == (seenVideos != old(seenVideos))
    {
      flush := false;
      var tree, npub := Truthy(TagValue(e.tags, "d")), Truthy(e.npub);
      if tree.None? || !("videos/" <= tree.value) { return; }
      if npub.None? { return; }
      var key := KeyFor(npub.value, tree.value);
      var hash := Truthy(TagValue(e.tags, "hash"));
      if hash.None? {
        deletes := deletes[key := e.createdAt];
        if key in seenVideos && seenVideos[key].timestamp <= e.createdAt {
          seenVideos := seenVideos - {key};
          flush := true;
        }
        return;
      }
      if HasTag(e.tags, "encryptedKey") || HasTag(e.tags, "selfEncryptedKey") { return; }
      if key in deletes && deletes[key] != 0 && deletes[key] >= e.createdAt { return; }
      if key in deletes && deletes[key] != 0 && deletes[key] < e.createdAt {
        deletes := deletes - {key};
      }
      if key in seenVideos && seenVideos[key].timestamp >= e.createdAt { return; }
      seenVideos := seenVideos[key := Video(npub.value, tree.value, e.createdAt, hash.value, Truthy(TagValue(e.tags, "key")))];
      flush := true;
    }
  }

  /** `e` takes the handler from `s` to `t`: its own video takes one step, every other one none. */
  ghost predicate Follows(s: State, e: Event, t: State)
  {
    match Classify(e)
    case Ignored => t == s
    case Asks(key, op) =>
      && CellOf(t, key) == CellStep(CellOf(s, key), op, false)
      && (forall k | k != key :: CellOf(t, k) == CellOf(s, k))
  }

  ghost predicate Runs(s: State, events: seq<Event>, states: seq<State>)
  {
    && |states| == |events| + 1 && states[0] == s
    && forall i | 0 <= i < |events| :: Follows(states[i], events[i], states[i + 1])
  }

  /** What the events ask for one video, in order. */
  function OpsFor(events: seq<Event>, key: string): seq<Op>
    decreases |events|
  {
    if events == [] then []
    else
      var r := Classify(events[0]);
      (if r.Asks? && r.key == key then [r.op] else []) + OpsFor(events[1..], key)
  }

  lemma RunsTail(s: State, events: seq<Event>, states: seq<State>)
    requires Runs(s, events, states) && events != []
    ensures Follows(s, events[0], states[1]) && Runs(states[1], events[1..], states[1..])
  {
    var rest := states[1..];
    assert Follows(states[0], events[0], states[1]);
    forall i | 0 <= i < |events| - 1 ensures Follows(rest[i], events[1..][i], rest[i + 1]) {
      assert Follows(states[i + 1], events[i + 1], states[i + 2]);
    }
  }

  /** What an event does to one video. */
  lemma FollowsOne(s: State, e: Event, t: State, key: string)
    requires Follows(s, e, t)
    ensures var r := Classify(e); CellOf(t, key) == if r.Asks? && r.key == key then CellStep(CellOf(s, key), r.op, false) else CellOf(s, key)
  {
  }

  /** Every video goes its own way: only the events about it, in their order, decide what becomes of it. */
  lemma {:induction false} VideosAreIndependent(s: State, events: seq<Event>, states: seq<State>, key: string)
    requires Runs(s, events, states)
    ensures CellOf(states[|events|], key) == CellRun(CellOf(s, key), OpsFor(events, key), false)
    decreases |events|
  {
    if events != [] {
      RunsTail(s, events, states);
      FollowsOne(s, events[0], states[1], key);
      VideosAreIndependent(states[1], events[1..], states[1..], key);
      var rest := OpsFor(events[1..], key);
      var r := Classify(events[0]);
      if r.Asks? && r.key == key {
        assert OpsFor(events, key) == [r.op] + rest && ([r.op] + rest)[1..] == rest;
      } else {
        assert OpsFor(events, key) == rest;
      }
    }
  }

  lemma {:induction false} EntryFromOps(c: Cell, ops: seq<Op>, keepsLargest: bool)
    ensures var entry := CellRun(c, ops, keepsLargest).entry; entry == None || entry == c.entry || Put(entry.value) in ops
    decreases |ops|
  {
    if ops != [] {
      EntryFromOps(CellStep(c, ops[0], keepsLargest), ops[1..], keepsLargest);
      assert forall o | o in ops[1..] :: o in ops;
      assert ops[0] in ops;
    }
  }

  lemma {:induction false} OpFromEvent(events: seq<Event>, key: string, op: Op) returns (i: nat)
    requires op in OpsFor(events, key)
    ensures i < |events| && Classify(events[i]) == Asks(key, op)
    decreases |events|
  {
    if Classify(events[0]) == Asks(key, op) {
      i := 0;
    } else {
      assert op in OpsFor(events[1..], key);
      var j := OpFromEvent(events[1..], key, op);
      i := j + 1;
    }
  }

  /** Whatever the feed shows was published as a public video by one of the events, under its own key. */
  lemma OnlyPublished(stored: map<string, nat>, events: seq<Event>, states: seq<State>, key: string)
    requires Runs(State(map[], stored), events, states) && key in states[|events|].seen
    ensures exists i | 0 <= i < |events| :: PublishesVideo(events[i], states[|events|].seen[key])
    ensures key == KeyFor(states[|events|].seen[key].npub, states[|events|].seen[key].tree)
  {
    var v := states[|events|].seen[key];
    VideosAreIndependent(states[0], events, states, key);
    EntryFromOps(CellOf(states[0], key), OpsFor(events, key), false);
    var i := OpFromEvent(events, key, Put(v));
    PutsIff(events[i], v);
  }

  // ---- what the merge should come to ----

  /** `v` is among the newest videos; copies of it may come more than once, and others of the same time. */
  ghost predicate Newest(ops: seq<Op>, v: Video)
  {
    && Put(v) in ops
    && forall w: Video | Put(w) in ops :: w.timestamp <= v.timestamp
  }

  /** Another video is as new as `v`. */
  ghost predicate Tied(ops: seq<Op>, v: Video)
  {
    exists w: Video | Put(w) in ops :: w != v && w.timestamp == v.timestamp
  }

  /** The newest video is as old as a deletion, one of these or the one remembered from before. */
  ghost predicate Beaten(ops: seq<Op>, tomb: nat, v: Video)
  {
    Blocks(tomb, v.timestamp) || exists d: nat | Delete(d) in ops :: d >= v.timestamp
  }

  /** Present iff newer than every deletion, and then a newest one. */
  ghost predicate Right(c: Cell, ops: seq<Op>, tomb: nat, v: Video)
  {
    if Beaten(ops, tomb, v) then c.entry == None else c.entry.Some? && Newest(ops, c.entry.value)
  }

  /** Some deletion among these, once it overwrote the tombstone, would let the newest video through. */
  ghost predicate Fragile(ops: seq<Op>, tomb: nat, v: Video)
  {
    Beaten(ops, tomb, v) && exists d: nat | Delete(d) in ops :: !Blocks(d, v.timestamp)
  }

  /** The first video of time `t`. */
  function FirstAt(ops: seq<Op>, t: nat): Option<Video>
    decreases |ops|
  {
    if ops == [] then None
    else if ops[0].Put? && ops[0].video.timestamp == t then Some(ops[0].video)
    else FirstAt(ops[1..], t)
  }

  // ---- runs ----

  lemma {:induction false} RunConcat(c: Cell, a: seq<Op>, b: seq<Op>, keepsLargest: bool)
    ensures CellRun(c, a + b, keepsLargest) == CellRun(CellRun(c, a, keepsLargest), b, keepsLargest)
    decreases |a|
  {
    if a == [] {
      assert a + b == b;
    } else {
      assert (a + b)[1..] == a[1..] + b;
      RunConcat(CellStep(c, a[0], keepsLargest), a[1..], b, keepsLargest);
    }
  }

  /** Nothing newer than `t` is there. */
  predicate UpTo(c: Cell, t: nat)
  {
    c.entry.Some? ==> c.entry.value.timestamp <= t
  }

  ghost predicate NoneNewer(ops: seq<Op>, t: nat)
  {
    forall w: Video | Put(w) in ops :: w.timestamp <= t
  }

  lemma {:induction false} StaysUpTo(c: Cell, ops: seq<Op>, t: nat, keepsLargest: bool)
    requires UpTo(c, t) && NoneNewer(ops, t)
    ensures UpTo(CellRun(c, ops, keepsLargest), t)
    decreases |ops|
  {
    if ops != [] {
      assert ops[0] in ops && forall o | o in ops[1..] :: o in ops;
      StaysUpTo(CellStep(c, ops[0], keepsLargest), ops[1..], t, keepsLargest);
    }
  }

  /** An unbeaten newest video is there at the end, in whatever order; of several the one that came first. */
  lemma {:induction false} UnbeatenWins(c: Cell, ops: seq<Op>, t: nat, keepsLargest: bool)
    requires UpTo(c, t) && NoneNewer(ops, t) && !Blocks(c.tomb, t)
    requires forall d: nat | Delete(d) in ops :: d < t
    requires (c.entry.Some? && c.entry.value.timestamp == t) || FirstAt(ops, t).Some?
    ensures CellRun(c, ops, keepsLargest).entry
            == if c.entry.Some? && c.entry.value.timestamp == t then c.entry else FirstAt(ops, t)
    decreases |ops|
  {
    if ops != [] {
      assert ops[0] in ops && forall o | o in ops[1..] :: o in ops;
      UnbeatenWins(CellStep(c, ops[0], keepsLargest), ops[1..], t, keepsLargest);
    }
  }

  lemma {:induction false} FirstIs(ops: seq<Op>, t: nat)
    ensures FirstAt(ops, t).Some? ==> Put(FirstAt(ops, t).value) in ops && FirstAt(ops, t).value.timestamp == t
    ensures FirstAt(ops, t).None? ==> forall w: Video | Put(w) in ops :: w.timestamp != t
    decreases |ops|
  {
    if ops != [] {
      FirstIs(ops[1..], t);
      assert ops == [ops[0]] + ops[1..];
    }
  }

  /** Either the tombstone already blocks that time, or a deletion that does is still to come. */
  ghost predicate Doomed(c: Cell, ops: seq<Op>, t: nat)
  {
    && UpTo(c, t)
    && ((c.entry.None? && Blocks(c.tomb, t)) || exists d: nat | Delete(d) in ops :: Blocks(d, t))
  }

  /** If every deletion blocks by itself, or the largest is kept, a doomed video is gone at the end. */
  lemma {:induction false} DoomedLoses(c: Cell, ops: seq<Op>, t: nat, keepsLargest: bool)
    requires Doomed(c, ops, t) && NoneNewer(ops, t)
    requires keepsLargest || forall d: nat | Delete(d) in ops :: Blocks(d, t)
    ensures CellRun(c, ops, keepsLargest).entry == None
    decreases |ops|
  {
    if ops != [] {
      assert ops[0] in ops && forall o | o in ops[1..] :: o in ops;
      var c' := CellStep(c, ops[0], keepsLargest);
      if !(c.entry.None? && Blocks(c.tomb, t)) {
        var d: nat :| Delete(d) in ops && Blocks(d, t);
        if ops[0] != Delete(d) { assert Delete(d) in ops[1..]; }
      }
      DoomedLoses(c', ops[1..], t, keepsLargest);
    }
  }

  // ---- orders of the same operations ----

  function Puts(ops: seq<Op>): seq<Op>
  {
    if ops == [] then [] else (if ops[0].Put? then [ops[0]] else []) + Puts(ops[1..])
  }

  function Deletes(ops: seq<Op>): seq<Op>
  {
    if ops == [] then [] else (if ops[0].Delete? then [ops[0]] else []) + Deletes(ops[1..])
  }

  lemma {:induction false} PutsThenDeletes(ops: seq<Op>)
    ensures multiset(Puts(ops) + Deletes(ops)) == multiset(ops)
    ensures forall o | o in Puts(ops) :: o.Put?
    ensures forall o | o in Deletes(ops) :: o.Delete?
  {
    if ops != [] {
      PutsThenDeletes(ops[1..]);
      assert ops == [ops[0]] + ops[1..];
    }
  }

  lemma SameMembers(p: seq<Op>, q: seq<Op>)
    requires multiset(p) == multiset(q)
    ensures forall o :: o in p <==> o in q
  {
    assert forall o :: o in p <==> o in multiset(p);
    assert forall o :: o in q <==> o in multiset(q);
  }

  /** With all videos first and all deletions after them, a beaten video is gone. */
  lemma {:induction false} BlockedPuts(c: Cell, ops: seq<Op>, t: nat)
    requires c.entry.None? && Blocks(c.tomb, t) && NoneNewer(ops, t)
    requires forall o | o in ops :: o.Put?
    ensures CellRun(c, ops, false) == c
    decreases |ops|
  {
    if ops != [] {
      assert ops[0] in ops && forall o | o in ops[1..] :: o in ops;
      BlockedPuts(c, ops[1..], t);
    }
  }

  lemma {:induction false} OnlyDeletes(c: Cell, ops: seq<Op>, t: nat)
    requires forall o | o in ops :: o.Delete?
    requires UpTo(c, t) && (c.entry.None? || exists d: nat | Delete(d) in ops :: d >= t)
    ensures CellRun(c, ops, false).entry == None
    decreases |ops|
  {
    if ops != [] {
      assert ops[0] in ops && forall o | o in ops[1..] :: o in ops;
      if c.entry.Some? {
        var d: nat :| Delete(d) in ops && d >= t;
        if ops[0] != Delete(d) { assert Delete(d) in ops[1..]; }
      }
      OnlyDeletes(CellStep(c, ops[0], false), ops[1..], t);
    }
  }

  lemma BeatenCanLose(ops: seq<Op>, tomb: nat, v: Video) returns (p: seq<Op>)
    requires Newest(ops, v) && Beaten(ops, tomb, v)
    ensures multiset(p) == multiset(ops) && CellRun(Cell(None, tomb), p, false).entry == None
  {
    p := Puts(ops) + Deletes(ops);
    PutsThenDeletes(ops);
    SameMembers(p, ops);
    var c, t := Cell(None, tomb), v.timestamp;
    RunConcat(c, Puts(ops), Deletes(ops), false);
    assert NoneNewer(Puts(ops), t);
    if Blocks(tomb, t) {
      BlockedPuts(c, Puts(ops), t);
    } else {
      var d: nat :| Delete(d) in ops && d >= t;
      assert Delete(d) in Deletes(ops);
    }
    StaysUpTo(c, Puts(ops), t, false);
    OnlyDeletes(CellRun(c, Puts(ops), false), Deletes(ops), t);
  }

  lemma MoveLast(ops: seq<Op>, o: Op) returns (rest: seq<Op>)
    requires o in ops
    ensures multiset(rest + [o]) == multiset(ops) && multiset([o] + rest) == multiset(ops)
    ensures forall x | x in ops && x != o :: x in rest
    ensures forall x | x in rest :: x in ops
  {
    var i :| 0 <= i < |ops| && ops[i] == o;
    rest := ops[..i] + ops[i + 1..];
    assert ops == ops[..i] + [o] + ops[i + 1..];
  }

  /** A deletion too old to block the newest video, and then that video, last of all, leave a video. */
  lemma EndsWith(c: Cell, rest: seq<Op>, d: nat, v: Video, keepsLargest: bool)
    requires UpTo(c, v.timestamp) && NoneNewer(rest, v.timestamp)
    requires var x := CellRun(c, rest, keepsLargest); !Blocks(Recorded(x.tomb, d, keepsLargest), v.timestamp)
    ensures CellRun(c, rest + [Delete(d), Put(v)], keepsLargest).entry.Some?
  {
    var ending := [Delete(d), Put(v)];
    StaysUpTo(c, rest, v.timestamp, keepsLargest);
    RunConcat(c, rest, ending, keepsLargest);
    var x := CellRun(c, rest, keepsLargest);
    var y := CellStep(x, Delete(d), keepsLargest);
    var z := CellStep(y, Put(v), keepsLargest);
    assert UpTo(y, v.timestamp) && z.entry.Some?;
    assert ending[1..] == [Put(v)] && [Put(v)][1..] == [];
    assert CellRun(y, [Put(v)], keepsLargest) == CellRun(z, [], keepsLargest) == z;
  }

  /** A fragile video comes through when a deletion too old to block it comes right before it, last of all. */
  lemma FragileCanWin(ops: seq<Op>, tomb: nat, v: Video) returns (p: seq<Op>)
    requires Newest(ops, v) && Fragile(ops, tomb, v)
    ensures multiset(p) == multiset(ops) && CellRun(Cell(None, tomb), p, false).entry.Some?
  {
    var d: nat :| Delete(d) in ops && !Blocks(d, v.timestamp);
    var most := MoveLast(ops, Put(v));
    var rest := MoveLast(most, Delete(d));
    p := rest + [Delete(d), Put(v)];
    assert p == (rest + [Delete(d)]) + [Put(v)];
    EndsWith(Cell(None, tomb), rest, d, v, false);
  }

  // ---- the merge ----

  lemma UnbeatenFirst(ops: seq<Op>, tomb: nat, v: Video, p: seq<Op>, keepsLargest: bool)
    requires Newest(ops, v) && !Beaten(ops, tomb, v) && multiset(p) == multiset(ops)
    ensures FirstAt(p, v.timestamp).Some? && Newest(ops, FirstAt(p, v.timestamp).value)
    ensures CellRun(Cell(None, tomb), p, keepsLargest).entry == FirstAt(p, v.timestamp)
  {
    SameMembers(p, ops);
    FirstIs(p, v.timestamp);
    UnbeatenWins(Cell(None, tomb), p, v.timestamp, keepsLargest);
  }

  /**
   The handler settles on a right answer for every order of delivery exactly when the operations
   are not fragile, that is, unless an older deletion could overwrite the tombstone that keeps the
   newest video away.
   */
  lemma MergeConvergesIff(ops: seq<Op>, tomb: nat, v: Video)
    requires Newest(ops, v)
    ensures (forall p: seq<Op> | multiset(p) == multiset(ops) :: Right(CellRun(Cell(None, tomb), p, false), ops, tomb, v))
            <==> !Fragile(ops, tomb, v)
  {
    var c := Cell(None, tomb);
    if Fragile(ops, tomb, v) {
      var p := FragileCanWin(ops, tomb, v);
      assert !Right(CellRun(c, p, false), ops, tomb, v);
    } else {
      forall p: seq<Op> | multiset(p) == multiset(ops) ensures Right(CellRun(c, p, false), ops, tomb, v) {
        if Beaten(ops, tomb, v) {
          SameMembers(p, ops);
          DoomedLoses(c, p, v.timestamp, false);
        } else {
          UnbeatenFirst(ops, tomb, v, p, false);
        }
      }
    }
  }

  /** For a whole run of the handler: whatever else was delivered, a video that is not fragile ends up right. */
  lemma FeedConverges(stored: map<string, nat>, events: seq<Event>, states: seq<State>, key: string, v: Video)
    requires Runs(State(map[], stored), events, states)
    requires Newest(OpsFor(events, key), v) && !Fragile(OpsFor(events, key), CellOf(states[0], key).tomb, v)
    ensures Right(CellOf(states[|events|], key), OpsFor(events, key), CellOf(states[0], key).tomb, v)
  {
    var ops, tomb := OpsFor(events, key), CellOf(states[0], key).tomb;
    VideosAreIndependent(states[0], events, states, key);
    MergeConvergesIff(ops, tomb, v);
    assert CellOf(states[0], key) == Cell(None, tomb);
    assert multiset(ops) == multiset(ops);
  }

  /** Of two newest videos that nothing beats, the one delivered first stays. */
  lemma TiedOrders(ops: seq<Op>, tomb: nat, v: Video, w: Video) returns (p: seq<Op>, q: seq<Op>)
    requires Newest(ops, v) && Put(w) in ops && w.timestamp == v.timestamp && !Beaten(ops, tomb, v)
    ensures multiset(p) == multiset(ops) && multiset(q) == multiset(ops)
    ensures CellRun(Cell(None, tomb), p, false).entry == Some(v) && CellRun(Cell(None, tomb), q, false).entry == Some(w)
  {
    var r := MoveLast(ops, Put(v));
    var s := MoveLast(ops, Put(w));
    p, q := [Put(v)] + r, [Put(w)] + s;
    UnbeatenFirst(ops, tomb, v, p, false);
    UnbeatenFirst(ops, tomb, v, q, false);
  }

  /**
   Two orders of the same operations can end differently exactly when the operations are fragile, or
   nothing beats the newest video and another is as new.
   */
  lemma OrderMattersIff(ops: seq<Op>, tomb: nat, v: Video)
    requires Newest(ops, v)
    ensures (exists p: seq<Op>, q: seq<Op> | multiset(p) == multiset(ops) && multiset(q) == multiset(ops) ::
               CellRun(Cell(None, tomb), p, false).entry != CellRun(Cell(None, tomb), q, false).entry)
            <==> Fragile(ops, tomb, v) || (Tied(ops, v) && !Beaten(ops, tomb, v))
  {
    MergeConvergesIff(ops, tomb, v);
    var c := Cell(None, tomb);
    if Fragile(ops, tomb, v) {
      var p := FragileCanWin(ops, tomb, v);
      var q := BeatenCanLose(ops, tomb, v);
      assert CellRun(c, p, false).entry != CellRun(c, q, false).entry;
    } else if Tied(ops, v) && !Beaten(ops, tomb, v) {
      var w: Video :| Put(w) in ops && w != v && w.timestamp == v.timestamp;
      var p, q := TiedOrders(ops, tomb, v, w);
      assert CellRun(c, p, false).entry != CellRun(c, q, false).entry;
    } else {
      forall p: seq<Op>, q: seq<Op> | multiset(p) == multiset(ops) && multiset(q) == multiset(ops)
        ensures CellRun(c, p, false).entry == CellRun(c, q, false).entry
      {
        assert Right(CellRun(c, p, false), ops, tomb, v) && Right(CellRun(c, q, false), ops, tomb, v);
        OneAnswer(CellRun(c, p, false), CellRun(c, q, false), ops, tomb, v);
      }
    }
  }

  lemma OneAnswer(c: Cell, d: Cell, ops: seq<Op>, tomb: nat, v: Video)
    requires Newest(ops, v) && (Beaten(ops, tomb, v) || !Tied(ops, v))
    requires Right(c, ops, tomb, v) && Right(d, ops, tomb, v)
    ensures c.entry == d.entry
  {
    if !Beaten(ops, tomb, v) {
      assert c.entry.value.timestamp == v.timestamp && d.entry.value.timestamp == v.timestamp;
    }
  }

  /** Two videos of one time: whichever comes first stays. */
  lemma TieGoesToTheFirst(v: Video, w: Video)
    requires v != w && v.timestamp == w.timestamp
    ensures CellRun(Cell(None, 0), [Put(v), Put(w)], false).entry == Some(v)
    ensures CellRun(Cell(None, 0), [Put(w), Put(v)], false).entry == Some(w)
  {
    assert [Put(v), Put(w)][1..] == [Put(w)] && [Put(w), Put(v)][1..] == [Put(v)];
    assert [Put(v)][1..] == [] && [Put(w)][1..] == [];
    assert CellRun(Cell(Some(v), 0), [Put(w)], false).entry == Some(v);
    assert CellRun(Cell(Some(w), 0), [Put(v)], false).entry == Some(w);
  }

  /** Deletions at time 0 leave no tombstone to find. */
  ghost predicate OnlyZero(ops: seq<Op>, tomb: nat, v: Video)
  {
    v.timestamp == 0 && tomb == 0 && Delete(0) in ops && forall d: nat | Delete(d) in ops :: d == 0
  }

  lemma {:induction false} ZeroStays(c: Cell, ops: seq<Op>)
    requires c.tomb == 0 && forall d: nat | Delete(d) in ops :: d == 0
    ensures CellRun(c, ops, true).tomb == 0
    decreases |ops|
  {
    if ops != [] {
      assert ops[0] in ops && forall o | o in ops[1..] :: o in ops;
      ZeroStays(CellStep(c, ops[0], true), ops[1..]);
    }
  }

  /**
   If `recordDeletedVideo` kept the largest timestamp, every order of delivery would end right,
   except for a video of time 0 whose deletions are all of time 0 as well.
   */
  lemma KeepingTheLargestConvergesIff(ops: seq<Op>, tomb: nat, v: Video)
    requires Newest(ops, v)
    ensures (forall p: seq<Op> | multiset(p) == multiset(ops) :: Right(CellRun(Cell(None, tomb), p, true), ops, tomb, v))
            <==> !OnlyZero(ops, tomb, v)
  {
    var c := Cell(None, tomb);
    if OnlyZero(ops, tomb, v) {
      var most := MoveLast(ops, Put(v));
      var rest := MoveLast(most, Delete(0));
      var p := rest + [Delete(0), Put(v)];
      assert p == (rest + [Delete(0)]) + [Put(v)];
      ZeroStays(c, rest);
      EndsWith(c, rest, 0, v, true);
      assert !Right(CellRun(c, p, true), ops, tomb, v);
    } else {
      forall p: seq<Op> | multiset(p) == multiset(ops) ensures Right(CellRun(c, p, true), ops, tomb, v) {
        if Beaten(ops, tomb, v) {
          SameMembers(p, ops);
          DoomedLoses(c, p, v.timestamp, true);
        } else {
          UnbeatenFirst(ops, tomb, v, p, true);
        }
      }
    }
  }

  /** What is left of a tombstone when no further deletion comes: it goes with the first newer video. */
  lemma {:induction false} TombstoneAfter(c: Cell, ops: seq<Op>)
    requires forall d: nat :: Delete(d) !in ops
    ensures CellRun(c, ops, false).tomb == if exists v: Video | Put(v) in ops :: v.timestamp > c.tomb then 0 else c.tomb
    decreases |ops|
  {
    if ops != [] {
      assert ops[0] in ops && ops[0].Put? && forall o | o in ops[1..] :: o in ops;
      var next := CellStep(c, ops[0], false);
      TombstoneAfter(next, ops[1..]);
      assert ops == [ops[0]] + ops[1..];
    }
  }

  /**
   The tombstone that stays is the time of the last deletion, unless a video that is newer was
   delivered after it.
   */
  lemma TombstoneIs(c: Cell, before: seq<Op>, at: nat, later: seq<Op>)
    requires forall d: nat :: Delete(d) !in later
    ensures CellRun(c, before + [Delete(at)] + later, false).tomb
            == if exists v: Video | Put(v) in later :: v.timestamp > at then 0 else at
  {
    var mid := CellRun(c, before, false);
    RunConcat(c, before + [Delete(at)], later, false);
    RunConcat(c, before, [Delete(at)], false);
    assert [Delete(at)][1..] == [];
    assert CellRun(mid, [Delete(at)], false) == CellStep(mid, Delete(at), false);
    TombstoneAfter(CellStep(mid, Delete(at), false), later);
  }

  /** Without any video among the operations there is none at the end. */
  lemma {:induction false} NothingFromDeletions(ops: seq<Op>, tomb: nat, keepsLargest: bool)
    requires forall v: Video :: Put(v) !in ops
    ensures CellRun(Cell(None, tomb), ops, keepsLargest).entry == None
    decreases |ops|
  {
    if ops != [] {
      assert ops[0] in ops && forall o | o in ops[1..] :: o in ops;
      NothingFromDeletions(ops[1..], CellStep(Cell(None, tomb), ops[0], keepsLargest).tomb, keepsLargest);
    }
  }

  /** Deleted at 10 after a video of 7: a late copy of a deletion at 5 brings the video back. */
  lemma LateDeletionRevives(v: Video)
    requires v.timestamp == 7
    ensures CellRun(Cell(None, 0), [Delete(10), Delete(5), Put(v)], false).entry == Some(v)
    ensures CellRun(Cell(None, 0), [Delete(5), Delete(10), Put(v)], false).entry == None
    ensures CellRun(Cell(None, 0), [Put(v), Delete(10), Delete(5)], false).entry == None
  {
    var a, b, d := [Delete(10), Delete(5), Put(v)], [Delete(5), Delete(10), Put(v)], [Put(v), Delete(10), Delete(5)];
    assert a[1..] == [Delete(5), Put(v)] && a[1..][1..] == [Put(v)] && a[1..][1..][1..] == [];
    assert b[1..] == [Delete(10), Put(v)] && b[1..][1..] == [Put(v)] && b[1..][1..][1..] == [];
    assert d[1..] == [Delete(10), Delete(5)] && d[1..][1..] == [Delete(5)] && d[1..][1..][1..] == [];
    var a1 := CellStep(Cell(None, 0), a[0], false);
    assert CellRun(CellStep(a1, a[1], false), [Put(v)], false).entry == Some(v);
    var b1 := CellStep(Cell(None, 0), b[0], false);
    assert CellRun(CellStep(b1, b[1], false), [Put(v)], false).entry == None;
    var d1 := CellStep(Cell(None, 0), d[0], false);
    assert CellRun(CellStep(d1, d[1], false), [Delete(5)], false).entry == None;
  }
}
