/**
 The in-memory Nostr relay: namespaces, subscriptions and stored events.

 Each namespace has one table of subscriptions for all its connections and one of events; each
 connection also keeps a table of its own subscriptions. Matching is a library call, so it is a
 parameter here; it may throw, which ends the handling of that message.
 */
module Relay {
  import opened Wrappers

  // ---- insertion-ordered tables ----

  type Table<V> = seq<(string, V)>

  function Lookup<V>(t: Table<V>, k: string): Option<V>
  {
    if t == [] then None else if t[0].0 == k then Some(t[0].1) else Lookup(t[1..], k)
  }

  /** `Map.set`: an existing key keeps its place. */
  function Put<V>(t: Table<V>, k: string, v: V): Table<V>
  {
    if t == [] then [(k, v)] else if t[0].0 == k then [(k, v)] + t[1..] else [t[0]] + Put(t[1..], k, v)
  }

  /** `Map.delete`. */
  function Drop<V>(t: Table<V>, k: string): Table<V>
  {
    if t == [] then [] else if t[0].0 == k then Drop(t[1..], k) else [t[0]] + Drop(t[1..], k)
  }

  predicate Unique<V>(t: Table<V>)
  {
    t == [] || (Lookup(t[1..], t[0].0).None? && Unique(t[1..]))
  }

  lemma {:induction false} LookupPut<V>(t: Table<V>, k: string, v: V, x: string)
    ensures Lookup(Put(t, k, v), x) == if x == k then Some(v) else Lookup(t, x)
  {
    if t != [] && t[0].0 != k {
      LookupPut(t[1..], k, v, x);
    }
  }

  lemma {:induction false} LookupDrop<V>(t: Table<V>, k: string, x: string)
    ensures Lookup(Drop(t, k), x) == if x == k then None else Lookup(t, x)
  {
    if t != [] {
      LookupDrop(t[1..], k, x);
    }
  }

  lemma {:induction false} UniquePut<V>(t: Table<V>, k: string, v: V)
    requires Unique(t)
    ensures Unique(Put(t, k, v))
  {
    if t != [] && t[0].0 != k {
      UniquePut(t[1..], k, v);
      LookupPut(t[1..], k, v, t[0].0);
    }
  }

  lemma {:induction false} UniqueDrop<V>(t: Table<V>, k: string)
    requires Unique(t)
    ensures Unique(Drop(t, k))
  {
    if t != [] {
      UniqueDrop(t[1..], k);
      LookupDrop(t[1..], k, t[0].0);
    }
  }

  lemma {:induction false} Found<V>(t: Table<V>, k: string)
    ensures Lookup(t, k).Some? ==> (k, Lookup(t, k).value) in t
  {
    if t != [] && t[0].0 != k {
      Found(t[1..], k);
    }
  }

  lemma {:induction false} UniqueFinds<V>(t: Table<V>, i: nat)
    requires Unique(t) && i < |t|
    ensures Lookup(t, t[i].0) == Some(t[i].1)
  {
    if i > 0 {
      UniqueFinds(t[1..], i - 1);
    }
  }

  // ---- namespaces ----

  /** The text before the first `?`. */
  function BeforeQuery(url: string): string
  {
    if url == "" || url[0] == '?' then "" else [url[0]] + BeforeQuery(url[1..])
  }

  function StripSlashes(path: string): (r: string)
    ensures r <= path && (r == "" || r[|r| - 1] != '/')
  {
    if path == "" || path[|path| - 1] != '/' then path else StripSlashes(path[..|path| - 1])
  }

  function Normal(before: string): string
  {
    var path := if before == "" then "/" else before;
    var stripped := if path != "/" && path[|path| - 1] == '/' then StripSlashes(path) else path;
    if stripped == "" then "/" else stripped
  }

  function Namespace(url: Option<string>): string
  {
    if url.None? || url.value == "" then "/" else Normal(BeforeQuery(url.value))
  }

  lemma {:induction false} StripAll(path: string, slashes: string)
    requires forall c | c in slashes :: c == '/'
    ensures StripSlashes(path + slashes) == StripSlashes(path)
    decreases |slashes|
  {
    if slashes == "" {
      assert path + slashes == path;
    } else {
      var less := slashes[..|slashes| - 1];
      assert slashes[|slashes| - 1] in slashes && forall c | c in less :: c in slashes;
      assert (path + slashes)[..|path + slashes| - 1] == path + less;
      StripAll(path, less);
    }
  }

  lemma {:induction false} QueryCut(path: string, query: string)
    requires '?' !in path
    ensures BeforeQuery(path) == path && BeforeQuery(path + "?" + query) == path
  {
    if path != "" {
      QueryCut(path[1..], query);
      assert (path + "?" + query)[1..] == path[1..] + "?" + query;
    }
  }

  lemma NormalStrips(path: string)
    ensures Normal(path) == if StripSlashes(path) == "" then "/" else StripSlashes(path)
  {
    assert StripSlashes("/") == StripSlashes("") by { assert "/"[..0] == ""; }
  }

  /** A query and any number of trailing slashes do not change the namespace of a path. */
  lemma SameNamespace(path: string, slashes: string, query: string)
    requires '?' !in path && forall c | c in slashes :: c == '/'
    ensures Namespace(Some(path + slashes)) == Namespace(Some(path))
    ensures Namespace(Some(path + slashes + "?" + query)) == Namespace(Some(path))
    ensures var ns := Namespace(Some(path)); ns == "/" || (ns != "" && ns[|ns| - 1] != '/' && ns <= path)
  {
    QueryCut(path, query);
    QueryCut(path + slashes, query);
    StripAll(path, slashes);
    NormalStrips(path);
    NormalStrips(path + slashes);
    assert Namespace(Some(path)) == Normal(path);
    assert Namespace(Some(path + slashes)) == Normal(path + slashes);
  }

  // ---- the relay ----

  datatype Event = Event(id: string, body: string)

  /** The filters of a subscription, as JSON text. */
  type Filters = seq<string>

  datatype Outcome = Yes | No | Throws

  type Matcher = (Filters, Event) -> Outcome

  datatype Sub = Sub(con: string, lsub: string, filters: Filters)

  datatype Ns = Ns(gsubs: Table<Sub>, events: Table<Event>)

  datatype Sent = SentEvent(lsub: string, event: Event) | SentOk(id: string) | SentEose(lsub: string)

  /** A connection: `sent` is all it was ever sent. */
  datatype Conn = Conn(ns: string, live: bool, lsubs: Table<string>, sent: seq<Sent>)

  datatype State = State(namespaces: map<string, Ns>, conns: map<string, Conn>)

  const INITIAL := State(map[], map[])

  datatype Message = Publish(event: Event) | Req(lsub: string, filters: Filters) | Close(lsub: string) | Other

  datatype Action = Connect(con: string, url: Option<string>) | Say(con: string, message: Message)
                  | Disconnect(con: string) | ClearEvents

  function Gid(con: string, lsub: string): string { con + ":" + lsub }

  /** How far a broadcast gets: to the first subscriber whose matching throws. */
  function Reach(m: Matcher, subs: Table<Sub>, e: Event): (n: nat)
    ensures n <= |subs|
  {
    if subs == [] || m(subs[0].1.filters, e) == Throws then 0 else 1 + Reach(m, subs[1..], e)
  }

  /** What the subscriptions of connection `con` get of an event, in table order. */
  function Heard(m: Matcher, subs: Table<Sub>, e: Event, con: string): seq<Sent>
  {
    if subs == [] then []
    else
      (if subs[0].1.con == con && m(subs[0].1.filters, e) == Yes then [SentEvent(subs[0].1.lsub, e)] else [])
      + Heard(m, subs[1..], e, con)
  }

  function Delivery(m: Matcher, conns: map<string, Conn>, subs: Table<Sub>, e: Event): map<string, Conn>
  {
    map c | c in conns :: conns[c].(sent := conns[c].sent + Heard(m, subs, e, c))
  }

  /** How far the stored events are read: to the first on which matching throws. */
  function ReachStored(m: Matcher, events: Table<Event>, filters: Filters): (n: nat)
    ensures n <= |events|
  {
    if events == [] || m(filters, events[0].1) == Throws then 0 else 1 + ReachStored(m, events[1..], filters)
  }

  function Replay(m: Matcher, events: Table<Event>, lsub: string, filters: Filters): seq<Sent>
  {
    if events == [] then []
    else (if m(filters, events[0].1) == Yes then [SentEvent(lsub, events[0].1)] else []) + Replay(m, events[1..], lsub, filters)
  }

  function Told(conns: map<string, Conn>, con: string, sent: seq<Sent>): map<string, Conn>
    requires con in conns
  {
    conns[con := conns[con].(sent := conns[con].sent + sent)]
  }

  function Publishing(m: Matcher, s: State, con: string, e: Event): State
    requires con in s.conns && s.conns[con].ns in s.namespaces
  {
    var ns := s.conns[con].ns;
    var n := s.namespaces[ns];
    var reach := Reach(m, n.gsubs, e);
    var heard := Delivery(m, s.conns, n.gsubs[..reach], e);
    State(s.namespaces[ns := n.(events := Put(n.events, e.id, e))],
          if reach == |n.gsubs| then Told(heard, con, [SentOk(e.id)]) else heard)
  }

  function Subscribing(m: Matcher, s: State, con: string, lsub: string, filters: Filters): State
    requires con in s.conns && s.conns[con].ns in s.namespaces
  {
    var c := s.conns[con];
    var n := s.namespaces[c.ns];
    var reach := ReachStored(m, n.events, filters);
    var got := Replay(m, n.events[..reach], lsub, filters) + if reach == |n.events| then [SentEose(lsub)] else [];
    State(s.namespaces[c.ns := n.(gsubs := Put(n.gsubs, Gid(con, lsub), Sub(con, lsub, filters)))],
          s.conns[con := c.(lsubs := Put(c.lsubs, lsub, Gid(con, lsub)), sent := c.sent + got)])
  }

  function Unsubscribing(s: State, con: string, lsub: string): State
    requires con in s.conns && s.conns[con].ns in s.namespaces
  {
    var c := s.conns[con];
    var n := s.namespaces[c.ns];
    s.(namespaces := s.namespaces[c.ns := n.(gsubs := Drop(n.gsubs, Gid(con, lsub)))],
       conns := s.conns[con := c.(lsubs := Drop(c.lsubs, lsub))])
  }

  /** The `close` loop: every subscription of the connection leaves the table of the namespace. */
  function DropAll(gsubs: Table<Sub>, lsubs: Table<string>): Table<Sub>
    decreases |lsubs|
  {
    if lsubs == [] then gsubs else DropAll(Drop(gsubs, lsubs[0].1), lsubs[1..])
  }

  function Leaving(s: State, con: string): State
    requires con in s.conns && s.conns[con].ns in s.namespaces
  {
    var c := s.conns[con];
    var n := s.namespaces[c.ns];
    s.(namespaces := s.namespaces[c.ns := n.(gsubs := DropAll(n.gsubs, c.lsubs))],
       conns := s.conns[con := c.(lsubs := [], live := false)])
  }

  function Joining(s: State, con: string, url: Option<string>): State
  {
    var ns := Namespace(url);
    s.(namespaces := if ns in s.namespaces then s.namespaces else s.namespaces[ns := Ns([], [])],
       conns := s.conns[con := Conn(ns, true, [], [])])
  }

  function Emptied(namespaces: map<string, Ns>): map<string, Ns>
  {
    map ns | ns in namespaces :: namespaces[ns].(events := [])
  }

  /** Connection ids are random digits; a new one is taken to differ from every earlier one. */
  predicate Enabled(s: State, a: Action)
  {
    match a
    case Connect(con, _) => con !in s.conns && ':' !in con
    case Say(con, _) => con in s.conns && s.conns[con].live && s.conns[con].ns in s.namespaces
    case Disconnect(con) => con in s.conns && s.conns[con].live && s.conns[con].ns in s.namespaces
    case ClearEvents => true
  }

  function Step(m: Matcher, s: State, a: Action): State
    requires Enabled(s, a)
  {
    match a
    case Connect(con, url) => Joining(s, con, url)
    case Say(con, Publish(e)) => Publishing(m, s, con, e)
    case Say(con, Req(lsub, filters)) => Subscribing(m, s, con, lsub, filters)
    case Say(con, Close(lsub)) => Unsubscribing(s, con, lsub)
    case Say(_, Other) => s
    case Disconnect(con) => Leaving(s, con)
    case ClearEvents => s.(namespaces := Emptied(s.namespaces))
  }

  ghost predicate Reaches(m: Matcher, s: State, actions: seq<Action>, end: State)
    decreases |actions|
  {
    if actions == [] then s == end
    else Enabled(s, actions[0]) && Reaches(m, Step(m, s, actions[0]), actions[1..], end)
  }

  // ---- the two tables of subscriptions ----

  function Global(s: State, ns: string, key: string): Option<Sub>
  {
    if ns in s.namespaces then Lookup(s.namespaces[ns].gsubs, key) else None
  }

  function Local(s: State, con: string, lsub: string): Option<string>
  {
    if con in s.conns then Lookup(s.conns[con].lsubs, lsub) else None
  }

  function Stored(s: State, ns: string, id: string): Option<Event>
  {
    if ns in s.namespaces then Lookup(s.namespaces[ns].events, id) else None
  }

  ghost predicate Shape(s: State)
  {
    && (forall c | c in s.conns :: ':' !in c && s.conns[c].ns in s.namespaces && Unique(s.conns[c].lsubs)
                                   && (!s.conns[c].live ==> s.conns[c].lsubs == []))
    && (forall ns | ns in s.namespaces :: Unique(s.namespaces[ns].gsubs) && Unique(s.namespaces[ns].events))
  }

  /** A subscription of the namespace table is one that its connection knows of. */
  ghost predicate GlobalIsLocal(s: State)
  {
    forall ns, key | Global(s, ns, key).Some? :: Owned(s, ns, key, Global(s, ns, key).value)
  }

  ghost predicate Owned(s: State, ns: string, key: string, sub: Sub)
  {
    && key == Gid(sub.con, sub.lsub) && sub.con in s.conns && s.conns[sub.con].ns == ns
    && Local(s, sub.con, sub.lsub) == Some(key)
  }

  ghost predicate LocalIsGlobal(s: State)
  {
    forall c, l | Local(s, c, l).Some? :: Shared(s, c, l, Local(s, c, l).value)
  }

  ghost predicate Shared(s: State, c: string, l: string, key: string)
  {
    && c in s.conns && s.conns[c].live && key == Gid(c, l)
    && var g := Global(s, s.conns[c].ns, key); g.Some? && g.value.con == c && g.value.lsub == l
  }

  ghost predicate Tables(s: State) { Shape(s) && GlobalIsLocal(s) && LocalIsGlobal(s) }

  /** The part of a subscription key before its first colon. */
  function Owner(key: string): string
  {
    if key == "" || key[0] == ':' then "" else [key[0]] + Owner(key[1..])
  }

  lemma {:induction false} OwnerOfGid(c: string, l: string)
    requires ':' !in c
    ensures Owner(Gid(c, l)) == c
  {
    if c == "" {
      assert Gid(c, l)[0] == ':';
    } else {
      assert Gid(c, l)[1..] == Gid(c[1..], l);
      OwnerOfGid(c[1..], l);
    }
  }

  /** Keys of different connections differ, and so do those of different subscriptions of one. */
  lemma GidInjective(c: string, l: string, d: string, k: string)
    requires ':' !in c && ':' !in d && Gid(c, l) == Gid(d, k)
    ensures c == d && l == k
  {
    OwnerOfGid(c, l);
    OwnerOfGid(d, k);
    assert l == Gid(c, l)[|c| + 1..] && k == Gid(d, k)[|d| + 1..];
  }

  // ---- the tables stay in step ----

  lemma GlobalAfterReq(m: Matcher, s: State, con: string, lsub: string, filters: Filters, ns: string, key: string)
    requires con in s.conns && s.conns[con].ns in s.namespaces
    ensures Global(Subscribing(m, s, con, lsub, filters), ns, key)
            == if ns == s.conns[con].ns && key == Gid(con, lsub) then Some(Sub(con, lsub, filters)) else Global(s, ns, key)
  {
    LookupPut(s.namespaces[s.conns[con].ns].gsubs, Gid(con, lsub), Sub(con, lsub, filters), key);
  }

  lemma LocalAfterReq(m: Matcher, s: State, con: string, lsub: string, filters: Filters, c: string, l: string)
    requires con in s.conns && s.conns[con].ns in s.namespaces
    ensures Local(Subscribing(m, s, con, lsub, filters), c, l)
            == if c == con && l == lsub then Some(Gid(con, lsub)) else Local(s, c, l)
  {
    LookupPut(s.conns[con].lsubs, lsub, Gid(con, lsub), l);
  }

  lemma ReqKeepsTables(m: Matcher, s: State, con: string, lsub: string, filters: Filters)
    requires Tables(s) && con in s.conns && s.conns[con].live
    ensures Tables(Subscribing(m, s, con, lsub, filters))
  {
    var t := Subscribing(m, s, con, lsub, filters);
    var ns := s.conns[con].ns;
    UniquePut(s.conns[con].lsubs, lsub, Gid(con, lsub));
    UniquePut(s.namespaces[ns].gsubs, Gid(con, lsub), Sub(con, lsub, filters));
    assert Shape(t);
    forall n, key | Global(t, n, key).Some? ensures Owned(t, n, key, Global(t, n, key).value) {
      var sub := Global(t, n, key).value;
      GlobalAfterReq(m, s, con, lsub, filters, n, key);
      LocalAfterReq(m, s, con, lsub, filters, sub.con, sub.lsub);
    }
    forall c, l | Local(t, c, l).Some? ensures Shared(t, c, l, Local(t, c, l).value) {
      LocalAfterReq(m, s, con, lsub, filters, c, l);
      GlobalAfterReq(m, s, con, lsub, filters, t.conns[c].ns, Gid(c, l));
      if Gid(c, l) == Gid(con, lsub) { GidInjective(c, l, con, lsub); }
    }
  }

  lemma GlobalAfterClose(s: State, con: string, lsub: string, ns: string, key: string)
    requires con in s.conns && s.conns[con].ns in s.namespaces
    ensures Global(Unsubscribing(s, con, lsub), ns, key)
            == if ns == s.conns[con].ns && key == Gid(con, lsub) then None else Global(s, ns, key)
  {
    LookupDrop(s.namespaces[s.conns[con].ns].gsubs, Gid(con, lsub), key);
  }

  lemma LocalAfterClose(s: State, con: string, lsub: string, c: string, l: string)
    requires con in s.conns && s.conns[con].ns in s.namespaces
    ensures Local(Unsubscribing(s, con, lsub), c, l) == if c == con && l == lsub then None else Local(s, c, l)
  {
    LookupDrop(s.conns[con].lsubs, lsub, l);
  }

  lemma CloseKeepsTables(s: State, con: string, lsub: string)
    requires Tables(s) && con in s.conns && s.conns[con].live
    ensures Tables(Unsubscribing(s, con, lsub))
  {
    var t := Unsubscribing(s, con, lsub);
    UniqueDrop(s.conns[con].lsubs, lsub);
    UniqueDrop(s.namespaces[s.conns[con].ns].gsubs, Gid(con, lsub));
    assert Shape(t);
    forall n, key | Global(t, n, key).Some? ensures Owned(t, n, key, Global(t, n, key).value) {
      var sub := Global(t, n, key).value;
      GlobalAfterClose(s, con, lsub, n, key);
      LocalAfterClose(s, con, lsub, sub.con, sub.lsub);
    }
    forall c, l | Local(t, c, l).Some? ensures Shared(t, c, l, Local(t, c, l).value) {
      LocalAfterClose(s, con, lsub, c, l);
      GlobalAfterClose(s, con, lsub, t.conns[c].ns, Gid(c, l));
      if Gid(c, l) == Gid(con, lsub) { GidInjective(c, l, con, lsub); }
    }
  }

  /** Exactly the keys listed in the connection's own table go. */
  lemma {:induction false} LookupDropAll(gsubs: Table<Sub>, lsubs: Table<string>, key: string)
    ensures (exists i :: 0 <= i < |lsubs| && lsubs[i].1 == key) ==> Lookup(DropAll(gsubs, lsubs), key).None?
    ensures (forall i | 0 <= i < |lsubs| :: lsubs[i].1 != key) ==> Lookup(DropAll(gsubs, lsubs), key) == Lookup(gsubs, key)
    ensures Unique(gsubs) ==> Unique(DropAll(gsubs, lsubs))
    decreases |lsubs|
  {
    if lsubs != [] {
      LookupDrop(gsubs, lsubs[0].1, key);
      if Unique(gsubs) { UniqueDrop(gsubs, lsubs[0].1); }
      LookupDropAll(Drop(gsubs, lsubs[0].1), lsubs[1..], key);
      if lsubs[0].1 == key { GoneStaysGone(Drop(gsubs, key), lsubs[1..], key); }
      if i :| 1 <= i < |lsubs| && lsubs[i].1 == key {
        assert lsubs[1..][i - 1].1 == key;
      }
    }
  }

  lemma {:induction false} GoneStaysGone(gsubs: Table<Sub>, lsubs: Table<string>, key: string)
    requires Lookup(gsubs, key).None?
    ensures Lookup(DropAll(gsubs, lsubs), key).None?
    decreases |lsubs|
  {
    if lsubs != [] {
      LookupDrop(gsubs, lsubs[0].1, key);
      GoneStaysGone(Drop(gsubs, lsubs[0].1), lsubs[1..], key);
    }
  }

  /** When a connection closes, its subscriptions leave the namespace table, and no others do. */
  lemma GlobalAfterLeaving(s: State, con: string, ns: string, key: string)
    requires Tables(s) && con in s.conns
    ensures Global(Leaving(s, con), ns, key)
            == if Global(s, ns, key).Some? && Global(s, ns, key).value.con == con then None else Global(s, ns, key)
  {
    var c := s.conns[con];
    LookupDropAll(s.namespaces[c.ns].gsubs, c.lsubs, key);
    if ns == c.ns {
      if i :| 0 <= i < |c.lsubs| && c.lsubs[i].1 == key {
        UniqueFinds(c.lsubs, i);
        assert Local(s, con, c.lsubs[i].0) == Some(key);
        assert Shared(s, con, c.lsubs[i].0, key);
      } else if Global(s, ns, key).Some? {
        var sub := Global(s, ns, key).value;
        assert Owned(s, ns, key, sub);
        if sub.con == con {
          Found(c.lsubs, sub.lsub);
        }
      }
    } else if Global(s, ns, key).Some? {
      assert Owned(s, ns, key, Global(s, ns, key).value);
    }
  }

  lemma LeavingKeepsTables(s: State, con: string)
    requires Tables(s) && con in s.conns
    ensures Tables(Leaving(s, con))
  {
    var t := Leaving(s, con);
    LookupDropAll(s.namespaces[s.conns[con].ns].gsubs, s.conns[con].lsubs, "");
    assert Shape(t);
    forall n, key | Global(t, n, key).Some? ensures Owned(t, n, key, Global(t, n, key).value) {
      GlobalAfterLeaving(s, con, n, key);
      assert Owned(s, n, key, Global(s, n, key).value);
    }
    forall c, l | Local(t, c, l).Some? ensures Shared(t, c, l, Local(t, c, l).value) {
      assert c != con && Local(s, c, l).Some?;
      assert Shared(s, c, l, Local(s, c, l).value);
      GlobalAfterLeaving(s, con, t.conns[c].ns, Gid(c, l));
    }
  }

  /** Tables only depend on the subscription tables and on who is connected where. */
  ghost predicate SameTables(s: State, t: State)
  {
    && t.conns.Keys == s.conns.Keys && t.namespaces.Keys == s.namespaces.Keys
    && (forall c | c in s.conns :: t.conns[c].ns == s.conns[c].ns && t.conns[c].live == s.conns[c].live && t.conns[c].lsubs == s.conns[c].lsubs)
    && (forall ns | ns in s.namespaces :: t.namespaces[ns].gsubs == s.namespaces[ns].gsubs && Unique(t.namespaces[ns].events))
  }

  lemma SameTablesKeep(s: State, t: State)
    requires Tables(s) && SameTables(s, t)
    ensures Tables(t)
  {
    forall n, key | Global(t, n, key).Some? ensures Owned(t, n, key, Global(t, n, key).value) {
      assert Global(s, n, key) == Global(t, n, key);
      assert Owned(s, n, key, Global(s, n, key).value);
    }
    forall c, l | Local(t, c, l).Some? ensures Shared(t, c, l, Local(t, c, l).value) {
      assert Local(s, c, l) == Local(t, c, l);
      assert Shared(s, c, l, Local(s, c, l).value);
      assert Global(s, s.conns[c].ns, Gid(c, l)) == Global(t, t.conns[c].ns, Gid(c, l));
    }
  }

  lemma JoiningKeepsTables(s: State, con: string, url: Option<string>)
    requires Tables(s) && con !in s.conns && ':' !in con
    ensures Tables(Joining(s, con, url))
  {
    var t := Joining(s, con, url);
    forall n, key | Global(t, n, key).Some? ensures Owned(t, n, key, Global(t, n, key).value) {
      assert Global(s, n, key) == Global(t, n, key);
      assert Owned(s, n, key, Global(s, n, key).value);
    }
    forall c, l | Local(t, c, l).Some? ensures Shared(t, c, l, Local(t, c, l).value) {
      assert Local(s, c, l) == Local(t, c, l);
      assert Shared(s, c, l, Local(s, c, l).value);
      assert Global(s, s.conns[c].ns, Gid(c, l)) == Global(t, t.conns[c].ns, Gid(c, l));
    }
  }

  lemma PublishingSameTables(m: Matcher, s: State, con: string, e: Event)
    requires Shape(s) && con in s.conns
    ensures SameTables(s, Publishing(m, s, con, e))
  {
    UniquePut(s.namespaces[s.conns[con].ns].events, e.id, e);
  }

  lemma StepKeepsTables(m: Matcher, s: State, a: Action)
    requires Tables(s) && Enabled(s, a)
    ensures Tables(Step(m, s, a))
  {
    match a
    case Connect(con, url) => JoiningKeepsTables(s, con, url);
    case Say(con, Publish(e)) =>
      PublishingSameTables(m, s, con, e);
      SameTablesKeep(s, Publishing(m, s, con, e));
    case Say(con, Req(lsub, filters)) => ReqKeepsTables(m, s, con, lsub, filters);
    case Say(con, Close(lsub)) => CloseKeepsTables(s, con, lsub);
    case Say(_, Other) =>
    case Disconnect(con) => LeavingKeepsTables(s, con);
    case ClearEvents => SameTablesKeep(s, Step(m, s, a));
  }

  lemma {:induction false} RunKeepsTables(m: Matcher, s: State, actions: seq<Action>, end: State)
    requires Tables(s) && Reaches(m, s, actions, end)
    ensures Tables(end)
    decreases |actions|
  {
    if actions != [] {
      StepKeepsTables(m, s, actions[0]);
      RunKeepsTables(m, Step(m, s, actions[0]), actions[1..], end);
    }
  }

  /** `key` is in the own table of the open connection `c` of namespace `ns`, under `l`. */
  ghost predicate Belongs(s: State, ns: string, c: string, l: string, key: string)
  {
    c in s.conns && s.conns[c].live && s.conns[c].ns == ns && Local(s, c, l) == Some(key)
  }

  /**
   In every reachable state the table of a namespace is the disjoint union of the tables of its open
   connections: a key is in it exactly when one of them has it, and then only one, under one name.
   */
  lemma TablesAreDisjointUnion(m: Matcher, actions: seq<Action>, s: State, ns: string, key: string)
    requires Reaches(m, INITIAL, actions, s)
    ensures Global(s, ns, key).Some? <==> exists c, l :: Belongs(s, ns, c, l, key)
    ensures forall c, l | Belongs(s, ns, c, l, key) ::
              Global(s, ns, key).Some? && Global(s, ns, key).value.con == c && Global(s, ns, key).value.lsub == l
  {
    RunKeepsTables(m, INITIAL, actions, s);
    forall c, l | Belongs(s, ns, c, l, key)
      ensures Global(s, ns, key).Some? && Global(s, ns, key).value.con == c && Global(s, ns, key).value.lsub == l
    {
      assert Shared(s, c, l, Local(s, c, l).value);
    }
    if Global(s, ns, key).Some? {
      var sub := Global(s, ns, key).value;
      assert Owned(s, ns, key, sub);
      assert Shared(s, sub.con, sub.lsub, key);
      assert Belongs(s, ns, sub.con, sub.lsub, key);
    }
  }

  // ---- what is sent ----

  lemma {:induction false} ReachMeans(m: Matcher, subs: Table<Sub>, e: Event, i: nat)
    requires i < |subs|
    ensures i < Reach(m, subs, e) <==> forall j | 0 <= j <= i :: m(subs[j].1.filters, e) != Throws
  {
    if m(subs[0].1.filters, e) != Throws && i > 0 {
      ReachMeans(m, subs[1..], e, i - 1);
      assert forall j | 0 <= j <= i - 1 :: subs[1..][j] == subs[j + 1];
      assert (forall j | 0 <= j <= i - 1 :: m(subs[1..][j].1.filters, e) != Throws)
        ==> forall j | 0 <= j <= i :: m(subs[j].1.filters, e) != Throws by {
        if forall j | 0 <= j <= i - 1 :: m(subs[1..][j].1.filters, e) != Throws {
          forall j | 0 <= j <= i ensures m(subs[j].1.filters, e) != Throws {
            if j > 0 { assert subs[1..][j - 1] == subs[j]; }
          }
        }
      }
    }
  }

  lemma {:induction false} HeardFrom(m: Matcher, subs: Table<Sub>, e: Event, con: string, x: Sent) returns (i: nat)
    requires x in Heard(m, subs, e, con)
    ensures i < |subs| && subs[i].1.con == con && x == SentEvent(subs[i].1.lsub, e) && m(subs[i].1.filters, e) == Yes
  {
    if subs[0].1.con == con && m(subs[0].1.filters, e) == Yes && x == SentEvent(subs[0].1.lsub, e) {
      i := 0;
    } else {
      var j := HeardFrom(m, subs[1..], e, con, x);
      i := j + 1;
    }
  }

  lemma {:induction false} ReplayHas(m: Matcher, events: Table<Event>, lsub: string, filters: Filters, i: nat)
    requires i < |events| && m(filters, events[i].1) == Yes
    ensures SentEvent(lsub, events[i].1) in Replay(m, events, lsub, filters)
  {
    if i > 0 {
      ReplayHas(m, events[1..], lsub, filters, i - 1);
    }
  }

  lemma {:induction false} ReplayFrom(m: Matcher, events: Table<Event>, lsub: string, filters: Filters, x: Sent) returns (i: nat)
    requires x in Replay(m, events, lsub, filters)
    ensures i < |events| && x == SentEvent(lsub, events[i].1) && m(filters, events[i].1) == Yes
  {
    if m(filters, events[0].1) == Yes && x == SentEvent(lsub, events[0].1) {
      i := 0;
    } else {
      var j := ReplayFrom(m, events[1..], lsub, filters, x);
      i := j + 1;
    }
  }

  lemma {:induction false} HeardNone(m: Matcher, subs: Table<Sub>, e: Event, con: string, lsub: string)
    requires forall k | 0 <= k < |subs| :: !(subs[k].1.con == con && subs[k].1.lsub == lsub)
    ensures multiset(Heard(m, subs, e, con))[SentEvent(lsub, e)] == 0
  {
    if SentEvent(lsub, e) in Heard(m, subs, e, con) { var k := HeardFrom(m, subs, e, con, SentEvent(lsub, e)); }
  }

  lemma {:induction false} HeardOnce(m: Matcher, subs: Table<Sub>, e: Event, i: nat)
    requires i < |subs|
    requires forall k | 0 <= k < |subs| && k != i :: !(subs[k].1.con == subs[i].1.con && subs[k].1.lsub == subs[i].1.lsub)
    ensures multiset(Heard(m, subs, e, subs[i].1.con))[SentEvent(subs[i].1.lsub, e)] == if m(subs[i].1.filters, e) == Yes then 1 else 0
  {
    var sub, rest := subs[i].1, Heard(m, subs[1..], e, subs[i].1.con);
    forall k | 0 <= k < |subs[1..]| && k + 1 != i ensures !(subs[1..][k].1.con == sub.con && subs[1..][k].1.lsub == sub.lsub) {
      assert subs[1..][k] == subs[k + 1];
    }
    if i > 0 {
      HeardOnce(m, subs[1..], e, i - 1);
      assert !(subs[0].1.con == sub.con && subs[0].1.lsub == sub.lsub);
    } else {
      HeardNone(m, subs[1..], e, sub.con, sub.lsub);
    }
    var here := if subs[0].1.con == sub.con && m(subs[0].1.filters, e) == Yes then [SentEvent(subs[0].1.lsub, e)] else [];
    assert multiset(here + rest) == multiset(here) + multiset(rest);
  }

  /** Subscriber `i` is in the part of the table that a broadcast gets through, and there once. */
  lemma HeardIff(m: Matcher, s: State, ns: string, e: Event, i: nat)
    requires Tables(s) && ns in s.namespaces && i < |s.namespaces[ns].gsubs|
    ensures var gsubs := s.namespaces[ns].gsubs;
            var sub, reach := gsubs[i].1, Reach(m, gsubs, e);
            multiset(Heard(m, gsubs[..reach], e, sub.con))[SentEvent(sub.lsub, e)]
            == if i < reach && m(sub.filters, e) == Yes then 1 else 0
  {
    var gsubs := s.namespaces[ns].gsubs;
    var sub, reach := gsubs[i].1, Reach(m, gsubs, e);
    var part := gsubs[..reach];
    forall k | 0 <= k < |part| && k != i ensures !(part[k].1.con == sub.con && part[k].1.lsub == sub.lsub) {
      if part[k].1.con == sub.con && part[k].1.lsub == sub.lsub { SameSub(s, ns, i, k); }
    }
    if i < reach { HeardOnce(m, part, e, i); } else { HeardNone(m, part, e, sub.con, sub.lsub); }
  }

  lemma MoreSent(was: seq<Sent>, more: seq<Sent>, end: seq<Sent>, told: seq<Sent>, x: Sent)
    requires told == was + more + end && x !in end
    ensures was <= told && multiset(told[|was|..])[x] == multiset(more)[x]
  {
    assert told[|was|..] == more + end;
    assert multiset(more + end) == multiset(more) + multiset(end);
  }

  /** The events a publication sends to a connection. */
  lemma PublishTells(m: Matcher, s: State, con: string, e: Event, c: string, x: Sent)
    requires Enabled(s, Say(con, Publish(e))) && c in s.conns && x.SentEvent?
    ensures var gsubs := s.namespaces[s.conns[con].ns].gsubs;
            var was, told := s.conns[c].sent, Publishing(m, s, con, e).conns[c].sent;
            was <= told && multiset(told[|was|..])[x] == multiset(Heard(m, gsubs[..Reach(m, gsubs, e)], e, c))[x]
  {
    var gsubs := s.namespaces[s.conns[con].ns].gsubs;
    var reach := Reach(m, gsubs, e);
    var was, told, heard := s.conns[c].sent, Publishing(m, s, con, e).conns[c].sent, Heard(m, gsubs[..reach], e, c);
    if reach == |gsubs| && con == c {
      MoreSent(was, heard, [SentOk(e.id)], told, x);
    } else {
      assert told == was + heard;
      MoreSent(was, heard, [], told, x);
    }
  }

  lemma EntryOwned(s: State, ns: string, i: nat)
    requires Tables(s) && ns in s.namespaces && i < |s.namespaces[ns].gsubs|
    ensures var g := s.namespaces[ns].gsubs; Owned(s, ns, g[i].0, g[i].1)
  {
    var g := s.namespaces[ns].gsubs;
    UniqueFinds(g, i);
    assert Global(s, ns, g[i].0) == Some(g[i].1);
  }

  /**
   A published event reaches a subscription exactly when its filters match and no subscription up
   to it, in the order of the table, makes matching throw; and then once.
   */
  lemma BroadcastReachesIff(m: Matcher, s: State, con: string, e: Event, i: nat)
    requires Tables(s) && Enabled(s, Say(con, Publish(e))) && i < |s.namespaces[s.conns[con].ns].gsubs|
    ensures var gsubs := s.namespaces[s.conns[con].ns].gsubs;
            var sub := gsubs[i].1;
            && sub.con in s.conns
            && var was, told := s.conns[sub.con].sent, Publishing(m, s, con, e).conns[sub.con].sent;
               && was <= told
               && multiset(told[|was|..])[SentEvent(sub.lsub, e)]
                  == if m(sub.filters, e) == Yes && (forall j | 0 <= j <= i :: m(gsubs[j].1.filters, e) != Throws) then 1 else 0
  {
    var ns := s.conns[con].ns;
    var gsubs := s.namespaces[ns].gsubs;
    EntryOwned(s, ns, i);
    HeardIff(m, s, ns, e, i);
    ReachMeans(m, gsubs, e, i);
    PublishTells(m, s, con, e, gsubs[i].1.con, SentEvent(gsubs[i].1.lsub, e));
  }

  lemma SameSub(s: State, ns: string, i: nat, k: nat)
    requires Tables(s) && ns in s.namespaces && i < |s.namespaces[ns].gsubs| && k < |s.namespaces[ns].gsubs|
    requires var g := s.namespaces[ns].gsubs; g[i].1.con == g[k].1.con && g[i].1.lsub == g[k].1.lsub
    ensures i == k
  {
    var g := s.namespaces[ns].gsubs;
    UniqueFinds(g, i);
    UniqueFinds(g, k);
    assert Global(s, ns, g[i].0) == Some(g[i].1) && Global(s, ns, g[k].0) == Some(g[k].1);
    assert Owned(s, ns, g[i].0, g[i].1) && Owned(s, ns, g[k].0, g[k].1);
    UniquePlaces(g, i, k);
  }

  lemma {:induction false} UniquePlaces<V>(t: Table<V>, i: nat, k: nat)
    requires Unique(t) && i < |t| && k < |t| && t[i].0 == t[k].0
    ensures i == k
  {
    if i > 0 && k > 0 {
      UniquePlaces(t[1..], i - 1, k - 1);
    } else if i > 0 {
      UniqueFinds(t[1..], i - 1);
    } else if k > 0 {
      UniqueFinds(t[1..], k - 1);
    }
  }

  lemma {:induction false} ReachStoredMeans(m: Matcher, events: Table<Event>, filters: Filters, i: nat)
    requires i < |events|
    ensures i < ReachStored(m, events, filters) <==> forall j | 0 <= j <= i :: m(filters, events[j].1) != Throws
  {
    if m(filters, events[0].1) != Throws && i > 0 {
      ReachStoredMeans(m, events[1..], filters, i - 1);
      assert (forall j | 0 <= j <= i - 1 :: m(filters, events[1..][j].1) != Throws)
        ==> forall j | 0 <= j <= i :: m(filters, events[j].1) != Throws by {
        if forall j | 0 <= j <= i - 1 :: m(filters, events[1..][j].1) != Throws {
          forall j | 0 <= j <= i ensures m(filters, events[j].1) != Throws {
            if j > 0 { assert events[1..][j - 1] == events[j]; }
          }
        }
      }
      assert forall j | 0 <= j <= i - 1 :: events[1..][j] == events[j + 1];
    }
  }

  /** Events are stored under their own ids. */
  ghost predicate EventsKeyed(s: State)
  {
    forall ns, id | Stored(s, ns, id).Some? :: Stored(s, ns, id).value.id == id
  }

  lemma StepKeepsKeyed(m: Matcher, s: State, a: Action)
    requires Tables(s) && EventsKeyed(s) && Enabled(s, a)
    ensures EventsKeyed(Step(m, s, a))
  {
    var t := Step(m, s, a);
    forall ns, id | Stored(t, ns, id).Some? ensures Stored(t, ns, id).value.id == id {
      if a.Say? && a.message.Publish? {
        LookupPut(s.namespaces[s.conns[a.con].ns].events, a.message.event.id, a.message.event, id);
      }
      assert Stored(s, ns, id).Some? ==> Stored(s, ns, id).value.id == id;
    }
  }

  lemma {:induction false} RunKeepsKeyed(m: Matcher, s: State, actions: seq<Action>, end: State)
    requires Tables(s) && EventsKeyed(s) && Reaches(m, s, actions, end)
    ensures EventsKeyed(end)
    decreases |actions|
  {
    if actions != [] {
      StepKeepsTables(m, s, actions[0]);
      StepKeepsKeyed(m, s, actions[0]);
      RunKeepsKeyed(m, Step(m, s, actions[0]), actions[1..], end);
    }
  }

  lemma {:induction false} ReplayNone(m: Matcher, events: Table<Event>, lsub: string, filters: Filters, e: Event)
    requires forall k | 0 <= k < |events| :: events[k].1 != e
    ensures multiset(Replay(m, events, lsub, filters))[SentEvent(lsub, e)] == 0
  {
    if SentEvent(lsub, e) in Replay(m, events, lsub, filters) { var k := ReplayFrom(m, events, lsub, filters, SentEvent(lsub, e)); }
  }

  lemma {:induction false} ReplayOnce(m: Matcher, events: Table<Event>, lsub: string, filters: Filters, i: nat)
    requires i < |events| && forall k | 0 <= k < |events| && k != i :: events[k].1 != events[i].1
    ensures multiset(Replay(m, events, lsub, filters))[SentEvent(lsub, events[i].1)] == if m(filters, events[i].1) == Yes then 1 else 0
  {
    var e, rest := events[i].1, Replay(m, events[1..], lsub, filters);
    forall k | 0 <= k < |events[1..]| && k + 1 != i ensures events[1..][k].1 != e {
      assert events[1..][k] == events[k + 1];
    }
    if i > 0 {
      ReplayOnce(m, events[1..], lsub, filters, i - 1);
      assert events[0].1 != e;
    } else {
      ReplayNone(m, events[1..], lsub, filters, e);
    }
    var here := if m(filters, events[0].1) == Yes then [SentEvent(lsub, events[0].1)] else [];
    assert multiset(here + rest) == multiset(here) + multiset(rest);
  }

  lemma ReplayCount(m: Matcher, s: State, ns: string, lsub: string, filters: Filters, i: nat)
    requires Tables(s) && EventsKeyed(s) && ns in s.namespaces && i < |s.namespaces[ns].events|
    ensures var events := s.namespaces[ns].events;
            var reach := ReachStored(m, events, filters);
            multiset(Replay(m, events[..reach], lsub, filters))[SentEvent(lsub, events[i].1)]
            == if i < reach && m(filters, events[i].1) == Yes then 1 else 0
  {
    var events := s.namespaces[ns].events;
    var reach := ReachStored(m, events, filters);
    var part := events[..reach];
    forall k | 0 <= k < |part| && k != i ensures part[k].1 != events[i].1 {
      if part[k].1 == events[i].1 { SameEvent(s, ns, i, k); }
    }
    if i < reach { ReplayOnce(m, part, lsub, filters, i); } else { ReplayNone(m, part, lsub, filters, events[i].1); }
  }

  /** The events a request sends to its connection. */
  lemma RequestTells(m: Matcher, s: State, con: string, lsub: string, filters: Filters, x: Sent)
    requires Enabled(s, Say(con, Req(lsub, filters))) && x.SentEvent?
    ensures var events := s.namespaces[s.conns[con].ns].events;
            var was, told := s.conns[con].sent, Subscribing(m, s, con, lsub, filters).conns[con].sent;
            was <= told && multiset(told[|was|..])[x] == multiset(Replay(m, events[..ReachStored(m, events, filters)], lsub, filters))[x]
  {
    var events := s.namespaces[s.conns[con].ns].events;
    var reach := ReachStored(m, events, filters);
    var was, told := s.conns[con].sent, Subscribing(m, s, con, lsub, filters).conns[con].sent;
    var eose: seq<Sent> := if reach == |events| then [SentEose(lsub)] else [];
    var got := Replay(m, events[..reach], lsub, filters);
    assert was + (got + eose) == was + got + eose;
    MoreSent(was, got, eose, told, x);
  }

  /**
   In every reachable state, a stored event is replayed to a new subscription exactly when its
   filters match and no event up to it, in the order of the table, makes matching throw; and then once.
   */
  lemma ReplayReachesIff(m: Matcher, actions: seq<Action>, s: State, con: string, lsub: string, filters: Filters, i: nat)
    requires Reaches(m, INITIAL, actions, s) && Enabled(s, Say(con, Req(lsub, filters)))
    requires i < |s.namespaces[s.conns[con].ns].events|
    ensures var events := s.namespaces[s.conns[con].ns].events;
            var was, told := s.conns[con].sent, Subscribing(m, s, con, lsub, filters).conns[con].sent;
            && was <= told
            && multiset(told[|was|..])[SentEvent(lsub, events[i].1)]
               == if m(filters, events[i].1) == Yes && (forall j | 0 <= j <= i :: m(filters, events[j].1) != Throws) then 1 else 0
  {
    var events := s.namespaces[s.conns[con].ns].events;
    RunKeepsTables(m, INITIAL, actions, s);
    RunKeepsKeyed(m, INITIAL, actions, s);
    ReachStoredMeans(m, events, filters, i);
    ReplayCount(m, s, s.conns[con].ns, lsub, filters, i);
    RequestTells(m, s, con, lsub, filters, SentEvent(lsub, events[i].1));
  }

  lemma SameEvent(s: State, ns: string, i: nat, k: nat)
    requires Tables(s) && EventsKeyed(s) && ns in s.namespaces
    requires i < |s.namespaces[ns].events| && k < |s.namespaces[ns].events|
    requires s.namespaces[ns].events[i].1 == s.namespaces[ns].events[k].1
    ensures i == k
  {
    var events := s.namespaces[ns].events;
    UniqueFinds(events, i);
    UniqueFinds(events, k);
    assert Stored(s, ns, events[i].0).Some? && Stored(s, ns, events[k].0).Some?;
    UniquePlaces(events, i, k);
  }

  // ---- a live subscription has every stored event ----

  ghost predicate Got(s: State, con: string, x: Sent)
  {
    con in s.conns && x in s.conns[con].sent
  }

  ghost predicate Served(m: Matcher, s: State, ns: string, key: string, id: string)
  {
    Global(s, ns, key).Some? && Stored(s, ns, id).Some? ==>
      var sub, e := Global(s, ns, key).value, Stored(s, ns, id).value;
      m(sub.filters, e) == Yes ==> Got(s, sub.con, SentEvent(sub.lsub, e))
  }

  /** No subscription before the one under `key` throws on `e`, if that one matches. */
  predicate Heeds(m: Matcher, gsubs: Table<Sub>, e: Event, key: string)
  {
    forall i, j | 0 <= j < i < |gsubs| && gsubs[i].0 == key && m(gsubs[i].1.filters, e) == Yes :: m(gsubs[j].1.filters, e) != Throws
  }

  /** No event before the one under `id` makes the filters throw, if that one matches. */
  predicate HeedsStored(m: Matcher, events: Table<Event>, filters: Filters, id: string)
  {
    forall i, j | 0 <= j < i < |events| && events[i].0 == id && m(filters, events[i].1) == Yes :: m(filters, events[j].1) != Throws
  }

  /**
   The action does not keep the event `id` from the subscription `key` of the namespace: publishing
   the event reaches it, and asking for it reads as far as the event.
   */
  ghost predicate Undisturbed(m: Matcher, s: State, a: Action, ns: string, key: string, id: string)
  {
    match a
    case Say(con, Publish(e)) =>
      Enabled(s, a) && s.conns[con].ns == ns && e.id == id ==> Heeds(m, s.namespaces[ns].gsubs, e, key)
    case Say(con, Req(lsub, filters)) =>
      Enabled(s, a) && s.conns[con].ns == ns && Gid(con, lsub) == key ==> HeedsStored(m, s.namespaces[ns].events, filters, id)
    case _ => true
  }

  ghost predicate UndisturbedRun(m: Matcher, s: State, actions: seq<Action>, ns: string, key: string, id: string)
    decreases |actions|
  {
    actions != [] ==>
      && Undisturbed(m, s, actions[0], ns, key, id)
      && (Enabled(s, actions[0]) ==> UndisturbedRun(m, Step(m, s, actions[0]), actions[1..], ns, key, id))
  }

  /** A new event reaches the matching subscription under `key`. */
  lemma PublishReaches(m: Matcher, s: State, con: string, e: Event, key: string)
    requires Tables(s) && Enabled(s, Say(con, Publish(e))) && Heeds(m, s.namespaces[s.conns[con].ns].gsubs, e, key)
    requires Global(s, s.conns[con].ns, key).Some? && m(Global(s, s.conns[con].ns, key).value.filters, e) == Yes
    ensures var sub := Global(s, s.conns[con].ns, key).value;
            Got(Publishing(m, s, con, e), sub.con, SentEvent(sub.lsub, e))
  {
    var ns := s.conns[con].ns;
    var gsubs, sub := s.namespaces[ns].gsubs, Global(s, ns, key).value;
    Found(gsubs, key);
    var i :| 0 <= i < |gsubs| && gsubs[i] == (key, sub);
    forall j | 0 <= j <= i ensures m(gsubs[j].1.filters, e) != Throws {
    }
    BroadcastReachesIff(m, s, con, e, i);
    assert Owned(s, ns, key, sub);
  }

  lemma PublishServes(m: Matcher, s: State, con: string, e: Event, ns: string, key: string, id: string)
    requires Tables(s) && Served(m, s, ns, key, id) && Enabled(s, Say(con, Publish(e)))
    requires Undisturbed(m, s, Say(con, Publish(e)), ns, key, id)
    ensures Served(m, Publishing(m, s, con, e), ns, key, id)
  {
    var t, n := Publishing(m, s, con, e), s.namespaces[s.conns[con].ns];
    LookupPut(n.events, e.id, e, id);
    assert Global(t, ns, key) == Global(s, ns, key);
    if Global(s, ns, key).Some? && ns == s.conns[con].ns && id == e.id && m(Global(s, ns, key).value.filters, e) == Yes {
      PublishReaches(m, s, con, e, key);
    }
  }

  /** A new subscription is sent the stored event, if it matches. */
  lemma ReqReaches(m: Matcher, events: Table<Event>, lsub: string, filters: Filters, id: string)
    requires HeedsStored(m, events, filters, id)
    requires Lookup(events, id).Some? && m(filters, Lookup(events, id).value) == Yes
    ensures SentEvent(lsub, Lookup(events, id).value) in Replay(m, events[..ReachStored(m, events, filters)], lsub, filters)
  {
    Found(events, id);
    var i :| 0 <= i < |events| && events[i] == (id, Lookup(events, id).value);
    forall j | 0 <= j <= i ensures m(filters, events[j].1) != Throws {
    }
    ReachStoredMeans(m, events, filters, i);
    ReplayHas(m, events[..ReachStored(m, events, filters)], lsub, filters, i);
  }

  lemma ReqServes(m: Matcher, s: State, con: string, lsub: string, filters: Filters, ns: string, key: string, id: string)
    requires Tables(s) && Served(m, s, ns, key, id) && Enabled(s, Say(con, Req(lsub, filters)))
    requires Undisturbed(m, s, Say(con, Req(lsub, filters)), ns, key, id)
    ensures Served(m, Subscribing(m, s, con, lsub, filters), ns, key, id)
  {
    var t, n := Subscribing(m, s, con, lsub, filters), s.namespaces[s.conns[con].ns];
    GlobalAfterReq(m, s, con, lsub, filters, ns, key);
    assert Stored(t, ns, id) == Stored(s, ns, id);
    if ns == s.conns[con].ns && key == Gid(con, lsub) && Stored(s, ns, id).Some? && m(filters, Stored(s, ns, id).value) == Yes {
      ReqReaches(m, n.events, lsub, filters, id);
    }
  }

  lemma OtherGlobal(m: Matcher, s: State, a: Action, ns: string, key: string)
    requires Tables(s) && Enabled(s, a)
    requires !(a.Say? && (a.message.Publish? || a.message.Req?))
    ensures Global(Step(m, s, a), ns, key) in {Global(s, ns, key), None}
  {
    match a
    case Say(con, message) =>
      if message.Close? { GlobalAfterClose(s, con, message.lsub, ns, key); }
    case Disconnect(con) => GlobalAfterLeaving(s, con, ns, key);
    case Connect(_, _) =>
    case ClearEvents =>
  }

  lemma StepServes(m: Matcher, s: State, a: Action, ns: string, key: string, id: string)
    requires Tables(s) && Served(m, s, ns, key, id) && Enabled(s, a) && Undisturbed(m, s, a, ns, key, id)
    ensures Served(m, Step(m, s, a), ns, key, id)
  {
    if a.Say? && a.message.Publish? {
      PublishServes(m, s, a.con, a.message.event, ns, key, id);
    } else if a.Say? && a.message.Req? {
      ReqServes(m, s, a.con, a.message.lsub, a.message.filters, ns, key, id);
    } else {
      OtherGlobal(m, s, a, ns, key);
      assert Stored(Step(m, s, a), ns, id) in {Stored(s, ns, id), None};
    }
  }

  lemma {:induction false} RunServes(m: Matcher, s: State, actions: seq<Action>, end: State, ns: string, key: string, id: string)
    requires Tables(s) && Served(m, s, ns, key, id)
    requires Reaches(m, s, actions, end) && UndisturbedRun(m, s, actions, ns, key, id)
    ensures Served(m, end, ns, key, id)
    decreases |actions|
  {
    if actions != [] {
      StepKeepsTables(m, s, actions[0]);
      StepServes(m, s, actions[0], ns, key, id);
      RunServes(m, Step(m, s, actions[0]), actions[1..], end, ns, key, id);
    }
  }

  /** The state of the next lemma before anything is published. */
  function TwoSubscribers(bad: Filters, good: Filters): State
  {
    State(map["/" := Ns([("1:x", Sub("1", "x", bad)), ("2:y", Sub("2", "y", good))], [])],
          map["1" := Conn("/", true, [("x", "1:x")], [SentEose("x")]), "2" := Conn("/", true, [("y", "2:y")], [SentEose("y")])])
  }

  const BOTH := State(map["/" := Ns([], [])], map["1" := Conn("/", true, [], []), "2" := Conn("/", true, [], [])])

  lemma Subscribe(m: Matcher, bad: Filters, good: Filters)
    ensures Step(m, Step(m, BOTH, Say("1", Req("x", bad))), Say("2", Req("y", good))) == TwoSubscribers(bad, good)
  {
    var one, two := Step(m, BOTH, Say("1", Req("x", bad))), TwoSubscribers(bad, good);
    assert "1" + ":" + "x" == "1:x" && "2" + ":" + "y" == "2:y";
    var g := [("1:x", Sub("1", "x", bad))];
    assert one.namespaces["/"] == Ns(g, []);
    assert g[1..] == [] && "1:x"[0] != "2:y"[0];
    assert Put(g, "2:y", Sub("2", "y", good)) == two.namespaces["/"].gsubs;
    var t := Step(m, one, Say("2", Req("y", good)));
    assert t.namespaces == two.namespaces;
    assert t.conns["1"] == two.conns["1"];
    assert t.conns["2"] == two.conns["2"];
    assert t.conns == two.conns;
  }

  lemma PublishToBoth(m: Matcher, bad: Filters, good: Filters, e: Event)
    requires m(bad, e) == Throws
    ensures var s := Publishing(m, TwoSubscribers(bad, good), "1", e);
            && Stored(s, "/", e.id) == Some(e) && Global(s, "/", "2:y") == Some(Sub("2", "y", good))
            && !Got(s, "2", SentEvent("y", e))
  {
    var two := TwoSubscribers(bad, good);
    var s := Publishing(m, two, "1", e);
    assert Reach(m, two.namespaces["/"].gsubs, e) == 0;
    assert s.conns["2"].sent == [SentEose("y")];
    LookupPut(two.namespaces["/"].events, e.id, e, e.id);
    var g, tail := two.namespaces["/"].gsubs, [("2:y", Sub("2", "y", good))];
    assert "1:x"[0] != "2:y"[0] && g[1..] == tail;
    assert Lookup(tail, "2:y") == Some(Sub("2", "y", good)) && Lookup(g, "2:y") == Lookup(tail, "2:y");
  }

  /**
   Without `UndisturbedRun` the claim is false: a filter on which matching throws, asked for by one
   connection, keeps a matching event from a later subscriber, though the event is stored.
   */
  lemma ThrowingFilterSilencesOthers(m: Matcher, bad: Filters, good: Filters, e: Event)
    requires m(bad, e) == Throws && m(good, e) == Yes
    ensures var actions := [Connect("1", None), Connect("2", None), Say("1", Req("x", bad)), Say("2", Req("y", good)), Say("1", Publish(e))];
            exists s: State :: Reaches(m, INITIAL, actions, s) && Stored(s, "/", e.id) == Some(e)
              && Global(s, "/", "2:y") == Some(Sub("2", "y", good)) && !Got(s, "2", SentEvent("y", e))
  {
    var first, rest := [Connect("1", None), Connect("2", None)], [Say("1", Publish(e))];
    var middle := [Say("1", Req("x", bad)), Say("2", Req("y", good))];
    var two := TwoSubscribers(bad, good);
    var s := Publishing(m, two, "1", e);
    assert Step(m, Step(m, INITIAL, first[0]), first[1]) == BOTH;
    Subscribe(m, bad, good);
    PublishToBoth(m, bad, good, e);
    assert Reaches(m, BOTH, middle + rest, s) by {
      assert rest[1..] == [];
      assert Reaches(m, Step(m, two, rest[0]), [], s);
      RunsOn(m, BOTH, middle[0], middle[1], rest, s, two);
      assert middle + rest == [middle[0], middle[1]] + rest;
    }
    RunsOn(m, INITIAL, first[0], first[1], middle + rest, s, BOTH);
    assert [first[0], first[1]] + (middle + rest)
           == [Connect("1", None), Connect("2", None), Say("1", Req("x", bad)), Say("2", Req("y", good)), Say("1", Publish(e))];
  }

  lemma RunsOn(m: Matcher, s: State, a: Action, b: Action, rest: seq<Action>, end: State, mid: State)
    requires Enabled(s, a) && Enabled(Step(m, s, a), b) && Step(m, Step(m, s, a), b) == mid && Reaches(m, mid, rest, end)
    ensures Reaches(m, s, [a, b] + rest, end)
  {
    var run := [a, b] + rest;
    assert run[1..] == [b] + rest && run[1..][1..] == rest;
  }

  // ---- what the actions say ----

  function Front(actions: seq<Action>): seq<Action>
    requires actions != []
  {
    actions[..|actions| - 1]
  }

  function Last(actions: seq<Action>): Action
    requires actions != []
  {
    actions[|actions| - 1]
  }

  /** The namespace a connection came with. */
  function NsOf(actions: seq<Action>, con: string): Option<string>
    decreases |actions|
  {
    if actions == [] then None
    else if Last(actions).Connect? && Last(actions).con == con then Some(Namespace(Last(actions).url))
    else NsOf(Front(actions), con)
  }

  /** The connection was made and has not closed. */
  predicate Connected(actions: seq<Action>, con: string)
    decreases |actions|
  {
    actions != [] &&
    var a := Last(actions);
    (a.Connect? && a.con == con) || (a != Disconnect(con) && Connected(Front(actions), con))
  }

  /** The action publishes this event in this namespace. */
  predicate Publishes(before: seq<Action>, a: Action, ns: string, e: Event)
  {
    a.Say? && a.message == Publish(e) && NsOf(before, a.con) == Some(ns)
  }

  predicate Published(actions: seq<Action>, ns: string, e: Event)
    decreases |actions|
  {
    actions != [] && (Publishes(Front(actions), Last(actions), ns, e) || Published(Front(actions), ns, e))
  }

  /** The last event published under an id, unless the events were cleared since. */
  function Latest(actions: seq<Action>, ns: string, id: string): Option<Event>
    decreases |actions|
  {
    if actions == [] || Last(actions).ClearEvents? then None
    else
      var a := Last(actions);
      if a.Say? && a.message.Publish? && a.message.event.id == id && Publishes(Front(actions), a, ns, a.message.event)
      then Some(a.message.event)
      else Latest(Front(actions), ns, id)
  }

  /** The filters of a subscription that was asked for last, unless it was closed since. */
  function Open(actions: seq<Action>, con: string, lsub: string): Option<Filters>
    decreases |actions|
  {
    if actions == [] then None
    else
      var a := Last(actions);
      if a == Say(con, Close(lsub)) || a == Disconnect(con) then None
      else if a.Say? && a.con == con && a.message.Req? && a.message.lsub == lsub then Some(a.message.filters)
      else Open(Front(actions), con, lsub)
  }

  // ---- the tables are what the actions say ----

  ghost predicate ConFollows(actions: seq<Action>, s: State, con: string)
  {
    && (con in s.conns <==> NsOf(actions, con).Some?)
    && (con in s.conns ==> s.conns[con].ns == NsOf(actions, con).value && s.conns[con].live == Connected(actions, con))
  }

  ghost predicate SubFollows(actions: seq<Action>, s: State, con: string, lsub: string)
  {
    con in s.conns ==>
      var f := Open(actions, con, lsub);
      Global(s, s.conns[con].ns, Gid(con, lsub)) == if f.None? then None else Some(Sub(con, lsub, f.value))
  }

  ghost predicate Follows(actions: seq<Action>, s: State)
  {
    && (forall con :: ConFollows(actions, s, con))
    && (forall ns, id :: Stored(s, ns, id) == Latest(actions, ns, id))
    && (forall con, lsub :: SubFollows(actions, s, con, lsub))
    && (forall con, lsub | con !in s.conns :: Open(actions, con, lsub) == None)
  }

  lemma ConStep(m: Matcher, actions: seq<Action>, s: State, a: Action, con: string)
    requires Follows(actions, s) && Enabled(s, a)
    ensures ConFollows(actions + [a], Step(m, s, a), con)
  {
    var after := actions + [a];
    assert Front(after) == actions && Last(after) == a;
    assert ConFollows(actions, s, con);
  }

  lemma StoredStep(m: Matcher, actions: seq<Action>, s: State, a: Action, ns: string, id: string)
    requires Shape(s) && Follows(actions, s) && Enabled(s, a)
    ensures Stored(Step(m, s, a), ns, id) == Latest(actions + [a], ns, id)
  {
    var after := actions + [a];
    assert Front(after) == actions && Last(after) == a;
    assert Stored(s, ns, id) == Latest(actions, ns, id);
    if a.Say? && a.message.Publish? {
      assert ConFollows(actions, s, a.con);
      LookupPut(s.namespaces[s.conns[a.con].ns].events, a.message.event.id, a.message.event, id);
    }
  }

  lemma SubStep(m: Matcher, actions: seq<Action>, s: State, a: Action, con: string, lsub: string)
    requires Tables(s) && Follows(actions, s) && Enabled(s, a)
    ensures SubFollows(actions + [a], Step(m, s, a), con, lsub)
    ensures con !in Step(m, s, a).conns ==> Open(actions + [a], con, lsub) == None
  {
    var after := actions + [a];
    assert Front(after) == actions && Last(after) == a;
    assert SubFollows(actions, s, con, lsub);
    if con in s.conns {
      OtherKey(m, s, a, con, lsub);
    } else if con in Step(m, s, a).conns {
      NoOwner(s, Step(m, s, a).conns[con].ns, con, lsub);
    }
  }

  /** No table has a subscription of a connection that is not there. */
  lemma NoOwner(s: State, ns: string, con: string, lsub: string)
    requires Tables(s) && con !in s.conns && ':' !in con
    ensures Global(s, ns, Gid(con, lsub)) == None
  {
    var g := Global(s, ns, Gid(con, lsub));
    if g.Some? {
      assert Owned(s, ns, Gid(con, lsub), g.value);
      GidInjective(con, lsub, g.value.con, g.value.lsub);
    }
  }

  /** What an action does to one subscription. */
  lemma OtherKey(m: Matcher, s: State, a: Action, con: string, lsub: string)
    requires Tables(s) && Enabled(s, a) && con in s.conns
    ensures var t, ns, key := Step(m, s, a), s.conns[con].ns, Gid(con, lsub);
            && con in t.conns && t.conns[con].ns == ns
            && Global(t, ns, key) ==
               if a == Say(con, Close(lsub)) || a == Disconnect(con) then None
               else if AsksFor(a, con, lsub) then Some(Sub(con, lsub, a.message.filters))
               else Global(s, ns, key)
  {
    var ns, key := s.conns[con].ns, Gid(con, lsub);
    match a
    case Say(c, Req(l, f)) =>
      GlobalAfterReq(m, s, c, l, f, ns, key);
      if key == Gid(c, l) { GidInjective(con, lsub, c, l); }
    case Say(c, Close(l)) =>
      GlobalAfterClose(s, c, l, ns, key);
      if key == Gid(c, l) { GidInjective(con, lsub, c, l); }
    case Disconnect(c) =>
      GlobalAfterLeaving(s, c, ns, key);
      var g := Global(s, ns, key);
      if g.Some? {
        assert Owned(s, ns, key, g.value);
        GidInjective(con, lsub, g.value.con, g.value.lsub);
      }
    case _ =>
  }

  lemma StepFollows(m: Matcher, actions: seq<Action>, s: State, a: Action)
    requires Tables(s) && Follows(actions, s) && Enabled(s, a)
    ensures Follows(actions + [a], Step(m, s, a))
  {
    var after, t := actions + [a], Step(m, s, a);
    forall con ensures ConFollows(after, t, con) { ConStep(m, actions, s, a, con); }
    forall ns, id ensures Stored(t, ns, id) == Latest(after, ns, id) { StoredStep(m, actions, s, a, ns, id); }
    forall con, lsub ensures SubFollows(after, t, con, lsub) && (con !in t.conns ==> Open(after, con, lsub) == None) {
      SubStep(m, actions, s, a, con, lsub);
    }
  }

  // ---- nothing else is sent ----

  lemma {:induction false} LatestPublished(actions: seq<Action>, ns: string, id: string)
    ensures Latest(actions, ns, id).Some? ==> Published(actions, ns, Latest(actions, ns, id).value)
    decreases |actions|
  {
    if actions != [] { LatestPublished(Front(actions), ns, id); }
  }

  lemma {:induction false} OpenAsked(actions: seq<Action>, con: string, lsub: string)
    ensures Open(actions, con, lsub).Some? ==> Say(con, Req(lsub, Open(actions, con, lsub).value)) in actions
    decreases |actions|
  {
    if actions != [] {
      assert actions == Front(actions) + [Last(actions)];
      OpenAsked(Front(actions), con, lsub);
    }
  }

  /** The event was published in the namespace, and the connection asked for it under this name. */
  ghost predicate Justified(m: Matcher, actions: seq<Action>, con: string, lsub: string, e: Event)
  {
    && NsOf(actions, con).Some? && Published(actions, NsOf(actions, con).value, e)
    && exists f: Filters :: Say(con, Req(lsub, f)) in actions && m(f, e) == Yes
  }

  ghost predicate SentJustified(m: Matcher, actions: seq<Action>, s: State)
  {
    forall con, lsub, e | Got(s, con, SentEvent(lsub, e)) :: Justified(m, actions, con, lsub, e)
  }

  lemma JustifiedStays(m: Matcher, actions: seq<Action>, s: State, a: Action, con: string, lsub: string, e: Event)
    requires Justified(m, actions, con, lsub, e) && Follows(actions, s) && Enabled(s, a)
    ensures Justified(m, actions + [a], con, lsub, e)
  {
    var after := actions + [a];
    assert Front(after) == actions && Last(after) == a;
    assert ConFollows(actions, s, con);
    var f: Filters :| Say(con, Req(lsub, f)) in actions && m(f, e) == Yes;
    assert Say(con, Req(lsub, f)) in after;
  }

  lemma PublishJustified(m: Matcher, actions: seq<Action>, s: State, con: string, e: Event, c: string, l: string, e': Event)
    requires Tables(s) && Follows(actions, s) && Enabled(s, Say(con, Publish(e)))
    requires Got(Publishing(m, s, con, e), c, SentEvent(l, e')) && !Got(s, c, SentEvent(l, e'))
    ensures Justified(m, actions + [Say(con, Publish(e))], c, l, e')
  {
    var ns, a := s.conns[con].ns, Say(con, Publish(e));
    var gsubs, after := s.namespaces[ns].gsubs, actions + [a];
    var part := gsubs[..Reach(m, gsubs, e)];
    assert SentEvent(l, e') in Heard(m, part, e, c);
    var i := HeardFrom(m, part, e, c, SentEvent(l, e'));
    UniqueFinds(gsubs, i);
    assert Global(s, ns, gsubs[i].0) == Some(gsubs[i].1);
    assert Owned(s, ns, gsubs[i].0, gsubs[i].1);
    assert SubFollows(actions, s, c, l) && ConFollows(actions, s, c) && ConFollows(actions, s, con);
    OpenAsked(actions, c, l);
    assert Front(after) == actions && Last(after) == a;
    assert Say(c, Req(l, gsubs[i].1.filters)) in after;
  }

  lemma ReqJustified(m: Matcher, actions: seq<Action>, s: State, con: string, lsub: string, filters: Filters, c: string, l: string, e: Event)
    requires Tables(s) && Follows(actions, s) && Enabled(s, Say(con, Req(lsub, filters)))
    requires Got(Subscribing(m, s, con, lsub, filters), c, SentEvent(l, e)) && !Got(s, c, SentEvent(l, e))
    ensures Justified(m, actions + [Say(con, Req(lsub, filters))], c, l, e)
  {
    var ns, a := s.conns[con].ns, Say(con, Req(lsub, filters));
    var events, after := s.namespaces[ns].events, actions + [a];
    var part := events[..ReachStored(m, events, filters)];
    assert SentEvent(l, e) in Replay(m, part, lsub, filters);
    var i := ReplayFrom(m, part, lsub, filters, SentEvent(l, e));
    UniqueFinds(events, i);
    assert Stored(s, ns, events[i].0) == Some(e) == Latest(actions, ns, events[i].0);
    LatestPublished(actions, ns, events[i].0);
    assert ConFollows(actions, s, con);
    assert Front(after) == actions && Last(after) == a;
    assert after[|actions|] == a;
  }

  lemma StepKeepsJustified(m: Matcher, actions: seq<Action>, s: State, a: Action)
    requires Tables(s) && Follows(actions, s) && SentJustified(m, actions, s) && Enabled(s, a)
    ensures SentJustified(m, actions + [a], Step(m, s, a))
  {
    var t := Step(m, s, a);
    forall c, l, e | Got(t, c, SentEvent(l, e)) ensures Justified(m, actions + [a], c, l, e) {
      if Got(s, c, SentEvent(l, e)) {
        JustifiedStays(m, actions, s, a, c, l, e);
      } else {
        match a
        case Say(con, Publish(e')) => PublishJustified(m, actions, s, con, e', c, l, e);
        case Say(con, Req(lsub, filters)) => ReqJustified(m, actions, s, con, lsub, filters, c, l, e);
        case _ =>
      }
    }
  }

  ghost predicate Reachable(m: Matcher, actions: seq<Action>, s: State)
  {
    Tables(s) && Follows(actions, s) && SentJustified(m, actions, s)
  }

  lemma StepReachable(m: Matcher, before: seq<Action>, s: State, a: Action, after: seq<Action>)
    requires Reachable(m, before, s) && Enabled(s, a) && after == before + [a]
    ensures Reachable(m, after, Step(m, s, a))
  {
    StepKeepsTables(m, s, a);
    StepFollows(m, before, s, a);
    StepKeepsJustified(m, before, s, a);
  }

  lemma {:induction false} RunReachable(m: Matcher, before: seq<Action>, s: State, actions: seq<Action>, end: State, all: seq<Action>)
    requires Reachable(m, before, s) && Reaches(m, s, actions, end) && all == before + actions
    ensures Reachable(m, all, end)
    decreases |actions|
  {
    if actions == [] {
      assert all == before;
    } else {
      var next := before + [actions[0]];
      StepReachable(m, before, s, actions[0], next);
      assert all == next + actions[1..];
      RunReachable(m, next, Step(m, s, actions[0]), actions[1..], end, all);
    }
  }

  lemma Reached(m: Matcher, actions: seq<Action>, s: State)
    requires Reaches(m, INITIAL, actions, s)
    ensures Reachable(m, actions, s)
  {
    assert forall con :: ConFollows([], INITIAL, con);
    assert [] + actions == actions;
    RunReachable(m, [], INITIAL, actions, s, actions);
  }

  /**
   In every reachable state the relay holds, of each namespace, under each id, the last event published
   since the events were last cleared; each connection is in the namespace it came with; and the
   subscriptions are those asked for and not closed, with the filters asked for last.
   */
  lemma TablesFollowActions(m: Matcher, actions: seq<Action>, s: State, ns: string, id: string, con: string, lsub: string)
    requires Reaches(m, INITIAL, actions, s)
    ensures Stored(s, ns, id) == Latest(actions, ns, id)
    ensures con in s.conns <==> NsOf(actions, con).Some?
    ensures con in s.conns ==> s.conns[con].ns == NsOf(actions, con).value && s.conns[con].live == Connected(actions, con)
    ensures con in s.conns ==>
              Global(s, s.conns[con].ns, Gid(con, lsub))
              == if Open(actions, con, lsub).None? then None else Some(Sub(con, lsub, Open(actions, con, lsub).value))
  {
    Reached(m, actions, s);
    assert ConFollows(actions, s, con) && SubFollows(actions, s, con, lsub);
  }

  /**
   A subscription that is open has been sent the latest event of its namespace under each id, if it
   matches its filters, whichever came first, in every run in which no earlier subscription throws on
   that event when it is published and its own filters throw on no earlier event when it is asked for.
   What throws elsewhere does not matter.
   */
  lemma SubscribersAreServed(m: Matcher, actions: seq<Action>, s: State, con: string, lsub: string, id: string)
    requires Reaches(m, INITIAL, actions, s) && NsOf(actions, con).Some?
    requires UndisturbedRun(m, INITIAL, actions, NsOf(actions, con).value, Gid(con, lsub), id)
    requires Open(actions, con, lsub).Some? && Latest(actions, NsOf(actions, con).value, id).Some?
    requires m(Open(actions, con, lsub).value, Latest(actions, NsOf(actions, con).value, id).value) == Yes
    ensures Got(s, con, SentEvent(lsub, Latest(actions, NsOf(actions, con).value, id).value))
  {
    var ns := NsOf(actions, con).value;
    TablesFollowActions(m, actions, s, ns, id, con, lsub);
    RunServes(m, INITIAL, actions, s, ns, Gid(con, lsub), id);
  }

  /**
   No event crosses namespaces: whatever a connection was sent was published in its own namespace
   and matches filters the connection asked for under that name. This holds even if matching throws.
   */
  lemma NothingCrossesNamespaces(m: Matcher, actions: seq<Action>, s: State, con: string, lsub: string, e: Event)
    requires Reaches(m, INITIAL, actions, s) && con in s.conns && SentEvent(lsub, e) in s.conns[con].sent
    ensures NsOf(actions, con).Some? && Published(actions, NsOf(actions, con).value, e)
    ensures exists f: Filters :: Say(con, Req(lsub, f)) in actions && m(f, e) == Yes
  {
    Reached(m, actions, s);
    assert Got(s, con, SentEvent(lsub, e));
  }

  // ---- answers ----

  /** A publisher is told OK exactly when no subscription made matching throw; nothing it was told before is lost. */
  lemma PublishAnsweredIff(m: Matcher, s: State, con: string, e: Event)
    requires Enabled(s, Say(con, Publish(e)))
    ensures var was, told := s.conns[con].sent, Publishing(m, s, con, e).conns[con].sent;
            var gsubs := s.namespaces[s.conns[con].ns].gsubs;
            && was <= told
            && (told != [] && told[|told| - 1] == SentOk(e.id) && |told| > |was|
                <==> forall j | 0 <= j < |gsubs| :: m(gsubs[j].1.filters, e) != Throws)
  {
    var gsubs := s.namespaces[s.conns[con].ns].gsubs;
    var reach := Reach(m, gsubs, e);
    var heard := Heard(m, gsubs[..reach], e, con);
    if reach < |gsubs| {
      ReachMeans(m, gsubs, e, reach);
      HeardEvents(m, gsubs[..reach], e, con);
      if heard != [] { assert heard[|heard| - 1] in heard; }
    } else if gsubs != [] {
      ReachMeans(m, gsubs, e, |gsubs| - 1);
    }
  }

  lemma {:induction false} HeardEvents(m: Matcher, subs: Table<Sub>, e: Event, con: string)
    ensures forall x | x in Heard(m, subs, e, con) :: x.SentEvent?
  {
    if subs != [] { HeardEvents(m, subs[1..], e, con); }
  }

  /** A subscriber is told EOSE exactly when its filters threw on no stored event. */
  lemma RequestAnsweredIff(m: Matcher, s: State, con: string, lsub: string, filters: Filters)
    requires Enabled(s, Say(con, Req(lsub, filters)))
    ensures var was, told := s.conns[con].sent, Subscribing(m, s, con, lsub, filters).conns[con].sent;
            var events := s.namespaces[s.conns[con].ns].events;
            && was <= told
            && (told != [] && told[|told| - 1] == SentEose(lsub) && |told| > |was|
                <==> forall j | 0 <= j < |events| :: m(filters, events[j].1) != Throws)
  {
    var events := s.namespaces[s.conns[con].ns].events;
    var reach := ReachStored(m, events, filters);
    if reach < |events| {
      ReachStoredMeans(m, events, filters, reach);
      ReplayEvents(m, events[..reach], lsub, filters);
      var got := Replay(m, events[..reach], lsub, filters);
      if got != [] { assert got[|got| - 1] in got; }
      assert got + [] == got;
    } else if events != [] {
      ReachStoredMeans(m, events, filters, |events| - 1);
    }
  }

  lemma {:induction false} ReplayEvents(m: Matcher, events: Table<Event>, lsub: string, filters: Filters)
    ensures forall x | x in Replay(m, events, lsub, filters) :: x.SentEvent?
  {
    if events != [] { ReplayEvents(m, events[1..], lsub, filters); }
  }

  // ---- after a subscription is closed ----

  /** The events a connection was sent under one subscription name, in order. */
  function EventsFor(sent: seq<Sent>, lsub: string): seq<Event>
  {
    if sent == [] then []
    else (if sent[0].SentEvent? && sent[0].lsub == lsub then [sent[0].event] else []) + EventsFor(sent[1..], lsub)
  }

  lemma {:induction false} EventsForConcat(a: seq<Sent>, b: seq<Sent>, lsub: string)
    ensures EventsFor(a + b, lsub) == EventsFor(a, lsub) + EventsFor(b, lsub)
  {
    if a == [] {
      assert a + b == b;
    } else {
      assert (a + b)[1..] == a[1..] + b;
      EventsForConcat(a[1..], b, lsub);
    }
  }

  lemma {:induction false} NotHeard(m: Matcher, subs: Table<Sub>, e: Event, con: string, lsub: string)
    requires forall i | 0 <= i < |subs| :: subs[i].1.con != con || subs[i].1.lsub != lsub
    ensures EventsFor(Heard(m, subs, e, con), lsub) == []
  {
    if subs != [] {
      NotHeard(m, subs[1..], e, con, lsub);
      if subs[0].1.con == con && m(subs[0].1.filters, e) == Yes {
        var rest := Heard(m, subs[1..], e, con);
        assert ([SentEvent(subs[0].1.lsub, e)] + rest)[1..] == rest;
      } else {
        assert Heard(m, subs, e, con) == Heard(m, subs[1..], e, con);
      }
    }
  }

  lemma {:induction false} NotReplayed(m: Matcher, events: Table<Event>, other: string, filters: Filters, lsub: string)
    requires other != lsub
    ensures EventsFor(Replay(m, events, other, filters), lsub) == []
  {
    if events != [] {
      NotReplayed(m, events[1..], other, filters, lsub);
      var rest := Replay(m, events[1..], other, filters);
      if m(filters, events[0].1) == Yes {
        assert ([SentEvent(other, events[0].1)] + rest)[1..] == rest;
      } else {
        assert Replay(m, events, other, filters) == rest;
      }
    }
  }

  /** No entry of the namespace table is for a subscription its connection does not have. */
  lemma NoEntry(s: State, ns: string, con: string, lsub: string, i: nat)
    requires Tables(s) && ns in s.namespaces && i < |s.namespaces[ns].gsubs| && Local(s, con, lsub).None?
    ensures s.namespaces[ns].gsubs[i].1.con != con || s.namespaces[ns].gsubs[i].1.lsub != lsub
  {
    var gsubs := s.namespaces[ns].gsubs;
    UniqueFinds(gsubs, i);
    assert Global(s, ns, gsubs[i].0) == Some(gsubs[i].1);
    assert Owned(s, ns, gsubs[i].0, gsubs[i].1);
  }

  lemma NoEvents(sent: seq<Sent>, heard: seq<Sent>, id: string, lsub: string)
    requires EventsFor(heard, lsub) == []
    ensures EventsFor(sent + heard, lsub) == EventsFor(sent, lsub)
    ensures EventsFor(sent + heard + [SentOk(id)], lsub) == EventsFor(sent, lsub)
  {
    EventsForConcat(sent, heard, lsub);
    EventsForConcat(sent + heard, [SentOk(id)], lsub);
    assert [SentOk(id)][1..] == [];
    assert EventsFor([SentOk(id)], lsub) == [];
  }

  lemma PublishSkipsClosed(m: Matcher, s: State, from: string, e: Event, con: string, lsub: string)
    requires Tables(s) && Enabled(s, Say(from, Publish(e))) && con in s.conns && Local(s, con, lsub).None?
    ensures EventsFor(Publishing(m, s, from, e).conns[con].sent, lsub) == EventsFor(s.conns[con].sent, lsub)
  {
    var ns := s.conns[from].ns;
    var gsubs := s.namespaces[ns].gsubs;
    var part := gsubs[..Reach(m, gsubs, e)];
    forall i | 0 <= i < |part| ensures part[i].1.con != con || part[i].1.lsub != lsub {
      NoEntry(s, ns, con, lsub, i);
    }
    NotHeard(m, part, e, con, lsub);
    NoEvents(s.conns[con].sent, Heard(m, part, e, con), e.id, lsub);
  }

  lemma ReqSkipsClosed(m: Matcher, s: State, from: string, other: string, filters: Filters, con: string, lsub: string)
    requires Enabled(s, Say(from, Req(other, filters))) && con in s.conns && (from != con || other != lsub)
    ensures EventsFor(Subscribing(m, s, from, other, filters).conns[con].sent, lsub) == EventsFor(s.conns[con].sent, lsub)
  {
    if from == con {
      var events := s.namespaces[s.conns[con].ns].events;
      var part := Replay(m, events[..ReachStored(m, events, filters)], other, filters);
      NotReplayed(m, events[..ReachStored(m, events, filters)], other, filters, lsub);
      var eose := [SentEose(other)];
      assert eose[1..] == [] && EventsFor(eose, lsub) == [];
      EventsForConcat(part, eose, lsub);
      EventsForConcat(s.conns[con].sent, part, lsub);
      EventsForConcat(s.conns[con].sent, part + eose, lsub);
      assert part + [] == part;
    }
  }

  /** The action asks for the subscription. */
  predicate AsksFor(a: Action, con: string, lsub: string)
  {
    a.Say? && a.con == con && a.message.Req? && a.message.lsub == lsub
  }

  lemma StepSkipsClosed(m: Matcher, s: State, a: Action, con: string, lsub: string)
    requires Tables(s) && Enabled(s, a) && con in s.conns && Local(s, con, lsub).None? && !AsksFor(a, con, lsub)
    ensures var t := Step(m, s, a);
            && con in t.conns && Local(t, con, lsub).None?
            && EventsFor(t.conns[con].sent, lsub) == EventsFor(s.conns[con].sent, lsub)
  {
    match a
    case Say(from, Publish(e)) => PublishSkipsClosed(m, s, from, e, con, lsub);
    case Say(from, Req(other, filters)) =>
      ReqSkipsClosed(m, s, from, other, filters, con, lsub);
      LocalAfterReq(m, s, from, other, filters, con, lsub);
    case Say(from, Close(other)) => LocalAfterClose(s, from, other, con, lsub);
    case _ =>
  }

  /** A subscription that is not open gets no event until it is asked for again. */
  lemma {:induction false} ClosedHearsNothing(m: Matcher, s: State, actions: seq<Action>, end: State, con: string, lsub: string)
    requires Tables(s) && Reaches(m, s, actions, end)
    requires con in s.conns && Local(s, con, lsub).None?
    requires forall i | 0 <= i < |actions| :: !AsksFor(actions[i], con, lsub)
    ensures con in end.conns && EventsFor(end.conns[con].sent, lsub) == EventsFor(s.conns[con].sent, lsub)
    decreases |actions|
  {
    if actions != [] {
      StepKeepsTables(m, s, actions[0]);
      StepSkipsClosed(m, s, actions[0], con, lsub);
      ClosedHearsNothing(m, Step(m, s, actions[0]), actions[1..], end, con, lsub);
    }
  }

  // ---- the handlers ----

  lemma {:induction false} HeardNext(m: Matcher, subs: Table<Sub>, e: Event, con: string, i: nat)
    requires i < |subs|
    ensures Heard(m, subs[..i + 1], e, con)
            == if subs[i].1.con == con && m(subs[i].1.filters, e) == Yes
               then Heard(m, subs[..i], e, con) + [SentEvent(subs[i].1.lsub, e)] else Heard(m, subs[..i], e, con)
    decreases i
  {
    assert subs[..i + 1][1..] == subs[1..][..i];
    if i > 0 {
      assert subs[..i][1..] == subs[1..][..i - 1];
      HeardNext(m, subs[1..], e, con, i - 1);
    }
  }

  /** One more subscriber of a broadcast, for connection `c`. */
  lemma DeliverNextTo(m: Matcher, conns: map<string, Conn>, subs: Table<Sub>, e: Event, i: nat, c: string)
    requires i < |subs| && c in conns
    ensures var sub, before := subs[i].1, Delivery(m, conns, subs[..i], e)[c];
            Delivery(m, conns, subs[..i + 1], e)[c]
            == if c == sub.con && m(sub.filters, e) == Yes then before.(sent := before.sent + [SentEvent(sub.lsub, e)]) else before
  {
    HeardNext(m, subs, e, c, i);
    var sent, heard := conns[c].sent, Heard(m, subs[..i], e, c);
    assert sent + (heard + [SentEvent(subs[i].1.lsub, e)]) == (sent + heard) + [SentEvent(subs[i].1.lsub, e)];
  }

  /** One more subscriber of a broadcast. */
  lemma DeliverNext(m: Matcher, conns: map<string, Conn>, subs: Table<Sub>, e: Event, i: nat)
    requires i < |subs|
    ensures var sub, before := subs[i].1, Delivery(m, conns, subs[..i], e);
            Delivery(m, conns, subs[..i + 1], e)
            == if sub.con in conns && m(sub.filters, e) == Yes then Told(before, sub.con, [SentEvent(sub.lsub, e)]) else before
  {
    var sub, before, after := subs[i].1, Delivery(m, conns, subs[..i], e), Delivery(m, conns, subs[..i + 1], e);
    var told := if sub.con in conns && m(sub.filters, e) == Yes then Told(before, sub.con, [SentEvent(sub.lsub, e)]) else before;
    assert after.Keys == conns.Keys && told.Keys == conns.Keys;
    forall c | c in conns ensures after[c] == told[c] {
      DeliverNextTo(m, conns, subs, e, i, c);
    }
  }

  lemma DeliverNone(m: Matcher, conns: map<string, Conn>, e: Event)
    ensures Delivery(m, conns, [], e) == conns
  {
    forall c | c in conns ensures Delivery(m, conns, [], e)[c] == conns[c] {
      assert conns[c].sent + [] == conns[c].sent;
    }
  }

  lemma ToldTwice(conns: map<string, Conn>, con: string, a: seq<Sent>, b: seq<Sent>)
    requires con in conns
    ensures Told(Told(conns, con, a), con, b) == Told(conns, con, a + b)
    ensures Told(conns, con, []) == conns
  {
    assert (conns[con].sent + a) + b == conns[con].sent + (a + b);
    assert conns[con].sent + [] == conns[con].sent;
  }

  lemma ReachNext(m: Matcher, subs: Table<Sub>, e: Event, i: nat)
    requires i < |subs| && i <= Reach(m, subs, e)
    ensures if m(subs[i].1.filters, e) == Throws then Reach(m, subs, e) == i else i < Reach(m, subs, e)
  {
    ReachMeans(m, subs, e, i);
    if i > 0 { ReachMeans(m, subs, e, i - 1); }
  }

  lemma {:induction false} ReplayNext(m: Matcher, events: Table<Event>, lsub: string, filters: Filters, i: nat)
    requires i < |events|
    ensures Replay(m, events[..i + 1], lsub, filters)
            == if m(filters, events[i].1) == Yes then Replay(m, events[..i], lsub, filters) + [SentEvent(lsub, events[i].1)]
               else Replay(m, events[..i], lsub, filters)
    decreases i
  {
    assert events[..i + 1][1..] == events[1..][..i];
    if i > 0 {
      assert events[..i][1..] == events[1..][..i - 1];
      ReplayNext(m, events[1..], lsub, filters, i - 1);
    }
  }

  lemma {:induction false} ReachStoredNext(m: Matcher, events: Table<Event>, filters: Filters, i: nat)
    requires i < |events| && i <= ReachStored(m, events, filters)
    ensures if m(filters, events[i].1) == Throws then ReachStored(m, events, filters) == i else i < ReachStored(m, events, filters)
    decreases i
  {
    if i > 0 {
      ReachStoredNext(m, events[1..], filters, i - 1);
    }
  }

  class Relay {
    const matchFilters: Matcher
    var namespaces: map<string, Ns>
    var conns: map<string, Conn>

    ghost function Abs(): State
      reads this
    {
      State(namespaces, conns)
    }

    constructor (m: Matcher)
      ensures Abs() == INITIAL && matchFilters == m
    {
      matchFilters := m;
      namespaces, conns := map[], map[];
    }

    method OnConnection(con: string, url: Option<string>)
      requires Enabled(Abs(), Connect(con, url))
      modifies this
      ensures Abs() == Step(matchFilters, old(Abs()), Connect(con, url))
    {
      var ns := Namespace(url);
      if ns !in namespaces {
        namespaces := namespaces[ns := Ns([], [])];
      }
      conns := conns[con := Conn(ns, true, [], [])];
    }

    method Send(con: string, msg: Sent)
      requires con in conns
      modifies this`conns
      ensures conns == Told(old(conns), con, [msg])
    {
      conns := conns[con := conns[con].(sent := conns[con].sent + [msg])];
    }

    /** The broadcast loop; `done` says that no matching threw. */
    method Broadcast(gsubs: Table<Sub>, e: Event) returns (done: bool)
      modifies this`conns
      ensures conns == Delivery(matchFilters, old(conns), gsubs[..Reach(matchFilters, gsubs, e)], e)
      ensures done == (Reach(matchFilters, gsubs, e) == |gsubs|)
    {
      var i := 0;
      DeliverNone(matchFilters, conns, e);
      assert gsubs[..0] == [];
      while i < |gsubs|
        invariant i <= Reach(matchFilters, gsubs, e)
        invariant conns == Delivery(matchFilters, old(conns), gsubs[..i], e)
      {
        var sub := gsubs[i].1;
        ReachNext(matchFilters, gsubs, e, i);
        DeliverNext(matchFilters, old(conns), gsubs, e, i);
        var matches := matchFilters(sub.filters, e);
        if matches == Throws { return false; }
        if matches == Yes && sub.con in conns { Send(sub.con, SentEvent(sub.lsub, e)); }
        i := i + 1;
      }
      done := true;
    }

    method OnEvent(con: string, e: Event)
      requires Enabled(Abs(), Say(con, Publish(e)))
      modifies this
      ensures Abs() == Step(matchFilters, old(Abs()), Say(con, Publish(e)))
    {
      var ns := conns[con].ns;
      var gsubs := namespaces[ns].gsubs;
      namespaces := namespaces[ns := namespaces[ns].(events := Put(namespaces[ns].events, e.id, e))];
      var done := Broadcast(gsubs, e);
      if done { Send(con, SentOk(e.id)); }
    }

    /** The loop over the stored events; `done` says that no matching threw. */
    method ReplayStored(con: string, events: Table<Event>, lsub: string, filters: Filters) returns (done: bool)
      requires con in conns
      modifies this`conns
      ensures conns == Told(old(conns), con, Replay(matchFilters, events[..ReachStored(matchFilters, events, filters)], lsub, filters))
      ensures done == (ReachStored(matchFilters, events, filters) == |events|)
    {
      var i := 0;
      ToldTwice(conns, con, [], []);
      assert events[..0] == [];
      while i < |events|
        invariant i <= ReachStored(matchFilters, events, filters)
        invariant conns == Told(old(conns), con, Replay(matchFilters, events[..i], lsub, filters))
      {
        ReachStoredNext(matchFilters, events, filters, i);
        ReplayNext(matchFilters, events, lsub, filters, i);
        ToldTwice(old(conns), con, Replay(matchFilters, events[..i], lsub, filters), [SentEvent(lsub, events[i].1)]);
        var matches := matchFilters(filters, events[i].1);
        if matches == Throws { return false; }
        if matches == Yes { Send(con, SentEvent(lsub, events[i].1)); }
        i := i + 1;
      }
      done := true;
    }

    method OnReq(con: string, lsub: string, filters: Filters)
      requires Enabled(Abs(), Say(con, Req(lsub, filters)))
      modifies this
      ensures Abs() == Step(matchFilters, old(Abs()), Say(con, Req(lsub, filters)))
    {
      var ns, gsubid := conns[con].ns, Gid(con, lsub);
      var events := namespaces[ns].events;
      conns := conns[con := conns[con].(lsubs := Put(conns[con].lsubs, lsub, gsubid))];
      namespaces := namespaces[ns := namespaces[ns].(gsubs := Put(namespaces[ns].gsubs, gsubid, Sub(con, lsub, filters)))];
      ghost var subscribed, replay := conns, Replay(matchFilters, events[..ReachStored(matchFilters, events, filters)], lsub, filters);
      var done := ReplayStored(con, events, lsub, filters);
      ToldTwice(subscribed, con, replay, [SentEose(lsub)]);
      assert replay + [] == replay;
      if done { Send(con, SentEose(lsub)); }
    }

    method OnClose(con: string, lsub: string)
      requires Enabled(Abs(), Say(con, Close(lsub)))
      modifies this
      ensures Abs() == Step(matchFilters, old(Abs()), Say(con, Close(lsub)))
    {
      var ns := conns[con].ns;
      conns := conns[con := conns[con].(lsubs := Drop(conns[con].lsubs, lsub))];
      namespaces := namespaces[ns := namespaces[ns].(gsubs := Drop(namespaces[ns].gsubs, Gid(con, lsub)))];
    }

    method OnDisconnect(con: string)
      requires Enabled(Abs(), Disconnect(con))
      modifies this
      ensures Abs() == Step(matchFilters, old(Abs()), Disconnect(con))
    {
      var ns, lsubs := conns[con].ns, conns[con].lsubs;
      var gsubs, i := namespaces[ns].gsubs, 0;
      while i < |lsubs|
        invariant i <= |lsubs|
        invariant DropAll(gsubs, lsubs[i..]) == DropAll(namespaces[ns].gsubs, lsubs)
      {
        assert lsubs[i..][1..] == lsubs[i + 1..];
        gsubs := Drop(gsubs, lsubs[i].1);
        i := i + 1;
      }
      namespaces := namespaces[ns := namespaces[ns].(gsubs := gsubs)];
      conns := conns[con := conns[con].(lsubs := [], live := false)];
    }

    /** The timer that empties the event tables. */
    method OnTimer()
      modifies this`namespaces
      ensures Abs() == Step(matchFilters, old(Abs()), ClearEvents)
    {
      var left := namespaces.Keys;
      while left != {}
        invariant namespaces.Keys == old(namespaces).Keys && left <= namespaces.Keys
        invariant forall ns | ns in left :: namespaces[ns] == old(namespaces)[ns]
        invariant forall ns | ns in namespaces && ns !in left :: namespaces[ns] == Emptied(old(namespaces))[ns]
        decreases left
      {
        var ns :| ns in left;
        namespaces := namespaces[ns := namespaces[ns].(events := [])];
        left := left - {ns};
      }
    }
  }
}
