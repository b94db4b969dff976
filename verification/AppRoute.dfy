/**
 In-app routes: built by `buildRouteUrl`, read back from the location hash by `parseRouteFromHash`.

 Whether an `nhash1` or `npath1` string decodes is up to the library, so it is a parameter.
 */
module AppRoute {
  import opened Text
  import opened PercentEncoding
  import opened QueryString
  import opened Wrappers

  const RESERVED := {"profile", "follows", "edit"}
  const SPECIAL := {"settings", "wallet", "users"}

  // ---- building ----

  predicate Truthy(s: Option<string>) { s.Some? && s.value != "" }

  function Listed(s: Option<string>): seq<string> { if Truthy(s) then [s.value] else [] }

  function Parts(npub: Option<string>, tree: Option<string>, path: seq<string>, file: Option<string>): seq<string>
  {
    (if Truthy(npub) && Truthy(tree) then [npub.value, tree.value] else []) + path + Listed(file)
  }

  function RouteUrl(npub: Option<string>, tree: Option<string>, path: seq<string>, file: Option<string>, linkKey: Option<string>): string
  {
    "/" + Join(EncodeAll(Parts(npub, tree, path, file)), '/') + if Truthy(linkKey) then "?" + Pair("k", linkKey.value) else ""
  }

  method BuildRouteUrl(npub: Option<string>, tree: Option<string>, path: seq<string>, file: Option<string>, linkKey: Option<string>)
    returns (url: string)
    ensures url == RouteUrl(npub, tree, path, file, linkKey)
  {
    var parts: seq<string> := [];
    if Truthy(npub) && Truthy(tree) {
      parts := parts + [npub.value, tree.value];
    }
    parts := parts + path;
    if Truthy(file) {
      parts := parts + [file.value];
    }
    assert parts == Parts(npub, tree, path, file);
    url := "/" + Join(EncodeAll(parts), '/');
    if Truthy(linkKey) {
      url := url + ("?" + Pair("k", linkKey.value));
    }
  }

  // ---- parsing ----

  /** A permalink and an npath keep their text; a tree route has its link key, if the query names one. */
  datatype Route =
    | Permalink(nhash: string, path: seq<string>)
    | NPath(npath: string)
    | SpecialPage
    | UserPage(npub: string)
    | Tree(npub: string, tree: string, path: seq<string>, linkKey: Option<string>)
    | Home

  /** `prefix` and then one or more lower-case letters or digits. */
  predicate Coded(s: string, prefix: string)
  {
    prefix <= s && |s| > |prefix| && forall i | |prefix| <= i < |s| :: LowerOrDigit(s[i])
  }

  function AfterHash(hash: string): string { if "#" <= hash then hash[1..] else hash }

  /** Without a leading `#`, and a slash right after it. */
  function HashPath(hash: string): string
  {
    if "#/" <= hash then hash[2..] else AfterHash(hash)
  }

  function RouteOf(parts: seq<string>, linkKey: Option<string>, decodes: string -> bool): Route
  {
    if parts == [] then Home
    else if Coded(parts[0], "nhash1") && decodes(parts[0]) then Permalink(parts[0], parts[1..])
    else if Coded(parts[0], "npath1") && decodes(parts[0]) then NPath(parts[0])
    else if parts[0] in SPECIAL then SpecialPage
    else if "npub" <= parts[0] then
      if |parts| == 1 || parts[1] in RESERVED then UserPage(parts[0]) else Tree(parts[0], parts[1], parts[2..], linkKey)
    else Home
  }

  /** `parseRouteFromHash`; `None` where `decodeURIComponent` throws. */
  function ParseRoute(hash: string, decodes: string -> bool): Option<Route>
  {
    var path, query := Cut(HashPath(hash), '?').0, Cut(AfterHash(hash), '?').1;
    var parts := DecodeAll(DropEmpty(Split(path, '/')));
    if parts.None? then None else Some(RouteOf(parts.value, QueryGet(query, "k"), decodes))
  }

  // ---- round trip ----

  lemma {:induction false} DropEmptyEncoded(parts: seq<string>)
    ensures DropEmpty(EncodeAll(parts)) == EncodeAll(DropEmpty(parts))
  {
    if parts != [] {
      EncodeSafe(parts[0]);
      DropEmptyEncoded(parts[1..]);
      assert EncodeAll(parts)[1..] == EncodeAll(parts[1..]);
      var rest := DropEmpty(parts[1..]);
      if parts[0] != "" {
        assert ([parts[0]] + rest)[1..] == rest;
      }
    }
  }

  lemma {:induction false} DropEmptyConcat(a: seq<string>, b: seq<string>)
    ensures DropEmpty(a + b) == DropEmpty(a) + DropEmpty(b)
  {
    if a == [] {
      assert a + b == b;
    } else {
      assert (a + b)[1..] == a[1..] + b;
      DropEmptyConcat(a[1..], b);
    }
  }

  /** Filtering keeps everything, or makes the list shorter. */
  lemma {:induction false} DropEmptyIff(parts: seq<string>)
    ensures |DropEmpty(parts)| <= |parts|
    ensures DropEmpty(parts) == parts <==> "" !in parts
    ensures "" !in DropEmpty(parts)
  {
    if parts != [] {
      DropEmptyIff(parts[1..]);
      assert parts == [parts[0]] + parts[1..];
      if parts[0] == "" { assert |DropEmpty(parts)| < |parts|; }
    }
  }

  /** A path and its query, if there is one. */
  function WithKey(path: string, linkKey: Option<string>): string
  {
    path + if Truthy(linkKey) then "?" + Pair("k", linkKey.value) else ""
  }

  predicate Plain(linkKey: Option<string>)
  {
    linkKey.Some? ==> forall c | c in linkKey.value :: Unreserved(c)
  }

  function KeyOf(linkKey: Option<string>): Option<string> { if Truthy(linkKey) then linkKey else None }

  lemma LinkKeyBack(linkKey: string)
    requires forall c | c in linkKey :: Unreserved(c)
    ensures QueryGet(Pair("k", linkKey), "k") == Some(linkKey)
  {
    var pair := Pair("k", linkKey);
    assert '&' !in pair;
    SplitWhole(pair, '&');
    PairIs("k", linkKey);
    FormPlain(linkKey);
  }

  lemma CutHash(path: string, linkKey: Option<string>)
    requires '?' !in path && Plain(linkKey)
    ensures Cut(WithKey(path, linkKey), '?').0 == path
    ensures QueryGet(Cut(WithKey(path, linkKey), '?').1, "k") == KeyOf(linkKey)
  {
    if Truthy(linkKey) {
      assert WithKey(path, linkKey) == path + ['?'] + Pair("k", linkKey.value);
      CutAt(path, '?', Pair("k", linkKey.value));
      LinkKeyBack(linkKey.value);
    } else {
      assert WithKey(path, linkKey) == path;
      CutNone(path, '?');
      assert GetFrom([""], "k") == None by { assert [""][1..] == []; }
    }
  }

  lemma {:induction false} JoinedSafe(parts: seq<string>)
    ensures '?' !in Join(EncodeAll(parts), '/')
    ensures DropEmpty(Split(Join(EncodeAll(parts), '/'), '/')) == DropEmpty(EncodeAll(parts))
  {
    var e := EncodeAll(parts);
    EncodeAllSafe(parts);
    if parts == [] {
      assert Split("", '/') == [""] && [""][1..] == [];
    } else {
      forall p | p in e ensures '/' !in p && '?' !in p {
        assert Safe(p);
      }
      SplitJoin(e, '/');
      NoneInJoin(e, '?');
    }
  }

  lemma HashIs(joined: string, linkKey: Option<string>, hash: string)
    requires hash == "#" + WithKey("/" + joined, linkKey)
    ensures HashPath(hash) == WithKey(joined, linkKey) && AfterHash(hash) == WithKey("/" + joined, linkKey)
  {
    assert hash[1..] == WithKey("/" + joined, linkKey);
    assert hash[2..] == WithKey(joined, linkKey);
    assert hash[0] == '#' && hash[1] == '/';
  }

  lemma CutsOfHash(joined: string, linkKey: Option<string>, hash: string)
    requires hash == "#" + WithKey("/" + joined, linkKey) && '?' !in joined && Plain(linkKey)
    ensures Cut(HashPath(hash), '?').0 == joined && QueryGet(Cut(AfterHash(hash), '?').1, "k") == KeyOf(linkKey)
  {
    HashIs(joined, linkKey, hash);
    CutHash("/" + joined, linkKey);
    CutHash(joined, linkKey);
  }

  /** Empty parts are lost, all others come back. */
  lemma PartsBack(parts: seq<string>, linkKey: Option<string>, decodes: string -> bool)
    requires Plain(linkKey)
    ensures ParseRoute("#" + WithKey("/" + Join(EncodeAll(parts), '/'), linkKey), decodes)
            == Some(RouteOf(DropEmpty(parts), KeyOf(linkKey), decodes))
  {
    var joined := Join(EncodeAll(parts), '/');
    JoinedSafe(parts);
    CutsOfHash(joined, linkKey, "#" + WithKey("/" + joined, linkKey));
    DropEmptyEncoded(parts);
    DecodeEncodeAll(DropEmpty(parts));
  }

  lemma TreeRouteIff(npub: string, tree: string, path: seq<string>, rest: seq<string>, key: Option<string>, decodes: string -> bool)
    requires "npub" <= npub && |rest| <= |path|
    ensures RouteOf([npub, tree] + rest, key, decodes) == Tree(npub, tree, path, key) <==> tree !in RESERVED && rest == path
  {
    assert ([npub, tree] + rest)[2..] == rest;
    assert npub[3] == "npub"[3] && "nhash1"[1] != "npub"[1] && "npath1"[2] != "npub"[2];
    assert npub[1] == "npub"[1] && npub[2] == "npub"[2] && npub[0] == "npub"[0];
    forall s | s in SPECIAL ensures s[0] != 'n' {
    }
  }

  lemma NamedTreeIff(npub: string, tree: string, path: seq<string>, key: Option<string>, decodes: string -> bool)
    requires "npub" <= npub && tree != ""
    ensures RouteOf(DropEmpty([npub, tree] + path), key, decodes) == Tree(npub, tree, path, key)
            <==> tree !in RESERVED && "" !in path
  {
    DropEmptyIff(path);
    DropEmptyConcat([npub, tree], path);
    assert npub != "" by { assert |npub| >= 4; }
    assert [npub, tree][1..] == [tree] && [tree][1..] == [];
    assert DropEmpty([npub, tree]) == [npub, tree];
    TreeRouteIff(npub, tree, path, DropEmpty(path), key, decodes);
  }

  lemma UnnamedTreeNever(npub: string, parts: seq<string>, path: seq<string>, key: Option<string>, decodes: string -> bool)
    ensures RouteOf(DropEmpty(parts), key, decodes) != Tree(npub, "", path, key)
  {
    DropEmptyIff(parts);
    var r := RouteOf(DropEmpty(parts), key, decodes);
    assert r.Tree? ==> r.tree in DropEmpty(parts);
  }

  /**
   The route of a file in a tree, built and read back, is the same npub, tree, path with the file and
   link key exactly when the tree has a name that is not reserved and no path segment is empty.
   */
  lemma RouteRoundTripIff(npub: string, tree: string, path: seq<string>, file: Option<string>, linkKey: Option<string>, decodes: string -> bool)
    requires "npub" <= npub && Plain(linkKey)
    ensures ParseRoute("#" + RouteUrl(Some(npub), Some(tree), path, file, linkKey), decodes)
              == Some(Tree(npub, tree, path + Listed(file), KeyOf(linkKey)))
            <==> tree != "" && tree !in RESERVED && "" !in path
  {
    var parts, full := Parts(Some(npub), Some(tree), path, file), path + Listed(file);
    assert npub != "" by { assert |npub| >= 4; }
    PartsBack(parts, linkKey, decodes);
    assert RouteUrl(Some(npub), Some(tree), path, file, linkKey) == WithKey("/" + Join(EncodeAll(parts), '/'), linkKey);
    if tree != "" {
      assert parts == [npub, tree] + full;
      NamedTreeIff(npub, tree, full, KeyOf(linkKey), decodes);
      assert "" in full <==> "" in path;
    } else {
      UnnamedTreeNever(npub, parts, full, KeyOf(linkKey), decodes);
    }
  }
}
