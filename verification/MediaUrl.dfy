/**
 Media URLs: built by `getNpubFileUrl`, taken apart by the fetch handler of the service worker.

 Between the two the browser's URL parser removes dot segments from the path and escapes apostrophes
 in the query. The text built here needs nothing else of that parser: it is percent-encoded already.
 The prefix is taken as resolved, so a URL starts with its origin.
 */
module MediaUrl {
  import opened Text
  import opened PercentEncoding
  import opened QueryString
  import opened Wrappers

  // ---- building ----

  const CLIENT := "htree_c"
  const EPOCH := "htree_p"

  function AppendParam(url: string, name: string, value: string): string
  {
    url + (if '?' in url then "&" else "?") + Pair(name, value)
  }

  /** `appendMediaClientKey`: nothing for no client id, or an empty one. */
  function AppendClientKey(url: string, client: Option<string>): string
  {
    if client.None? || client.value == "" then url else AppendParam(url, CLIENT, Encode(client.value))
  }

  /** `appendHtreeCacheBust`. */
  function AppendCacheBust(url: string, epoch: nat): string
  {
    if epoch == 0 then url else AppendParam(url, EPOCH, Decimal(epoch))
  }

  function EncodedPath(tree: string, path: string): string
  {
    Encode(tree) + "/" + Join(EncodeAll(Split(path, '/')), '/')
  }

  /** `getNpubFileUrl`. */
  function FileUrl(origin: string, npub: string, tree: string, path: string, client: Option<string>, epoch: nat): string
  {
    AppendCacheBust(AppendClientKey(origin + "/htree/" + npub + "/" + EncodedPath(tree, path), client), epoch)
  }

  // ---- the URL parser ----

  predicate SingleDot(s: string) { s in {".", "%2e", "%2E"} }

  predicate DoubleDot(s: string)
  {
    |s| >= 2 && if s[0] == '.' then SingleDot(s[1..]) else |s| >= 4 && SingleDot(s[..3]) && SingleDot(s[3..])
  }

  function Shortened(segments: seq<string>): seq<string>
  {
    if segments == [] then [] else segments[..|segments| - 1]
  }

  /** The segments so far, after one more. */
  function Kept(done: seq<string>, segment: string): seq<string>
  {
    if DoubleDot(segment) then Shortened(done) else if SingleDot(segment) then done else done + [segment]
  }

  /** Dot segments removed; one that comes last leaves an empty segment. */
  function RemoveDots(segments: seq<string>, done: seq<string>): seq<string>
    decreases |segments|
  {
    if segments == [] then done
    else
      var first, rest := segments[0], segments[1..];
      var last := if rest == [] && (SingleDot(first) || DoubleDot(first)) then [""] else [];
      RemoveDots(rest, Kept(done, first) + last)
  }

  function EscapeQuotes(s: string): string
  {
    if s == "" then "" else (if s[0] == '\'' then "%27" else [s[0]]) + EscapeQuotes(s[1..])
  }

  /** `new URL(...).href`, given what follows the origin. */
  function Href(origin: string, target: string): string
    requires |target| > 0
  {
    var parts := Cut(target, '?');
    var path := if parts.0 == "" then "" else parts.0[1..];
    origin + "/" + Join(RemoveDots(Split(path, '/'), []), '/')
    + if '?' in target then "?" + EscapeQuotes(parts.1) else ""
  }

  // ---- taking apart ----

  datatype Request = Request(npub: string, tree: string, path: string, clientKey: Option<string>)

  /** `NPUB_PATTERN`. */
  predicate IsNpub(s: string)
  {
    |s| == 63 && s[..5] == "npub1" && forall i | 5 <= i < 63 :: LowerOrDigit(s[i])
  }

  /** What follows scheme and host. */
  function AfterOrigin(href: string): Option<string>
  {
    var afterScheme := Cut(href, ':').1;
    if !(':' in href) || Cut(href, ':').0 == "" || !("//" <= afterScheme) then None
    else
      var host := Cut(afterScheme[2..], '/');
      if host.0 == "" then None else Some(if '/' in afterScheme[2..] then "/" + host.1 else "")
  }

  /** The fetch handler on a GET request: what it serves from an npub's tree, if anything. */
  function ParseRequest(href: string): Option<Request>
  {
    var after := AfterOrigin(href);
    if after.None? then None
    else
      var rawPath, query := Cut(after.value, '?').0, Cut(after.value, '?').1;
      var parts := Split(if rawPath == "" then "" else rawPath[1..], '/');
      if parts[0] != "htree" || |parts| < 3 || "nhash1" <= parts[1] || !IsNpub(parts[1]) then None
      else
        var tree, path := Decode(parts[2]), DecodeAll(parts[3..]);
        if tree.None? || path.None? then None
        else Some(Request(parts[1], tree.value, Join(path.value, '/'), QueryGet(query, CLIENT)))
  }

  // ---- origins ----

  /** `scheme://host`. */
  predicate IsOrigin(origin: string, scheme: string, host: string)
  {
    && origin == scheme + "://" + host
    && scheme != "" && ':' !in scheme && host != "" && '/' !in host && '?' !in origin
  }

  lemma AfterOriginOf(origin: string, scheme: string, host: string, rest: string)
    requires IsOrigin(origin, scheme, host)
    ensures AfterOrigin(origin + "/" + rest) == Some("/" + rest)
  {
    var href := origin + "/" + rest;
    var tail := "//" + host + "/" + rest;
    assert href == scheme + [':'] + tail;
    CutAt(scheme, ':', tail);
    assert tail[2..] == host + ['/'] + rest;
    CutAt(host, '/', rest);
  }

  // ---- dots ----

  predicate IsDot(s: string) { s == "." || s == ".." }

  /** One dot, plain or coded, at the start of a string decodes to a dot. */
  lemma DotThen(dot: string, t: string)
    requires SingleDot(dot)
    ensures Decode(dot + t) == Then('.', Decode(t))
  {
    if dot == "." {
      assert (dot + t)[1..] == t;
    } else {
      assert (dot + t)[3..] == t;
      assert TakeByte(dot + t) == Some((0x2e, t));
    }
  }

  lemma DotsDecode(e: string)
    ensures SingleDot(e) ==> Decode(e) == Some(".")
    ensures DoubleDot(e) ==> Decode(e) == Some("..")
  {
    assert ['.'] + "" == "." && ['.'] + "." == "..";
    assert Then('.', Some("")) == Some(".") && Then('.', Some(".")) == Some("..");
    if SingleDot(e) {
      DotThen(e, "");
      assert e + "" == e;
    }
    if DoubleDot(e) {
      var k := if e[0] == '.' then 1 else 3;
      var first, second := e[..k], e[k..];
      assert k == 1 ==> first == ".";
      DotThen(second, "");
      assert second + "" == second && first + second == e;
      DotThen(first, second);
    }
  }

  /** A string is encoded as a dot segment only if it is dots itself. */
  lemma EncodedDot(s: string)
    ensures SingleDot(Encode(s)) <==> s == "."
    ensures DoubleDot(Encode(s)) <==> s == ".."
  {
    DecodeEncode(s);
    DotsDecode(Encode(s));
    EncodeUnreserved(".");
    EncodeUnreserved("..");
    assert ".."[1..] == ".";
  }

  /** `n` encoded segments none of which is a dot segment. */
  predicate NoDots(segments: seq<string>)
  {
    forall i | 0 <= i < |segments| :: !SingleDot(segments[i]) && !DoubleDot(segments[i])
  }

  lemma {:induction false} NothingRemoved(segments: seq<string>, done: seq<string>)
    requires NoDots(segments)
    ensures RemoveDots(segments, done) == done + segments
    decreases |segments|
  {
    if segments == [] {
      assert done + [] == done;
    } else {
      NothingRemoved(segments[1..], done + [segments[0]]);
      assert done + [segments[0]] + [] == done + [segments[0]];
      assert done + [segments[0]] + segments[1..] == done + segments;
    }
  }

  /** The code of a string that is not dots. */
  ghost predicate Clean(e: string) { exists y: string :: e == Encode(y) && !IsDot(y) }

  /** The code of a path segment that is not dots. */
  ghost predicate CleanPiece(e: string) { exists y: string :: e == Encode(y) && !IsDot(y) && '/' !in y }

  ghost predicate AllClean(done: seq<string>)
  {
    && (forall i | 0 <= i < |done| :: Clean(done[i]))
    && (forall i | 3 <= i < |done| :: CleanPiece(done[i]))
  }

  lemma CodeClean(y: string)
    requires !IsDot(y)
    ensures Clean(Encode(y)) && ('/' !in y ==> CleanPiece(Encode(y)))
  {
  }

  lemma OneMoreClean(done: seq<string>, e: string)
    requires AllClean(done) && Clean(e) && (|done| >= 3 ==> CleanPiece(e))
    ensures AllClean(done + [e])
  {
  }

  lemma KeptClean(done: seq<string>, piece: string)
    requires AllClean(done) && '/' !in piece
    ensures AllClean(Kept(done, Encode(piece))) && AllClean(Kept(done, Encode(piece)) + [""])
  {
    EncodedDot(piece);
    CodeClean("");
    assert Encode("") == "";
    if !IsDot(piece) {
      CodeClean(piece);
      OneMoreClean(done, Encode(piece));
    }
    OneMoreClean(Kept(done, Encode(piece)), "");
  }

  /** Whatever the segments are, what remains after removing dots is clean. */
  lemma {:induction false} RemainsClean(pieces: seq<string>, done: seq<string>)
    requires AllClean(done) && forall p | p in pieces :: '/' !in p
    ensures AllClean(RemoveDots(EncodeAll(pieces), done))
    decreases |pieces|
  {
    if pieces != [] {
      var e, first := EncodeAll(pieces), pieces[0];
      assert e[1..] == EncodeAll(pieces[1..]) && first in pieces && forall p | p in pieces[1..] :: p in pieces;
      KeptClean(done, first);
      var kept := Kept(done, e[0]);
      assert kept + [] == kept;
      var last := if e[1..] == [] && (SingleDot(e[0]) || DoubleDot(e[0])) then [""] else [];
      RemainsClean(pieces[1..], kept + last);
    }
  }

  lemma {:induction false} SomethingRemains(segments: seq<string>, done: seq<string>)
    requires segments != [] || done != []
    ensures RemoveDots(segments, done) != []
    decreases |segments|
  {
    if segments != [] {
      var first, rest := segments[0], segments[1..];
      var last := if rest == [] && (SingleDot(first) || DoubleDot(first)) then [""] else [];
      SomethingRemains(rest, Kept(done, first) + last);
    }
  }

  lemma OneSegment(first: string, rest: seq<string>, done: seq<string>)
    requires rest != []
    ensures RemoveDots([first] + rest, done) == RemoveDots(rest, Kept(done, first))
  {
    assert ([first] + rest)[1..] == rest;
    assert Kept(done, first) + [] == Kept(done, first);
  }

  // ---- the path of a media URL ----

  function Segments(npub: string, tree: string, path: string): seq<string>
  {
    ["htree", npub, Encode(tree)] + EncodeAll(Split(path, '/'))
  }

  predicate Dotless(tree: string, path: string)
  {
    !IsDot(tree) && forall p | p in Split(path, '/') :: !IsDot(p)
  }

  lemma NpubPlain(npub: string)
    requires IsNpub(npub)
    ensures Encode(npub) == npub && !IsDot(npub) && Safe(npub) && !("nhash1" <= npub)
  {
    assert npub[..5] == "npub1" && npub[0] == 'n' && npub[1] == 'p';
    forall c | c in npub ensures Unreserved(c) {
      var i :| 0 <= i < |npub| && npub[i] == c;
      if i < 5 { assert npub[i] == "npub1"[i]; }
    }
    EncodeUnreserved(npub);
    assert npub[1] != "nhash1"[1];
  }

  lemma SegmentsSafe(npub: string, tree: string, path: string)
    requires IsNpub(npub)
    ensures forall p | p in Segments(npub, tree, path) :: Safe(p)
  {
    NpubPlain(npub);
    EncodeSafe(tree);
    EncodeAllSafe(Split(path, '/'));
  }

  /** What the URL parser leaves of the segments. */
  function Remaining(npub: string, tree: string, path: string): seq<string>
  {
    RemoveDots(Segments(npub, tree, path), [])
  }

  /** What is kept of the first three segments, which stand before the path. */
  function Front(npub: string, tree: string): seq<string> { Kept(["htree", npub], Encode(tree)) }

  lemma ThreeSegments(first: string, second: string, third: string, rest: seq<string>)
    requires rest != [] && NoDots([first]) && NoDots([second])
    ensures RemoveDots([first, second, third] + rest, []) == RemoveDots(rest, Kept([first, second], third))
  {
    assert NoDots([first]) ==> !SingleDot([first][0]) && !DoubleDot([first][0]);
    assert NoDots([second]) ==> !SingleDot([second][0]) && !DoubleDot([second][0]);
    assert [first, second, third] + rest == [first] + ([second] + ([third] + rest));
    OneSegment(first, [second] + ([third] + rest), []);
    OneSegment(second, [third] + rest, [first]);
    OneSegment(third, rest, [first, second]);
    assert [] + [first] == [first] && [first] + [second] == [first, second];
  }

  /** `htree` and the npub stand for themselves and are not dots. */
  lemma PlainSegment(s: string)
    requires Encode(s) == s && !IsDot(s)
    ensures NoDots([s]) && Clean(s)
  {
    EncodedDot(s);
    CodeClean(s);
  }

  lemma FirstThree(npub: string, tree: string, path: string)
    requires IsNpub(npub)
    ensures Remaining(npub, tree, path) == RemoveDots(EncodeAll(Split(path, '/')), Front(npub, tree))
    ensures Clean("htree") && Clean(npub)
  {
    NpubPlain(npub);
    EncodeUnreserved("htree");
    PlainSegment("htree");
    PlainSegment(npub);
    ThreeSegments("htree", npub, Encode(tree), EncodeAll(Split(path, '/')));
  }

  lemma FrontClean(first: string, second: string, tree: string)
    requires Clean(first) && Clean(second)
    ensures AllClean(Kept([first, second], Encode(tree)))
  {
    EncodedDot(tree);
    if !IsDot(tree) {
      CodeClean(tree);
      OneMoreClean([first, second], Encode(tree));
    }
  }

  lemma RemainingClean(npub: string, tree: string, path: string)
    requires IsNpub(npub)
    ensures AllClean(Remaining(npub, tree, path)) && Remaining(npub, tree, path) != []
  {
    FirstThree(npub, tree, path);
    FrontClean("htree", npub, tree);
    SplitParts(path, '/');
    RemainsClean(Split(path, '/'), Front(npub, tree));
    SomethingRemains(EncodeAll(Split(path, '/')), Front(npub, tree));
  }

  lemma DotlessKept(npub: string, tree: string, path: string)
    requires IsNpub(npub) && Dotless(tree, path)
    ensures Remaining(npub, tree, path) == Segments(npub, tree, path)
  {
    var pieces := Split(path, '/');
    FirstThree(npub, tree, path);
    EncodedDot(tree);
    forall i | 0 <= i < |pieces| ensures !SingleDot(EncodeAll(pieces)[i]) && !DoubleDot(EncodeAll(pieces)[i]) {
      DecodeEncodeAll(pieces);
      EncodedDot(pieces[i]);
      assert pieces[i] in pieces;
    }
    assert Front(npub, tree) == ["htree", npub, Encode(tree)];
    NothingRemoved(EncodeAll(pieces), Front(npub, tree));
  }

  /** What the handler makes of the segments that remain. */
  function Served(segments: seq<string>, clientKey: Option<string>): Option<Request>
  {
    if |segments| < 3 || segments[0] != "htree" || "nhash1" <= segments[1] || !IsNpub(segments[1]) then None
    else
      var tree, path := Decode(segments[2]), DecodeAll(segments[3..]);
      if tree.None? || path.None? then None
      else Some(Request(segments[1], tree.value, Join(path.value, '/'), clientKey))
  }

  lemma {:induction false} CleanDecodes(segments: seq<string>)
    requires forall i | 0 <= i < |segments| :: CleanPiece(segments[i])
    ensures DecodeAll(segments).Some?
    ensures forall p | p in DecodeAll(segments).value :: !IsDot(p) && '/' !in p
  {
    if segments != [] {
      var y: string :| segments[0] == Encode(y) && !IsDot(y) && '/' !in y;
      DecodeEncode(y);
      assert forall i | 0 <= i < |segments[1..]| :: segments[1..][i] == segments[i + 1];
      CleanDecodes(segments[1..]);
    }
  }

  /** What is served from clean segments has no dots. */
  lemma ServedDotless(segments: seq<string>, clientKey: Option<string>)
    requires AllClean(segments) && Served(segments, clientKey).Some?
    ensures var r := Served(segments, clientKey).value; Dotless(r.tree, r.path)
  {
    assert Clean(segments[2]);
    var y: string :| segments[2] == Encode(y) && !IsDot(y);
    DecodeEncode(y);
    var tail := segments[3..];
    forall i | 0 <= i < |tail| ensures CleanPiece(tail[i]) {
      assert CleanPiece(segments[i + 3]);
    }
    CleanDecodes(tail);
    var pieces := DecodeAll(tail).value;
    if pieces == [] {
      assert Split("", '/') == [""];
    } else {
      SplitJoin(pieces, '/');
    }
  }

  /** The segments are served as they were meant exactly when none of them is dots. */
  lemma ServedIff(npub: string, tree: string, path: string, clientKey: Option<string>)
    requires IsNpub(npub)
    ensures Served(Remaining(npub, tree, path), clientKey) == Some(Request(npub, tree, path, clientKey)) <==> Dotless(tree, path)
  {
    if Dotless(tree, path) {
      DotlessKept(npub, tree, path);
      NpubPlain(npub);
      DecodeEncode(tree);
      DecodeEncodeAll(Split(path, '/'));
      JoinSplit(path, '/');
      assert Segments(npub, tree, path)[3..] == EncodeAll(Split(path, '/'));
    } else {
      RemainingClean(npub, tree, path);
      if Served(Remaining(npub, tree, path), clientKey).Some? {
        ServedDotless(Remaining(npub, tree, path), clientKey);
      }
    }
  }

  // ---- the query of a media URL ----

  function Params(client: Option<string>, epoch: nat): string
  {
    var c := if client.None? || client.value == "" then "" else Pair(CLIENT, Encode(client.value));
    var p := if epoch == 0 then "" else Pair(EPOCH, Decimal(epoch));
    if c == "" then p else if p == "" then c else c + "&" + p
  }

  function Key(client: Option<string>): Option<string> { if client == Some("") then None else client }

  lemma {:induction false} EscapeNone(s: string)
    requires '\'' !in s
    ensures EscapeQuotes(s) == s
  {
    if s != "" {
      EscapeNone(s[1..]);
      assert [s[0]] + s[1..] == s;
    }
  }

  lemma {:induction false} EscapeConcat(a: string, b: string)
    ensures EscapeQuotes(a + b) == EscapeQuotes(a) + EscapeQuotes(b)
  {
    if a == "" {
      assert a + b == b;
    } else {
      assert (a + b)[1..] == a[1..] + b;
      EscapeConcat(a[1..], b);
    }
  }

  lemma {:induction false} EscapeSafe(s: string)
    requires Safe(s)
    ensures Safe(EscapeQuotes(s))
  {
    if s != "" {
      assert s[0] in s && forall c | c in s[1..] :: c in s;
      EscapeSafe(s[1..]);
    }
  }

  lemma CharQuote(c: char, t: string)
    ensures Decode(EscapeQuotes(EncodeChar(c)) + t) == Then(c, Decode(t))
  {
    if c == '\'' {
      assert EscapeQuotes("'") == "%27" by { assert "'"[1..] == "" && "%27" + "" == "%27"; }
      assert ("%27" + t)[3..] == t;
      assert TakeByte("%27" + t) == Some((0x27, t));
    } else {
      if !Unreserved(c) { PercentsQuote(Utf8(c as int)); }
      EscapeNone(EncodeChar(c));
      DecodeFirst(c, t);
    }
  }

  lemma {:induction false} PercentsQuote(bytes: seq<Octet>)
    ensures '\'' !in Percents(bytes)
  {
    if bytes != [] {
      PercentsQuote(bytes[1..]);
      HexBack(bytes[0] / 16);
      HexBack(bytes[0] % 16);
    }
  }

  /** Escaping apostrophes of an encoded value does not change what it decodes to. */
  lemma {:induction false} DecodeEscaped(s: string)
    ensures Decode(EscapeQuotes(Encode(s))) == Some(s)
  {
    if s != "" {
      DecodeEscaped(s[1..]);
      EscapeConcat(EncodeChar(s[0]), Encode(s[1..]));
      CharQuote(s[0], EscapeQuotes(Encode(s[1..])));
      ThenSome(s);
    }
  }

  lemma FormEscaped(s: string)
    ensures FormDecode(EscapeQuotes(Encode(s))) == s
  {
    EncodeSafe(s);
    EscapeSafe(Encode(s));
    NoPlus(EscapeQuotes(Encode(s)));
    DecodeEscaped(s);
  }

  lemma SafeHas(s: string)
    requires Safe(s)
    ensures '&' !in s && '?' !in s && '/' !in s && '=' !in s
  {
  }

  lemma PairLacks(name: string, value: string, c: char)
    requires c !in name && c !in value && c != '='
    ensures c !in Pair(name, value)
  {
  }

  lemma GetOther(name: string, value: string, other: string)
    requires (forall c | c in name :: Unreserved(c)) && other != name
    ensures GetFrom([Pair(name, value)], other) == None
  {
    PairIs(name, value);
    assert [Pair(name, value)][1..] == [];
  }

  lemma EpochPair(epoch: nat)
    ensures GetFrom([Pair(EPOCH, Decimal(epoch))], CLIENT) == None
    ensures var p := Pair(EPOCH, Decimal(epoch)); '\'' !in p && '&' !in p && '?' !in p
  {
    assert EPOCH[6] != CLIENT[6];
    GetOther(EPOCH, Decimal(epoch), CLIENT);
    PairLacks(EPOCH, Decimal(epoch), '\'');
    PairLacks(EPOCH, Decimal(epoch), '&');
    PairLacks(EPOCH, Decimal(epoch), '?');
  }

  lemma ClientPair(id: string, rest: seq<string>)
    ensures GetFrom([Pair(CLIENT, EscapeQuotes(Encode(id)))] + rest, CLIENT) == Some(id)
  {
    var pair := Pair(CLIENT, EscapeQuotes(Encode(id)));
    PairIs(CLIENT, EscapeQuotes(Encode(id)));
    FormEscaped(id);
    assert ([pair] + rest)[0] == pair && pair != "";
  }

  lemma EscapePair(name: string, value: string)
    requires '\'' !in name
    ensures EscapeQuotes(Pair(name, value)) == Pair(name, EscapeQuotes(value))
  {
    EscapeConcat(name + "=", value);
    EscapeNone(name + "=");
  }

  lemma ClientText(id: string)
    ensures '&' !in Pair(CLIENT, EscapeQuotes(Encode(id))) && '?' !in Pair(CLIENT, Encode(id))
  {
    EncodeSafe(id);
    EscapeSafe(Encode(id));
    SafeHas(EscapeQuotes(Encode(id)));
    SafeHas(Encode(id));
    PairLacks(CLIENT, EscapeQuotes(Encode(id)), '&');
    PairLacks(CLIENT, Encode(id), '?');
  }

  lemma KeyAlone(id: string)
    ensures QueryGet(EscapeQuotes(Pair(CLIENT, Encode(id))), CLIENT) == Some(id)
  {
    var pair := Pair(CLIENT, EscapeQuotes(Encode(id)));
    EscapePair(CLIENT, Encode(id));
    ClientText(id);
    ClientPair(id, []);
    SplitWhole(pair, '&');
    assert [pair] + [] == [pair];
  }

  lemma KeyWithEpoch(id: string, p: string)
    requires '\'' !in p
    ensures QueryGet(EscapeQuotes(Pair(CLIENT, Encode(id)) + "&" + p), CLIENT) == Some(id)
  {
    var c, pair := Pair(CLIENT, Encode(id)), Pair(CLIENT, EscapeQuotes(Encode(id)));
    EscapePair(CLIENT, Encode(id));
    ClientText(id);
    EscapeConcat(c + "&", p);
    EscapeConcat(c, "&");
    EscapeNone("&");
    EscapeNone(p);
    assert EscapeQuotes(c + "&" + p) == pair + ['&'] + p;
    SplitCons(pair, p, '&');
    ClientPair(id, Split(p, '&'));
  }

  /** The client id comes back from the query, with the cache bust beside it or without. */
  lemma KeyBack(client: Option<string>, epoch: nat)
    ensures QueryGet(EscapeQuotes(Params(client, epoch)), CLIENT) == Key(client)
    ensures '?' !in Params(client, epoch)
  {
    var p := Pair(EPOCH, Decimal(epoch));
    EpochPair(epoch);
    if client.None? || client.value == "" {
      EscapeNone(p);
      SplitWhole(p, '&');
      if epoch == 0 {
        assert GetFrom([""], CLIENT) == None by { assert [""][1..] == []; }
      }
    } else {
      ClientText(client.value);
      if epoch == 0 { KeyAlone(client.value); } else { KeyWithEpoch(client.value, p); }
    }
  }

  // ---- the whole ----

  lemma SafeJoin(parts: seq<string>)
    requires parts != [] && forall p | p in parts :: Safe(p)
    ensures '?' !in Join(parts, '/') && Split(Join(parts, '/'), '/') == parts
  {
    forall p | p in parts ensures '?' !in p && '/' !in p {
      SafeHas(p);
    }
    NoneInJoin(parts, '?');
    SplitJoin(parts, '/');
  }

  lemma UrlPath(npub: string, tree: string, path: string)
    ensures "/htree/" + npub + "/" + EncodedPath(tree, path) == "/" + Join(Segments(npub, tree, path), '/')
  {
    var e := EncodeAll(Split(path, '/'));
    var s := Segments(npub, tree, path);
    assert s[1..] == [npub, Encode(tree)] + e && s[1..][1..] == [Encode(tree)] + e && s[1..][1..][1..] == e;
    assert Join(s[1..][1..], '/') == Encode(tree) + ['/'] + Join(e, '/');
    assert Join(s[1..], '/') == npub + ['/'] + Join(s[1..][1..], '/');
  }

  /** A path and its query, if there is one. */
  function WithQuery(path: string, query: string): string { if query == "" then path else path + "?" + query }

  lemma FirstParam(base: string, name: string, value: string)
    requires '?' !in base
    ensures AppendParam(base, name, value) == base + "?" + Pair(name, value)
  {
  }

  lemma NextParam(base: string, query: string, name: string, value: string)
    ensures AppendParam(base + "?" + query, name, value) == base + "?" + (query + "&" + Pair(name, value))
  {
    var url := base + "?" + query;
    assert url[|base|] == '?';
    assert url + "&" + Pair(name, value) == base + "?" + (query + "&" + Pair(name, value));
  }

  lemma UrlShape(base: string, client: Option<string>, epoch: nat)
    requires '?' !in base
    ensures AppendCacheBust(AppendClientKey(base, client), epoch) == WithQuery(base, Params(client, epoch))
  {
    FirstParam(base, EPOCH, Decimal(epoch));
    if client.Some? && client.value != "" {
      FirstParam(base, CLIENT, Encode(client.value));
      NextParam(base, Pair(CLIENT, Encode(client.value)), EPOCH, Decimal(epoch));
    }
  }

  lemma HrefOf(origin: string, segments: seq<string>, query: string)
    requires segments != [] && forall p | p in segments :: Safe(p)
    ensures Href(origin, WithQuery("/" + Join(segments, '/'), query))
            == WithQuery(origin + "/" + Join(RemoveDots(segments, []), '/'), EscapeQuotes(query))
  {
    var path := "/" + Join(segments, '/');
    SafeJoin(segments);
    assert path[1..] == Join(segments, '/');
    if query == "" {
      CutNone(path, '?');
    } else {
      CutAt(path, '?', query);
      assert WithQuery(path, query)[|path|] == '?';
      assert EscapeQuotes(query) != "";
    }
  }

  lemma ParseOf(origin: string, scheme: string, host: string, segments: seq<string>, query: string)
    requires IsOrigin(origin, scheme, host) && segments != [] && forall p | p in segments :: Safe(p)
    ensures ParseRequest(WithQuery(origin + "/" + Join(segments, '/'), query)) == Served(segments, QueryGet(query, CLIENT))
  {
    var path := Join(segments, '/');
    SafeJoin(segments);
    var after := "/" + WithQuery(path, query);
    AfterOriginOf(origin, scheme, host, WithQuery(path, query));
    assert WithQuery(origin + "/" + path, query) == origin + "/" + WithQuery(path, query);
    assert ("/" + path)[1..] == path && '?' !in "/" + path;
    if query == "" {
      CutNone("/" + path, '?');
    } else {
      assert after == ("/" + path) + ['?'] + query;
      CutAt("/" + path, '?', query);
    }
  }

  lemma CleanSafe(segments: seq<string>)
    requires AllClean(segments)
    ensures forall p | p in segments :: Safe(p)
  {
    forall p | p in segments ensures Safe(p) {
      var i :| 0 <= i < |segments| && segments[i] == p;
      assert Clean(segments[i]);
      var y: string :| p == Encode(y) && !IsDot(y);
      EncodeSafe(y);
    }
  }

  lemma UrlText(origin: string, npub: string, tree: string, path: string)
    ensures origin + "/htree/" + npub + "/" + EncodedPath(tree, path) == origin + ("/" + Join(Segments(npub, tree, path), '/'))
  {
    UrlPath(npub, tree, path);
    var e := EncodedPath(tree, path);
    assert origin + "/htree/" + npub + "/" + e == origin + ("/htree/" + npub + "/" + e);
  }

  lemma WithQueryAfter(origin: string, path: string, query: string)
    ensures WithQuery(origin + path, query) == origin + WithQuery(path, query)
  {
  }

  /** The text of the URL after its origin. */
  lemma TargetIs(origin: string, npub: string, tree: string, path: string, client: Option<string>, epoch: nat, target: string)
    requires IsNpub(npub) && '?' !in origin
    requires FileUrl(origin, npub, tree, path, client, epoch) == origin + target
    ensures target == WithQuery("/" + Join(Segments(npub, tree, path), '/'), Params(client, epoch))
  {
    var joined := Join(Segments(npub, tree, path), '/');
    var full := "/" + joined;
    SegmentsSafe(npub, tree, path);
    SafeJoin(Segments(npub, tree, path));
    UrlText(origin, npub, tree, path);
    assert '?' !in full && '?' !in origin + full;
    UrlShape(origin + full, client, epoch);
    WithQueryAfter(origin, full, Params(client, epoch));
    assert target == (origin + target)[|origin|..];
  }

  /**
   A media URL, through the browser's URL parser, reaches the service worker as a request for the
   same npub, tree, path and client key exactly when neither the tree name nor a path segment is
   `.` or `..`. Slashes in the tree name, and any other characters, survive.
   */
  lemma MediaUrlRoundTripIff(origin: string, scheme: string, host: string, npub: string, tree: string, path: string,
                             client: Option<string>, epoch: nat, target: string)
    requires IsOrigin(origin, scheme, host) && IsNpub(npub) && target != ""
    requires FileUrl(origin, npub, tree, path, client, epoch) == origin + target
    ensures ParseRequest(Href(origin, target)) == Some(Request(npub, tree, path, Key(client))) <==> Dotless(tree, path)
  {
    var q, remaining := Params(client, epoch), Remaining(npub, tree, path);
    TargetIs(origin, npub, tree, path, client, epoch, target);
    SegmentsSafe(npub, tree, path);
    HrefOf(origin, Segments(npub, tree, path), q);
    RemainingClean(npub, tree, path);
    CleanSafe(remaining);
    ParseOf(origin, scheme, host, remaining, EscapeQuotes(q));
    KeyBack(client, epoch);
    ServedIff(npub, tree, path, Key(client));
  }
}
