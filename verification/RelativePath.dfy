/**
 Relative paths between files of a saved web app.

 `getRelativePath` answers with the names and `..` that lead from a directory to a path. They are
 judged by what the browser makes of them: the dot-segment rules of section 5.2.4 of RFC 3986.
 */
module RelativePath {
  import opened Text
  import opened MediaUrl
  import opened Wrappers

  /** How many leading segments two paths share. */
  function Common(f: seq<string>, t: seq<string>): (n: nat)
    ensures n <= |f| && n <= |t|
  {
    if f == [] || t == [] || f[0] != t[0] then 0 else 1 + Common(f[1..], t[1..])
  }

  function Ups(n: nat): (r: seq<string>)
    ensures |r| == n && forall i | 0 <= i < n :: r[i] == ".."
  {
    if n == 0 then [] else Ups(n - 1) + [".."]
  }

  /** Up to the common directory, then down. */
  function Moves(f: seq<string>, t: seq<string>): seq<string>
  {
    Ups(|f| - Common(f, t)) + t[Common(f, t)..]
  }

  function SegmentsOf(path: string): seq<string> { DropEmpty(Split(path, '/')) }

  function Relative(from: string, to: string): string
  {
    var joined := Join(Moves(SegmentsOf(from), SegmentsOf(to)), '/');
    if joined == "" then "." else joined
  }

  lemma CommonNext(f: seq<string>, t: seq<string>, n: nat)
    requires n <= |f| && n <= |t|
    ensures Common(f[n..], t[n..])
            == if n < |f| && n < |t| && f[n] == t[n] then 1 + Common(f[n + 1..], t[n + 1..]) else 0
  {
    if n < |f| && n < |t| {
      assert f[n..][1..] == f[n + 1..] && t[n..][1..] == t[n + 1..];
    }
  }

  method CountCommon(fromParts: seq<string>, toParts: seq<string>) returns (common: nat)
    ensures common == Common(fromParts, toParts)
  {
    common := 0;
    assert fromParts[0..] == fromParts && toParts[0..] == toParts;
    while common < |fromParts| && common < |toParts| && fromParts[common] == toParts[common]
      invariant common <= |fromParts| && common <= |toParts|
      invariant Common(fromParts, toParts) == common + Common(fromParts[common..], toParts[common..])
    {
      CommonNext(fromParts, toParts, common);
      common := common + 1;
    }
    CommonNext(fromParts, toParts, common);
  }

  method GetRelativePath(from: string, to: string) returns (path: string)
    ensures path == Relative(from, to)
  {
    var fromParts, toParts := SegmentsOf(from), SegmentsOf(to);
    var common := CountCommon(fromParts, toParts);
    var ups, downs := |fromParts| - common, toParts[common..];
    var parts: seq<string> := [];
    for i := 0 to ups
      invariant parts == Ups(i)
    {
      parts := parts + [".."];
    }
    parts := parts + downs;
    path := Join(parts, '/');
    if path == "" { path := "."; }
  }

  // ---- where it leads ----

  /** Names a path may be made of: not empty, not dots, without slashes. */
  predicate Names(path: seq<string>)
  {
    NoDots(path) && forall i | 0 <= i < |path| :: path[i] != "" && '/' !in path[i]
  }

  predicate Letter(c: char) { 'a' <= c <= 'z' || 'A' <= c <= 'Z' }

  predicate SchemeChar(c: char) { Letter(c) || IsDigit(c) || c == '+' || c == '-' || c == '.' }

  predicate SchemeTail(s: string)
  {
    s != "" && (s[0] == ':' || (SchemeChar(s[0]) && SchemeTail(s[1..])))
  }

  /** Starts as a URL with a scheme does: a letter, scheme characters and a colon. */
  predicate HasScheme(s: string)
  {
    s != "" && Letter(s[0]) && SchemeTail(s[1..])
  }

  /** What a reference leads to from a file in directory `dir`; one with a scheme is no path at all. */
  function Resolve(dir: seq<string>, reference: string): Option<seq<string>>
  {
    if HasScheme(reference) then None else Some(RemoveDots(dir + Split(reference, '/'), []))
  }

  lemma {:induction false} SchemeTailFirst(p: string, t: string)
    requires '/' !in p
    ensures SchemeTail(p + "/" + t) <==> SchemeTail(p)
  {
    if p == "" {
      assert (p + "/" + t)[0] == '/';
    } else {
      SchemeTailFirst(p[1..], t);
      assert (p + "/" + t)[1..] == p[1..] + "/" + t;
    }
  }

  /** The scheme of a joined path is that of its first segment. */
  lemma SchemeFirst(parts: seq<string>)
    requires parts != [] && forall i | 0 <= i < |parts| :: parts[i] != "" && '/' !in parts[i]
    ensures HasScheme(Join(parts, '/')) <==> HasScheme(parts[0])
  {
    if |parts| > 1 {
      var p, t := parts[0], Join(parts[1..], '/');
      assert Join(parts, '/') == p + "/" + t;
      assert (p + "/" + t)[1..] == p[1..] + "/" + t;
      SchemeTailFirst(p[1..], t);
    }
  }

  lemma {:induction false} RemoveDotsFrom(a: seq<string>, b: seq<string>, done: seq<string>)
    requires NoDots(a) && b != []
    ensures RemoveDots(a + b, done) == RemoveDots(b, done + a)
    decreases |a|
  {
    if a == [] {
      assert a + b == b && done + a == done;
    } else {
      assert a + b == [a[0]] + (a[1..] + b);
      assert !SingleDot(a[0]) && !DoubleDot(a[0]);
      OneSegment(a[0], a[1..] + b, done);
      RemoveDotsFrom(a[1..], b, done + [a[0]]);
      assert done + [a[0]] + a[1..] == done + a;
    }
  }

  lemma UpIsDots()
    ensures DoubleDot("..") && !SingleDot("..") && SingleDot(".") && !DoubleDot(".")
  {
    assert ".."[1..] == ".";
  }

  /** `..` as often as asked, then names. */
  lemma {:induction false} UpThenDown(n: nat, down: seq<string>, done: seq<string>)
    requires n <= |done| && NoDots(down) && (n > 0 || down != [])
    ensures RemoveDots(Ups(n) + down, done) == done[..|done| - n] + (if down == [] then [""] else down)
    decreases n
  {
    UpIsDots();
    if n == 0 {
      assert Ups(0) + down == down;
      assert done[..|done|] == done;
      NothingRemoved(down, done);
    } else {
      var up := Ups(n) + down;
      UpsFirst(n);
      var rest := Ups(n - 1) + down;
      assert up == [".."] + rest;
      var less := done[..|done| - 1];
      if rest == [] {
        assert up[1..] == [] && RemoveDots([], less + [""]) == less + [""];
      } else {
        OneSegment("..", rest, done);
        UpThenDown(n - 1, down, less);
        assert less[..|less| - (n - 1)] == done[..|done| - n];
      }
    }
  }

  lemma {:induction false} UpsFirst(n: nat)
    requires n > 0
    ensures Ups(n) == [".."] + Ups(n - 1)
  {
    if n > 1 {
      UpsFirst(n - 1);
      assert Ups(n) == Ups(n - 1) + [".."];
    }
  }

  lemma {:induction false} CommonShared(f: seq<string>, t: seq<string>)
    ensures f[..Common(f, t)] == t[..Common(f, t)]
  {
    var n := Common(f, t);
    if n > 0 {
      CommonShared(f[1..], t[1..]);
      assert f[..n] == [f[0]] + f[1..][..n - 1] && t[..n] == [t[0]] + t[1..][..n - 1];
    }
  }

  lemma {:induction false} JoinedEmptyIff(parts: seq<string>)
    requires "" !in parts
    ensures Join(parts, '/') == "" <==> parts == []
  {
    if parts != [] {
      assert parts[0] in parts;
    }
  }

  lemma MovesSplit(f: seq<string>, t: seq<string>)
    requires Names(f) && Names(t) && Moves(f, t) != []
    ensures Join(Moves(f, t), '/') != "" && Split(Join(Moves(f, t), '/'), '/') == Moves(f, t)
  {
    var m := Moves(f, t);
    forall p | p in m ensures p != "" && '/' !in p {
      if p !in Ups(|f| - Common(f, t)) {
        var i :| 0 <= i < |t| && t[i] == p;
      }
    }
    JoinedEmptyIff(m);
    SplitJoin(m, '/');
  }

  lemma StayingLeadsTo(dir: seq<string>)
    requires NoDots(dir)
    ensures Resolve(dir, ".") == Some(dir + [""])
  {
    UpIsDots();
    SplitWhole(".", '/');
    assert [] + dir == dir;
    RemoveDotsFrom(dir, ["."], []);
    assert ["."][1..] == [] && RemoveDots([], dir + [""]) == dir + [""];
  }

  lemma MovingLeadsTo(dir: seq<string>, ups: nat, down: seq<string>)
    requires NoDots(dir) && NoDots(down) && ups <= |dir| && Ups(ups) + down != []
    ensures RemoveDots(dir + (Ups(ups) + down), []) == dir[..|dir| - ups] + if down == [] then [""] else down
  {
    assert [] + dir == dir;
    RemoveDotsFrom(dir, Ups(ups) + down, []);
    UpThenDown(ups, down, dir);
  }

  /** The target goes down from the directory, by a name that reads as a scheme. */
  predicate SchemeDown(f: seq<string>, t: seq<string>)
  {
    f < t && HasScheme(t[|f|])
  }

  lemma MovesScheme(f: seq<string>, t: seq<string>)
    requires Names(f) && Names(t) && Moves(f, t) != []
    ensures HasScheme(Join(Moves(f, t), '/')) <==> SchemeDown(f, t)
  {
    var m, n := Moves(f, t), Common(f, t);
    CommonShared(f, t);
    SchemeFirst(m);
    if n < |f| {
      UpsFirst(|f| - n);
      assert m[0] == "..";
      if f <= t { CommonAllOf(f, t); }
    } else {
      assert f == f[..n] == t[..n] && m == t[n..];
    }
  }

  lemma {:induction false} CommonAllOf(f: seq<string>, t: seq<string>)
    requires f <= t
    ensures Common(f, t) == |f|
  {
    if f != [] {
      assert f[1..] <= t[1..];
      CommonAllOf(f[1..], t[1..]);
    }
  }

  lemma ResolveJoined(f: seq<string>, moves: seq<string>)
    requires Split(Join(moves, '/'), '/') == moves
    ensures Resolve(f, Join(moves, '/')) == if HasScheme(Join(moves, '/')) then None else Some(RemoveDots(f + moves, []))
  {
  }

  /** Where the answer leads: as many segments up as it says, whatever they are, and then down. */
  function Arrival(dir: seq<string>, f: seq<string>, t: seq<string>): seq<string>
    requires |f| <= |dir|
  {
    dir[..|dir| - (|f| - Common(f, t))] + if Common(f, t) == |t| then [""] else t[Common(f, t)..]
  }

  lemma MovingCase(dir: seq<string>, f: seq<string>, t: seq<string>)
    requires NoDots(dir) && Names(f) && Names(t) && |f| <= |dir| && Moves(f, t) != []
    ensures Resolve(dir, Join(Moves(f, t), '/')) == if SchemeDown(f, t) then None else Some(Arrival(dir, f, t))
  {
    MovesSplit(f, t);
    ResolveJoined(dir, Moves(f, t));
    MovesScheme(f, t);
    MovingLeadsTo(dir, |f| - Common(f, t), t[Common(f, t)..]);
  }

  lemma StayingCase(f: seq<string>, t: seq<string>)
    requires Moves(f, t) == []
    ensures f == t && Common(f, t) == |t|
  {
    CommonShared(f, t);
    assert f == f[..Common(f, t)] && t == t[..Common(f, t)];
  }

  /** From a directory whose segments but for empty ones are `f`. */
  lemma LeadsTo(dir: seq<string>, f: seq<string>, t: seq<string>, reference: string)
    requires NoDots(dir) && Names(f) && Names(t) && |f| <= |dir|
    requires reference == if Join(Moves(f, t), '/') == "" then "." else Join(Moves(f, t), '/')
    ensures Resolve(dir, reference) == if SchemeDown(f, t) then None else Some(Arrival(dir, f, t))
  {
    if Moves(f, t) == [] {
      StayingCase(f, t);
      StayingLeadsTo(dir);
      assert dir[..|dir|] == dir;
    } else {
      MovesSplit(f, t);
      MovingCase(dir, f, t);
    }
  }

  lemma {:induction false} SegmentsWhole(path: string)
    ensures "" !in SegmentsOf(path) && forall p | p in SegmentsOf(path) :: '/' !in p
  {
    SplitParts(path, '/');
    DropEmptyMembers(Split(path, '/'));
  }

  lemma {:induction false} DropEmptyMembers(parts: seq<string>)
    ensures "" !in DropEmpty(parts) && forall p | p in DropEmpty(parts) :: p in parts
  {
    if parts != [] {
      DropEmptyMembers(parts[1..]);
    }
  }

  // ---- empty segments ----

  lemma {:induction false} DropEmptySplit(a: seq<string>, b: seq<string>)
    ensures DropEmpty(a + b) == DropEmpty(a) + DropEmpty(b)
  {
    if a == [] {
      assert a + b == b;
    } else {
      assert (a + b)[1..] == a[1..] + b;
      DropEmptySplit(a[1..], b);
    }
  }

  lemma {:induction false} DropEmptySize(a: seq<string>)
    ensures |DropEmpty(a)| <= |a|
    ensures |DropEmpty(a)| == |a| <==> "" !in a
  {
    if a != [] {
      DropEmptySize(a[1..]);
      assert a == [a[0]] + a[1..];
    }
  }

  lemma {:induction false} CommonFrom(p: seq<string>, f: seq<string>, t: seq<string>)
    ensures Common(p + f, p + t) == |p| + Common(f, t)
  {
    if p == [] {
      assert p + f == f && p + t == t;
    } else {
      assert (p + f)[1..] == p[1..] + f && (p + t)[1..] == p[1..] + t;
      CommonFrom(p[1..], f, t);
    }
  }

  lemma {:induction false} CommonEnds(f: seq<string>, t: seq<string>)
    ensures Common(f, t) < |f| && Common(f, t) < |t| ==> f[Common(f, t)] != t[Common(f, t)]
  {
    if f != [] && t != [] && f[0] == t[0] { CommonEnds(f[1..], t[1..]); }
  }

  /** Two paths from where they part. */
  lemma Parting(d: seq<string>, t: seq<string>)
    ensures var k := Common(d, t); d == d[..k] + d[k..] && t == d[..k] + t[k..] && Common(d[k..], t[k..]) == 0
  {
    var k := Common(d, t);
    CommonShared(d, t);
    CommonEnds(d, t);
    assert t == t[..k] + t[k..];
  }

  /**
   The path leads from the directory to the target only without empty segments on the way: none is
   left behind going up, and none lies below, but for one that ends a target at or above the directory.
   */
  predicate Straight(dir: seq<string>, target: seq<string>)
  {
    var k := Common(dir, target);
    k < |target| && "" !in dir[k..] && ("" !in target[k..] || target[k..] == [""])
  }

  lemma StraightArrives(dir: seq<string>, target: seq<string>)
    requires Straight(dir, target)
    ensures |DropEmpty(dir)| <= |dir| && Arrival(dir, DropEmpty(dir), DropEmpty(target)) == target
    ensures SchemeDown(DropEmpty(dir), DropEmpty(target)) <==> dir < target && HasScheme(target[|dir|])
  {
    var k := Common(dir, target);
    var p, d, t := DropEmpty(dir[..k]), dir[k..], target[k..];
    Parting(dir, target);
    DropEmptySplit(dir[..k], d);
    DropEmptySplit(dir[..k], t);
    DropEmptyNone(d);
    DropEmptySize(dir);
    if t == [""] { assert t[1..] == [] && DropEmpty(t) == []; } else { DropEmptyNone(t); }
    CommonFrom(p, d, DropEmpty(t));
    CommonFrom(dir[..k], d, t);
    StraightCommon(d, t);
    assert Common(DropEmpty(dir), DropEmpty(target)) == |p|;
    assert dir[..|dir| - |d|] == dir[..k] && DropEmpty(target)[|p|..] == DropEmpty(t);
    StraightScheme(dir, target, p, d, t);
  }

  lemma StraightCommon(d: seq<string>, t: seq<string>)
    requires Common(d, t) == 0 && (t == [""] || "" !in t)
    ensures Common(d, DropEmpty(t)) == 0
  {
    if t == [""] { assert t[1..] == []; } else { DropEmptyNone(t); }
  }

  lemma StraightScheme(dir: seq<string>, target: seq<string>, p: seq<string>, d: seq<string>, t: seq<string>)
    requires Straight(dir, target) && d == dir[Common(dir, target)..] && t == target[Common(dir, target)..]
    requires DropEmpty(dir) == p + d && DropEmpty(target) == p + DropEmpty(t)
    ensures SchemeDown(DropEmpty(dir), DropEmpty(target)) <==> dir < target && HasScheme(target[|dir|])
  {
    var k := Common(dir, target);
    CommonShared(dir, target);
    if t == [""] { assert t[1..] == [] && DropEmpty(t) == []; } else { DropEmptyNone(t); }
    if d == [] {
      assert dir == dir[..k] == target[..k] && target[|dir|] == t[0] && p + d == p;
      if t != [""] { assert (p + t)[|p|] == t[0] && p < p + t; }
    } else {
      CommonEnds(dir, target);
      assert dir[k] == d[0] && target[k] == t[0] && !(dir <= target);
      assert !(p + d <= p + DropEmpty(t)) by {
        if DropEmpty(t) != [] { assert (p + d)[|p|] == d[0] && (p + DropEmpty(t))[|p|] == t[0]; }
      }
    }
  }

  /** If the answer arrives, the way was straight. */
  lemma ArrivesStraight(dir: seq<string>, target: seq<string>)
    requires target != [] && |DropEmpty(dir)| <= |dir| && Arrival(dir, DropEmpty(dir), DropEmpty(target)) == target
    ensures Straight(dir, target)
  {
    var f, t := DropEmpty(dir), DropEmpty(target);
    var n := Common(f, t);
    var front, back := dir[..|dir| - (|f| - n)], dir[|dir| - (|f| - n)..];
    var down := if n == |t| then [""] else t[n..];
    assert dir == front + back && target == front + down;
    DropEmptySplit(front, back);
    DropEmptySplit(front, down);
    DropEmptyMembers(target);
    forall s | s in t[n..] ensures s != "" { assert s in t; }
    if n == |t| { assert down[1..] == [] && DropEmpty(down) == []; } else { DropEmptyNone(down); }
    assert |DropEmpty(front)| == n by {
      assert |t| == |DropEmpty(front)| + |DropEmpty(down)|;
    }
    DropEmptySize(back);
    assert "" !in back;
    ArrivalCommon(front, back, down, f, t, n);
    CommonFrom(front, back, down);
    assert dir[|front|..] == back && target[|front|..] == down;
  }

  lemma ArrivalCommon(front: seq<string>, back: seq<string>, down: seq<string>, f: seq<string>, t: seq<string>, n: nat)
    requires "" !in back && n == Common(f, t) == |DropEmpty(front)| && f == DropEmpty(front) + DropEmpty(back)
    requires n <= |t| && down == if n == |t| then [""] else t[n..]
    ensures Common(back, down) == 0
  {
    DropEmptyNone(back);
    CommonEnds(f, t);
    if back != [] {
      assert back[0] in back && f[n] == back[0];
    }
  }

  /**
   Resolved in a directory, the relative path gives the target, for all paths without dot segments,
   exactly when the way is straight and does not go straight down by a name that reads as a scheme.
   */
  lemma ResolvesIff(dir: seq<string>, from: string, to: string)
    requires NoDots(dir) && NoDots(Split(to, '/')) && SegmentsOf(from) == DropEmpty(dir)
    ensures var target := Split(to, '/');
            Resolve(dir, Relative(from, to)) == Some(target)
            <==> Straight(dir, target) && !(dir < target && HasScheme(target[|dir|]))
  {
    var f, t, target := SegmentsOf(from), SegmentsOf(to), Split(to, '/');
    SegmentsWhole(from);
    SegmentsWhole(to);
    DropEmptyMembers(dir);
    DropEmptyMembers(target);
    DropEmptySize(dir);
    NamesOf(dir, f);
    NamesOf(target, t);
    LeadsTo(dir, f, t, Relative(from, to));
    if Straight(dir, target) {
      StraightArrives(dir, target);
    } else if !SchemeDown(f, t) && Arrival(dir, f, t) == target {
      ArrivesStraight(dir, target);
    }
  }

  lemma NamesOf(path: seq<string>, names: seq<string>)
    requires NoDots(path) && (forall p | p in names :: p in path && p != "" && '/' !in p)
    ensures Names(names)
  {
    forall i | 0 <= i < |names| ensures names[i] != "" && '/' !in names[i] && !SingleDot(names[i]) && !DoubleDot(names[i]) {
      assert names[i] in names;
      var j :| 0 <= j < |path| && path[j] == names[i];
    }
  }

  /** The segments of a directory given as a string; the empty string is the top. */
  function DirSegments(from: string): seq<string> { if from == "" then [] else Split(from, '/') }

  /** `getRelativePath(from, to)`, resolved in the directory `from`, is `to` exactly under that condition. */
  lemma RelativePathResolvesIff(from: string, to: string)
    requires NoDots(DirSegments(from)) && NoDots(Split(to, '/'))
    ensures var dir, target := DirSegments(from), Split(to, '/');
            Resolve(dir, Relative(from, to)) == Some(target)
            <==> Straight(dir, target) && !(dir < target && HasScheme(target[|dir|]))
  {
    if from == "" { assert Split("", '/') == [""] && [""][1..] == []; }
    ResolvesIff(DirSegments(from), from, to);
  }

  /** From the top, the file `a:b` is referred to as `a:b`, which is a URL of scheme `a`. */
  lemma ColonReadsAsScheme()
    ensures SegmentsOf("") == [] && SegmentsOf("a:b") == ["a:b"]
    ensures Relative("", "a:b") == "a:b" && Resolve([], "a:b") == None
  {
    assert DropEmpty([""]) == [] by { assert [""][1..] == []; }
    SplitWhole("a:b", '/');
    DropEmptyNone(["a:b"]);
    assert Moves([], ["a:b"]) == ["a:b"];
    assert "a:b"[1..] == ":b";
  }

  /** The directory of a style sheet, as `rewriteCssUrls` takes it. */
  function CssDir(cssPath: string): string
  {
    var parts := Split(cssPath, '/');
    Join(parts[..|parts| - 1], '/')
  }

  /** The directory a browser resolves in: the segments of the style sheet but for the last. */
  function SheetDir(cssPath: string): seq<string>
  {
    Split(cssPath, '/')[..|Split(cssPath, '/')| - 1]
  }

  /**
   The reference put into a style sheet leads from it to the file that is meant, for all paths
   without dot segments, exactly under that condition on the directory of the sheet and the file.
   */
  lemma CssReferenceResolves(cssPath: string, to: string)
    requires NoDots(Split(cssPath, '/')) && NoDots(Split(to, '/'))
    ensures var dir, target := SheetDir(cssPath), Split(to, '/');
            Resolve(dir, Relative(CssDir(cssPath), to)) == Some(target)
            <==> Straight(dir, target) && !(dir < target && HasScheme(target[|dir|]))
  {
    var parts, dir := Split(cssPath, '/'), SheetDir(cssPath);
    SplitParts(cssPath, '/');
    assert forall p | p in dir :: p in parts;
    if dir == [] {
      assert Split("", '/') == [""] && [""][1..] == [];
    } else {
      SplitJoin(dir, '/');
    }
    assert NoDots(dir) by { assert forall i | 0 <= i < |dir| :: dir[i] == parts[i]; }
    ResolvesIff(dir, CssDir(cssPath), to);
  }

  lemma SplitOf3(a: string, b: string, c: string)
    requires '/' !in a && '/' !in b && '/' !in c && a != "" && c != ""
    ensures Split(a + "/" + b + "/" + c, '/') == [a, b, c]
    ensures b == "" ==> DropEmpty([a, b, c]) == [a, c]
  {
    SplitCons(a, b + "/" + c, '/');
    SplitCons(b, c, '/');
    SplitWhole(c, '/');
    assert a + "/" + b + "/" + c == a + ['/'] + (b + "/" + c) && b + "/" + c == b + ['/'] + c;
    assert [a] + ([b] + [c]) == [a, b, c];
    assert [a, b, c][1..] == [b, c] && [b, c][1..] == [c] && [c][1..] == [];
    assert DropEmpty([c]) == [c] && [a] + [c] == [a, c];
  }

  /** The answer, for the segments that are not empty. */
  lemma AnswerLeads(dir: seq<string>, f: seq<string>, t: seq<string>, from: string, to: string)
    requires SegmentsOf(from) == f && SegmentsOf(to) == t && NoDots(dir) && Names(f) && Names(t) && |f| <= |dir| && !SchemeDown(f, t)
    ensures Resolve(dir, Relative(from, to)) == Some(Arrival(dir, f, t))
  {
    LeadsTo(dir, f, t, Relative(from, to));
  }

  lemma SplitUp()
    ensures DirSegments("x//y") == ["x", "", "y"] && Split("c", '/') == ["c"]
    ensures SegmentsOf("x//y") == ["x", "y"] && SegmentsOf("c") == ["c"]
  {
    SplitOf3("x", "", "y");
    assert "x" + "/" + "" + "/" + "y" == "x//y";
    SplitWhole("c", '/');
    DropEmptyNone(["c"]);
  }

  /** Going up from `x//y` counts two segments where there are three: the file `c` is looked for in `x`. */
  lemma EmptySegmentMisleadsUp()
    ensures DirSegments("x//y") == ["x", "", "y"] && Split("c", '/') == ["c"]
    ensures Resolve(["x", "", "y"], Relative("x//y", "c")) == Some(["x", "c"])
  {
    SplitUp();
    var dir, f, t := ["x", "", "y"], ["x", "y"], ["c"];
    assert Common(f, t) == 0;
    AnswerLeads(dir, f, t, "x//y", "c");
    assert dir[..1] + t == ["x", "c"] && t[0..] == t;
  }

  /** The file `a//b` is referred to as `a/b`. */
  lemma EmptySegmentMisleadsDown()
    ensures Split("a//b", '/') == ["a", "", "b"] && Resolve([], Relative("", "a//b")) == Some(["a", "b"])
  {
    SplitOf3("a", "", "b");
    assert "a" + "/" + "" + "/" + "b" == "a//b";
    assert SegmentsOf("") == [] by { assert [""][1..] == []; }
    var none: seq<string>, t := [], ["a", "b"];
    assert Common(none, t) == 0;
    assert !SchemeDown(none, t);
    AnswerLeads(none, none, t, "", "a//b");
    assert none[..0] + t == t && t[0..] == t;
  }

  // ---- and no shorter way does ----

  /** Walking up and down from directory `at`; `..` at the root stays there. */
  function Walk(at: seq<string>, moves: seq<string>): seq<string>
    decreases |moves|
  {
    if moves == [] then at
    else Walk(if moves[0] != ".." then at + [moves[0]] else if at == [] then [] else at[..|at| - 1], moves[1..])
  }

  function Distance(f: seq<string>, t: seq<string>): nat { |f| + |t| - 2 * Common(f, t) }

  lemma {:induction false} CommonUp(f: seq<string>, t: seq<string>)
    requires f != []
    ensures var g := f[..|f| - 1]; Common(g, t) == if Common(f, t) == |f| then |f| - 1 else Common(f, t)
  {
    var g := f[..|f| - 1];
    if t != [] && f[0] == t[0] && |f| > 1 {
      CommonUp(f[1..], t[1..]);
      assert g[1..] == f[1..][..|f| - 2];
    }
  }

  lemma DistanceUp(f: seq<string>, t: seq<string>)
    requires f != []
    ensures Distance(f[..|f| - 1], t) >= Distance(f, t) - 1
  {
    CommonUp(f, t);
  }

  lemma DistanceDown(f: seq<string>, t: seq<string>, name: string)
    ensures Distance(f + [name], t) >= Distance(f, t) - 1
  {
    CommonUp(f + [name], t);
    assert (f + [name])[..|f|] == f;
  }

  /** Any moves that lead from `f` to `t` are at least as many as the segments between them. */
  lemma {:induction false} NoShorterWalk(f: seq<string>, t: seq<string>, moves: seq<string>)
    requires Walk(f, moves) == t
    ensures |moves| >= Distance(f, t)
    decreases |moves|
  {
    if moves == [] {
      CommonSelf(t);
    } else {
      var g := if moves[0] != ".." then f + [moves[0]] else if f == [] then [] else f[..|f| - 1];
      NoShorterWalk(g, t, moves[1..]);
      if moves[0] != ".." { DistanceDown(f, t, moves[0]); } else if f != [] { DistanceUp(f, t); }
    }
  }

  lemma {:induction false} CommonSelf(t: seq<string>)
    ensures Common(t, t) == |t|
  {
    if t != [] { CommonSelf(t[1..]); }
  }

  lemma {:induction false} WalkDown(at: seq<string>, names: seq<string>)
    requires forall i | 0 <= i < |names| :: names[i] != ".."
    ensures Walk(at, names) == at + names
    decreases |names|
  {
    if names == [] {
      assert at + names == at;
    } else {
      WalkDown(at + [names[0]], names[1..]);
      assert at + [names[0]] + names[1..] == at + names;
    }
  }

  lemma {:induction false} WalkUpDown(at: seq<string>, n: nat, names: seq<string>)
    requires n <= |at| && forall i | 0 <= i < |names| :: names[i] != ".."
    ensures Walk(at, Ups(n) + names) == at[..|at| - n] + names
    decreases n
  {
    if n == 0 {
      assert Ups(0) + names == names && at[..|at|] == at;
      WalkDown(at, names);
    } else {
      UpsFirst(n);
      var up := Ups(n) + names;
      assert up[1..] == Ups(n - 1) + names && up[0] == "..";
      WalkUpDown(at[..|at| - 1], n - 1, names);
      assert at[..|at| - 1][..|at| - 1 - (n - 1)] == at[..|at| - n];
    }
  }

  /** The moves of the answer lead there, and no shorter series of `..` and names does. */
  lemma MovesAreShortest(f: seq<string>, t: seq<string>, moves: seq<string>)
    requires ".." !in t
    ensures Walk(f, Moves(f, t)) == t
    ensures Walk(f, moves) == t ==> |moves| >= |Moves(f, t)|
  {
    var n := Common(f, t);
    CommonShared(f, t);
    forall i | 0 <= i < |t[n..]| ensures t[n..][i] != ".." {
      assert t[n + i] in t;
    }
    WalkUpDown(f, |f| - n, t[n..]);
    assert f[..n] + t[n..] == t;
    if Walk(f, moves) == t { NoShorterWalk(f, t, moves); }
  }
}
