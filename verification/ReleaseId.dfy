/**
 Release ids: made from a tag or title, then made different from every existing id.

 The clock and the random-looking suffix taken from it are parameters.
 */
module ReleaseId {
  import opened Text
  import opened Wrappers

  // ---- cleaning up a title ----

  predicate Word(c: char) { 'a' <= c <= 'z' || 'A' <= c <= 'Z' || '0' <= c <= '9' || c == '_' }

  predicate Safe(c: char) { Word(c) || c == '.' || c == '-' }

  predicate Edge(c: char) { c == '-' || c == '.' }

  /** White space, as `trim` takes it. */
  predicate Space(c: char)
  {
    var n := c as int;
    9 <= n <= 13 || n == 0x20 || n == 0xA0 || n == 0x1680 || 0x2000 <= n <= 0x200A
    || n in {0x2028, 0x2029, 0x202F, 0x205F, 0x3000, 0xFEFF}
  }

  function TrimStart(s: string, drop: char -> bool): (r: string)
    ensures |r| <= |s|
  {
    if s != "" && drop(s[0]) then TrimStart(s[1..], drop) else s
  }

  function TrimEnd(s: string, drop: char -> bool): (r: string)
    ensures |r| <= |s|
  {
    if s != "" && drop(s[|s| - 1]) then TrimEnd(s[..|s| - 1], drop) else s
  }

  function TrimEnds(s: string, drop: char -> bool): string { TrimEnd(TrimStart(s, drop), drop) }

  function SlashesToDashes(s: string): string
  {
    if s == "" then "" else [if s[0] == '/' || s[0] == '\\' then '-' else s[0]] + SlashesToDashes(s[1..])
  }

  /** Each run of characters that are not safe becomes one dash; `inRun` says that one has begun. */
  function RunsToDashes(s: string, inRun: bool): string
  {
    if s == "" then ""
    else if Safe(s[0]) then [s[0]] + RunsToDashes(s[1..], false)
    else (if inRun then "" else "-") + RunsToDashes(s[1..], true)
  }

  /** Each run of dashes becomes one; `inRun` says that one has begun. */
  function OneDash(s: string, inRun: bool): string
  {
    if s == "" then ""
    else if s[0] == '-' then (if inRun then "" else "-") + OneDash(s[1..], true)
    else [s[0]] + OneDash(s[1..], false)
  }

  function Cut(s: string): string { if |s| > 80 then s[..80] else s }

  /** The replacements, before the length is cut. */
  function Cleaned(s: string): string
  {
    TrimEnds(OneDash(RunsToDashes(SlashesToDashes(s), false), false), Edge)
  }

  /** `sanitizeReleaseId`. */
  function Sanitize(input: string): string
  {
    var trimmed := TrimEnds(input, Space);
    if trimmed == "" then "" else Cut(Cleaned(trimmed))
  }

  // ---- the words of a title ----

  function Flushed(word: string): seq<string> { if word == "" then [] else [word] }

  /** The runs of letters, digits and underscores, in order; `word` is the run that has begun. */
  function Words(s: string, word: string): seq<string>
    decreases |s|
  {
    if s == "" then Flushed(word)
    else if Word(s[0]) then Words(s[1..], word + [s[0]])
    else Flushed(word) + Words(s[1..], "")
  }

  lemma {:induction false} SlashesSameWords(s: string, word: string)
    ensures Words(SlashesToDashes(s), word) == Words(s, word)
    decreases |s|
  {
    if s != "" {
      assert SlashesToDashes(s)[1..] == SlashesToDashes(s[1..]);
      SlashesSameWords(s[1..], if Word(s[0]) then word + [s[0]] else "");
    }
  }

  lemma {:induction false} RunsSameWords(s: string, inRun: bool, word: string)
    requires inRun ==> word == ""
    ensures Words(RunsToDashes(s, inRun), word) == Words(s, word)
    decreases |s|
  {
    if s != "" {
      var rest := RunsToDashes(s[1..], !Safe(s[0]));
      assert ([s[0]] + rest)[1..] == rest && ("-" + rest)[1..] == rest && "" + rest == rest;
      RunsSameWords(s[1..], !Safe(s[0]), if Word(s[0]) then word + [s[0]] else "");
    }
  }

  lemma {:induction false} DashesSameWords(s: string, inRun: bool, word: string)
    requires inRun ==> word == ""
    ensures Words(OneDash(s, inRun), word) == Words(s, word)
    decreases |s|
  {
    if s != "" {
      var rest := OneDash(s[1..], s[0] == '-');
      assert ([s[0]] + rest)[1..] == rest && ("-" + rest)[1..] == rest && "" + rest == rest;
      DashesSameWords(s[1..], s[0] == '-', if Word(s[0]) then word + [s[0]] else "");
    }
  }

  lemma {:induction false} WordsThen(s: string, c: char, word: string)
    requires !Word(c)
    ensures Words(s + [c], word) == Words(s, word)
    decreases |s|
  {
    if s == "" {
      assert s + [c] == [c] && [c][1..] == "";
    } else {
      assert (s + [c])[1..] == s[1..] + [c];
      WordsThen(s[1..], c, if Word(s[0]) then word + [s[0]] else "");
    }
  }

  ghost predicate NoWord(drop: char -> bool) { forall c | drop(c) :: !Word(c) }

  lemma {:induction false} TrimStartKeepsWords(s: string, drop: char -> bool)
    requires NoWord(drop)
    ensures Words(TrimStart(s, drop), "") == Words(s, "")
    decreases |s|
  {
    if s != "" && drop(s[0]) { TrimStartKeepsWords(s[1..], drop); }
  }

  lemma {:induction false} TrimEndKeepsWords(s: string, drop: char -> bool)
    requires NoWord(drop)
    ensures Words(TrimEnd(s, drop), "") == Words(s, "")
    decreases |s|
  {
    if s != "" && drop(s[|s| - 1]) {
      var n := |s| - 1;
      assert s == s[..n] + [s[n]];
      WordsThen(s[..n], s[n], "");
      TrimEndKeepsWords(s[..n], drop);
    }
  }

  lemma TrimKeepsWords(s: string, drop: char -> bool)
    requires NoWord(drop)
    ensures Words(TrimEnds(s, drop), "") == Words(s, "")
  {
    TrimStartKeepsWords(s, drop);
    TrimEndKeepsWords(TrimStart(s, drop), drop);
  }

  lemma {:induction false} WordsCut(s: string, n: nat, word: string)
    requires n <= |s|
    ensures var w, cut := Words(s, word), Words(s[..n], word);
            |cut| <= |w| && forall i | 0 <= i < |cut| :: if i < |cut| - 1 then cut[i] == w[i] else cut[i] <= w[i]
    decreases |s|
  {
    if s == "" || n == 0 {
      WordsStart(s, word);
      assert s[..n] == "";
    } else {
      assert s[..n][1..] == s[1..][..n - 1];
      WordsCut(s[1..], n - 1, if Word(s[0]) then word + [s[0]] else "");
    }
  }

  /** The run that has begun goes on in the first word. */
  lemma {:induction false} WordsStart(s: string, word: string)
    ensures word != "" ==> |Words(s, word)| > 0 && word <= Words(s, word)[0]
    decreases |s|
  {
    if s != "" && Word(s[0]) { WordsStart(s[1..], word + [s[0]]); }
  }

  /**
   The words of a title are kept, in order; a title that is too long loses words from the end, the
   last one kept perhaps in part.
   */
  lemma WordsKept(input: string)
    ensures var w, kept := Words(input, ""), Words(Sanitize(input), "");
            && |kept| <= |w|
            && (forall i | 0 <= i < |kept| :: if i < |kept| - 1 then kept[i] == w[i] else kept[i] <= w[i])
            && (|Cleaned(TrimEnds(input, Space))| <= 80 ==> kept == w)
  {
    var trimmed := TrimEnds(input, Space);
    var slashed := SlashesToDashes(trimmed);
    var runs := RunsToDashes(slashed, false);
    TrimKeepsWords(input, Space);
    SlashesSameWords(trimmed, "");
    RunsSameWords(slashed, false, "");
    DashesSameWords(runs, false, "");
    TrimKeepsWords(OneDash(runs, false), Edge);
    var cleaned := Cleaned(trimmed);
    if |cleaned| > 80 { WordsCut(cleaned, 80, ""); }
  }

  // ---- what is left ----

  predicate AllSafe(s: string) { forall i | 0 <= i < |s| :: Safe(s[i]) }

  predicate NoDoubleDash(s: string) { forall i | 0 <= i < |s| - 1 :: !(s[i] == '-' && s[i + 1] == '-') }

  lemma {:induction false} RunsSafe(s: string, inRun: bool)
    ensures AllSafe(RunsToDashes(s, inRun))
  {
    if s != "" { RunsSafe(s[1..], !Safe(s[0])); }
  }

  lemma {:induction false} OneDashKeeps(s: string, inRun: bool)
    requires AllSafe(s)
    ensures AllSafe(OneDash(s, inRun)) && NoDoubleDash(OneDash(s, inRun))
    ensures inRun && OneDash(s, inRun) != "" ==> OneDash(s, inRun)[0] != '-'
  {
    if s != "" {
      var rest := OneDash(s[1..], s[0] == '-');
      OneDashKeeps(s[1..], s[0] == '-');
      if s[0] == '-' && inRun {
        assert OneDash(s, inRun) == rest;
      } else {
        var r := OneDash(s, inRun);
        assert r == [r[0]] + rest;
      }
    }
  }

  lemma {:induction false} TrimStartPart(s: string, drop: char -> bool)
    ensures var r := TrimStart(s, drop); r == s[|s| - |r|..] && (r != "" ==> !drop(r[0]))
  {
    if s != "" && drop(s[0]) {
      TrimStartPart(s[1..], drop);
    }
  }

  lemma {:induction false} TrimEndPart(s: string, drop: char -> bool)
    ensures var r := TrimEnd(s, drop); r == s[..|r|] && (r != "" ==> !drop(r[|r| - 1]))
  {
    if s != "" && drop(s[|s| - 1]) {
      TrimEndPart(s[..|s| - 1], drop);
    }
  }

  /** Trimming takes a piece out of the middle; its ends are not dropped characters. */
  lemma TrimEndsPart(s: string, drop: char -> bool) returns (i: nat, j: nat)
    ensures i <= j <= |s| && TrimEnds(s, drop) == s[i..j]
    ensures i < j ==> !drop(s[i]) && !drop(s[j - 1])
  {
    var t := TrimStart(s, drop);
    var r := TrimEnd(t, drop);
    TrimStartPart(s, drop);
    TrimEndPart(t, drop);
    i := |s| - |t|;
    j := i + |r|;
    assert r == t[..|r|] == s[i..][..|r|] == s[i..j];
  }

  /** No dropped character at either end: nothing is trimmed. */
  lemma NothingTrimmed(s: string, drop: char -> bool)
    requires s != "" ==> !drop(s[0]) && !drop(s[|s| - 1])
    ensures TrimEnds(s, drop) == s
  {
  }

  /** The shape of a cleaned id, but for how it ends. */
  predicate Shape(s: string)
  {
    AllSafe(s) && NoDoubleDash(s) && |s| <= 80 && (s != "" ==> !Edge(s[0]))
  }

  lemma CleanedShape(s: string)
    ensures var c := Cleaned(s); AllSafe(c) && NoDoubleDash(c) && (c != "" ==> !Edge(c[0]) && !Edge(c[|c| - 1]))
  {
    var runs := RunsToDashes(SlashesToDashes(s), false);
    RunsSafe(SlashesToDashes(s), false);
    OneDashKeeps(runs, false);
    var dashed := OneDash(runs, false);
    var i, j := TrimEndsPart(dashed, Edge);
    assert forall k | 0 <= k < j - i :: dashed[i..j][k] == dashed[i + k];
  }

  /** Every result is short, made of the safe alphabet, without double dashes, and does not start with `.` or `-`. */
  lemma SanitizedShape(input: string)
    ensures Shape(Sanitize(input))
  {
    var trimmed := TrimEnds(input, Space);
    if trimmed != "" {
      CleanedShape(trimmed);
    }
  }

  // ---- when nothing changes ----

  lemma {:induction false} SafeStays(s: string, inRun: bool)
    requires AllSafe(s)
    ensures SlashesToDashes(s) == s && RunsToDashes(s, inRun) == s
  {
    if s != "" {
      SafeStays(s[1..], false);
      assert [s[0]] + s[1..] == s;
    }
  }

  lemma {:induction false} SingleDashesStay(s: string, inRun: bool)
    requires NoDoubleDash(s) && (inRun && s != "" ==> s[0] != '-')
    ensures OneDash(s, inRun) == s
  {
    if s != "" {
      if |s| > 1 && s[0] == '-' { assert s[1] != '-'; }
      var t := s[1..];
      forall i | 0 <= i < |t| - 1 ensures !(t[i] == '-' && t[i + 1] == '-') {
        assert !(s[i + 1] == '-' && s[i + 2] == '-');
      }
      SingleDashesStay(s[1..], s[0] == '-');
      assert [s[0]] + s[1..] == s;
    }
  }

  /** A string is left as it is exactly when it has the shape and does not end with `.` or `-`. */
  lemma UnchangedIff(s: string)
    ensures Sanitize(s) == s <==> Shape(s) && (s != "" ==> !Edge(s[|s| - 1]))
  {
    if Shape(s) && (s != "" ==> !Edge(s[|s| - 1])) {
      if s != "" { assert Safe(s[0]) && Safe(s[|s| - 1]); }
      NothingTrimmed(s, Space);
      SafeStays(s, false);
      SingleDashesStay(s, false);
      NothingTrimmed(s, Edge);
    } else if Sanitize(s) == s {
      SanitizedShape(s);
      UnchangedEnd(s);
    }
  }

  lemma UnchangedEnd(s: string)
    requires s != "" && Sanitize(s) == s && Shape(s)
    ensures !Edge(s[|s| - 1])
  {
    assert Safe(s[0]) && Safe(s[|s| - 1]);
    NothingTrimmed(s, Space);
    SafeStays(s, false);
    SingleDashesStay(s, false);
    CleanedShape(s);
    assert |Cleaned(s)| <= |s|;
    assert Cleaned(s) == s;
  }

  /** Sanitizing twice is sanitizing once, exactly when the cut at 80 characters does not fall behind `.` or `-`. */
  lemma SanitizeTwiceIff(input: string)
    ensures var c := Cleaned(TrimEnds(input, Space));
            Sanitize(Sanitize(input)) == Sanitize(input) <==> |c| <= 80 || !Edge(c[79])
  {
    SanitizedShape(input);
    UnchangedIff(Sanitize(input));
    CleanedShape(TrimEnds(input, Space));
  }

  /** A title of 79 letters, a dash and one more letter is cut behind the dash; the second time the dash goes. */
  lemma CutLeavesDash()
    ensures var letters := seq(79, _ => 'a');
            Sanitize(letters + "-b") == letters + "-" && Sanitize(letters + "-") == letters
  {
    var letters := seq(79, _ => 'a');
    var long, cut := letters + "-b", letters + "-";
    NothingTrimmed(long, Space);
    SafeStays(long, false);
    SingleDashesStay(long, false);
    NothingTrimmed(long, Edge);
    assert long[..80] == cut;
    NothingTrimmed(cut, Space);
    SafeStays(cut, false);
    SingleDashesStay(cut, false);
    assert !Edge(cut[0]) && cut[..79] == letters;
    assert TrimEnd(cut, Edge) == TrimEnd(letters, Edge) == letters;
    UnchangedIff(letters);
  }

  // ---- when something is left ----

  predicate HasWord(s: string) { exists i :: 0 <= i < |s| && Word(s[i]) }

  lemma {:induction false} SlashesKeepWords(s: string)
    ensures HasWord(SlashesToDashes(s)) <==> HasWord(s)
  {
    if s != "" {
      SlashesKeepWords(s[1..]);
      HasWordCons(s);
      HasWordCons(SlashesToDashes(s));
      assert SlashesToDashes(s)[1..] == SlashesToDashes(s[1..]);
    }
  }

  lemma HasWordCons(s: string)
    requires s != ""
    ensures HasWord(s) <==> Word(s[0]) || HasWord(s[1..])
  {
    if HasWord(s[1..]) {
      var i :| 0 <= i < |s[1..]| && Word(s[1..][i]);
      assert Word(s[i + 1]);
    }
    if i :| 0 <= i < |s| && Word(s[i]) {
      if i > 0 { assert Word(s[1..][i - 1]); }
    }
  }

  lemma {:induction false} RunsKeepWords(s: string, inRun: bool)
    ensures HasWord(RunsToDashes(s, inRun)) <==> HasWord(s)
  {
    if s != "" {
      var rest := RunsToDashes(s[1..], !Safe(s[0]));
      RunsKeepWords(s[1..], !Safe(s[0]));
      HasWordCons(s);
      var r := RunsToDashes(s, inRun);
      if r != rest {
        assert r == [r[0]] + rest;
        HasWordCons(r);
      }
    }
  }

  lemma {:induction false} OneDashKeepsWords(s: string, inRun: bool)
    ensures HasWord(OneDash(s, inRun)) <==> HasWord(s)
  {
    if s != "" {
      var rest := OneDash(s[1..], s[0] == '-');
      OneDashKeepsWords(s[1..], s[0] == '-');
      HasWordCons(s);
      var r := OneDash(s, inRun);
      if r != rest {
        assert r == [r[0]] + rest;
        HasWordCons(r);
      }
    }
  }

  lemma {:induction false} TrimStartKeeps(s: string, drop: char -> bool)
    requires forall c :: drop(c) ==> !Word(c)
    ensures HasWord(TrimStart(s, drop)) <==> HasWord(s)
  {
    if s != "" && drop(s[0]) {
      TrimStartKeeps(s[1..], drop);
      HasWordCons(s);
    }
  }

  lemma {:induction false} TrimEndKeeps(s: string, drop: char -> bool)
    requires forall c :: drop(c) ==> !Word(c)
    ensures HasWord(TrimEnd(s, drop)) <==> HasWord(s)
  {
    if s != "" && drop(s[|s| - 1]) {
      TrimEndKeeps(s[..|s| - 1], drop);
      var t := s[..|s| - 1];
      assert HasWord(s) <==> HasWord(t) by {
        if i :| 0 <= i < |s| && Word(s[i]) { assert Word(t[i]); }
        if i :| 0 <= i < |t| && Word(t[i]) { assert Word(s[i]); }
      }
    }
  }

  lemma CleanedKeepsWords(s: string)
    ensures HasWord(Cleaned(s)) <==> HasWord(s)
    ensures Cleaned(s) != "" <==> HasWord(s)
  {
    var slashes := SlashesToDashes(s);
    var runs := RunsToDashes(slashes, false);
    var dashed := OneDash(runs, false);
    SlashesKeepWords(s);
    RunsKeepWords(slashes, false);
    OneDashKeepsWords(runs, false);
    TrimStartKeeps(dashed, Edge);
    TrimEndKeeps(TrimStart(dashed, Edge), Edge);
    CleanedShape(s);
    if Cleaned(s) != "" { assert Word(Cleaned(s)[0]); }
  }

  /** Something is left of a title exactly when it has a letter, a digit or an underscore. */
  lemma SanitizedEmptyIff(input: string)
    ensures Sanitize(input) == "" <==> !HasWord(input)
  {
    TrimStartKeeps(input, Space);
    TrimEndKeeps(TrimStart(input, Space), Space);
    var trimmed := TrimEnds(input, Space);
    CleanedKeepsWords(trimmed);
    if trimmed == "" { assert !HasWord(trimmed); }
  }

  // ---- a new id ----

  function Numbered(base: string, i: nat): string { base + "-" + Decimal(i) }

  lemma NumberedInjective(base: string, i: nat, j: nat)
    requires Numbered(base, i) == Numbered(base, j)
    ensures i == j
  {
    assert Decimal(i) == Numbered(base, i)[|base| + 1..] && Decimal(j) == Numbered(base, j)[|base| + 1..];
    DecimalInjective(i, j);
  }

  /** The numbered names below `i`. */
  function Tried(base: string, i: nat): set<string>
    requires i >= 2
    decreases i
  {
    if i == 2 then {} else Tried(base, i - 1) + {Numbered(base, i - 1)}
  }

  lemma {:induction false} TriedAre(base: string, i: nat, j: nat)
    requires i >= 2 && Numbered(base, j) in Tried(base, i)
    ensures j < i
    decreases i
  {
    if i > 2 {
      if Numbered(base, j) == Numbered(base, i - 1) {
        NumberedInjective(base, j, i - 1);
      } else {
        TriedAre(base, i - 1, j);
      }
    }
  }

  /** They are all different, so there are `i - 2` of them. */
  lemma {:induction false} TriedCount(base: string, i: nat)
    requires i >= 2
    ensures |Tried(base, i)| == i - 2
    decreases i
  {
    if i > 2 {
      TriedCount(base, i - 1);
      if Numbered(base, i - 1) in Tried(base, i - 1) { TriedAre(base, i - 1, i - 1); }
    }
  }

  lemma SubsetCount(a: set<string>, b: set<string>)
    requires a <= b
    ensures |a| <= |b|
  {
    assert b == a + (b - a);
  }

  /**
   `ensureUniqueReleaseId`: the base, the base with the suffix, or the base with the least number
   from 2 that is free. The search ends because the names it tries are all different.
   */
  method EnsureUniqueReleaseId(base: string, existing: set<string>, suffix: string) returns (id: string)
    ensures id !in existing
    ensures base !in existing ==> id == base
    ensures base in existing && base + "-" + suffix !in existing ==> id == base + "-" + suffix
    ensures base in existing && base + "-" + suffix in existing ==>
              exists i: nat :: 2 <= i <= |existing| + 2 && id == Numbered(base, i) && forall j: nat | 2 <= j < i :: Numbered(base, j) in existing
  {
    if base !in existing { return base; }
    var candidate := base + "-" + suffix;
    if candidate !in existing { return candidate; }
    var i: nat := 2;
    TriedCount(base, i);
    while Numbered(base, i) in existing
      invariant 2 <= i <= |existing| + 2
      invariant Tried(base, i) <= existing
      invariant forall j: nat | 2 <= j < i :: Numbered(base, j) in existing
      decreases |existing| + 2 - i
    {
      TriedCount(base, i + 1);
      SubsetCount(Tried(base, i + 1), existing);
      i := i + 1;
    }
    id := Numbered(base, i);
  }

  /** Fit to be a directory name: one path segment, not hidden, not an option. */
  predicate Good(id: string)
  {
    AllSafe(id) && id != "" && !Edge(id[0])
  }

  lemma GoodIsSegment(id: string)
    requires Good(id)
    ensures '/' !in id && '\\' !in id && id != "." && id != ".." && Split(id, '/') == [id]
  {
    assert forall c | c in id :: Safe(c);
    assert !Safe('/') && !Safe('\\');
    SplitWhole(id, '/');
  }

  lemma GoodWithSuffix(base: string, suffix: string)
    requires Good(base) && forall c | c in suffix :: Word(c)
    ensures Good(base + "-" + suffix)
  {
    var id := base + "-" + suffix;
    assert id[0] == base[0];
    forall i | 0 <= i < |id| ensures Safe(id[i]) {
      if i > |base| { assert id[i] == suffix[i - |base| - 1] && suffix[i - |base| - 1] in suffix; }
    }
  }

  /**
   The id of a new release: from the tag, or the title, or the clock. `now` is a time in digits and
   `suffix` a piece of it in base 36.
   */
  method NewReleaseId(tag: Option<string>, title: string, existing: set<string>, now: nat, suffix: string) returns (id: string)
    requires forall c | c in suffix :: Word(c)
    ensures id !in existing && Good(id)
    ensures var s := Sanitize(if tag.Some? then tag.value else title);
            && (s != "" && s !in existing ==> id == s)
            && (s == "" && "release-" + Decimal(now) !in existing ==> id == "release-" + Decimal(now))
  {
    var base := Sanitize(if tag.Some? then tag.value else title);
    SanitizedShape(if tag.Some? then tag.value else title);
    if base == "" {
      base := "release-" + Decimal(now);
      assert base == "release" + "-" + Decimal(now);
      GoodWithSuffix("release", Decimal(now));
    }
    id := EnsureUniqueReleaseId(base, existing, suffix);
    GoodWithSuffix(base, suffix);
    if base in existing && base + "-" + suffix in existing {
      var i: nat :| 2 <= i <= |existing| + 2 && id == Numbered(base, i);
      GoodWithSuffix(base, Decimal(i));
    }
  }
}
