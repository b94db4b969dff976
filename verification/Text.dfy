/**
 String operations that the modelled files take from the JavaScript library:
 splitting and joining on a one-character separator, and decimal numerals.
 */
module Text {

  /** `s.split(sep)` for a one-character separator: never an empty list. */
  function Split(s: string, sep: char): (parts: seq<string>)
    ensures |parts| >= 1
  {
    if s == "" then [""]
    else if s[0] == sep then [""] + Split(s[1..], sep)
    else
      var rest := Split(s[1..], sep);
      [[s[0]] + rest[0]] + rest[1..]
  }

  /** `parts.join(sep)`. */
  function Join(parts: seq<string>, sep: char): string
  {
    if |parts| == 0 then ""
    else if |parts| == 1 then parts[0]
    else parts[0] + [sep] + Join(parts[1..], sep)
  }

  lemma {:induction false} SplitParts(s: string, sep: char)
    ensures forall p | p in Split(s, sep) :: sep !in p
  {
    if s != "" {
      SplitParts(s[1..], sep);
      var rest := Split(s[1..], sep);
      assert rest[0] in rest;
      assert forall p | p in rest[1..] :: p in rest;
    }
  }

  lemma {:induction false} JoinSplit(s: string, sep: char)
    ensures Join(Split(s, sep), sep) == s
  {
    if s != "" {
      JoinSplit(s[1..], sep);
      var rest := Split(s[1..], sep);
      if s[0] == sep {
        assert Split(s, sep)[1..] == rest;
      } else {
        var parts := Split(s, sep);
        assert parts[1..] == rest[1..];
        if |rest| > 1 {
          assert Join(parts, sep) == [s[0]] + (rest[0] + [sep] + Join(rest[1..], sep));
        }
      }
    }
  }

  /** Splitting `p` followed by a separator and `t` gives `p` and then the parts of `t`. */
  lemma {:induction false} SplitCons(p: string, t: string, sep: char)
    requires sep !in p
    ensures Split(p + [sep] + t, sep) == [p] + Split(t, sep)
  {
    var s := p + [sep] + t;
    if p == "" {
      assert s[1..] == t;
    } else {
      SplitCons(p[1..], t, sep);
      assert s[1..] == p[1..] + [sep] + t;
      assert [s[0]] + p[1..] == p;
    }
  }

  lemma {:induction false} SplitWhole(p: string, sep: char)
    requires sep !in p
    ensures Split(p, sep) == [p]
  {
    if p != "" {
      SplitWhole(p[1..], sep);
      assert [p[0]] + p[1..] == p;
    }
  }

  lemma {:induction false} SplitJoin(parts: seq<string>, sep: char)
    requires |parts| >= 1
    requires forall p | p in parts :: sep !in p
    ensures Split(Join(parts, sep), sep) == parts
  {
    if |parts| == 1 {
      SplitWhole(parts[0], sep);
    } else {
      SplitJoin(parts[1..], sep);
      SplitCons(parts[0], Join(parts[1..], sep), sep);
      assert parts == [parts[0]] + parts[1..];
    }
  }

  lemma {:induction false} NoneInJoin(parts: seq<string>, c: char)
    requires c != '/' && forall p | p in parts :: c !in p
    ensures c !in Join(parts, '/')
  {
    if |parts| == 1 {
      assert parts[0] in parts;
    } else if |parts| > 1 {
      assert parts[0] in parts && forall p | p in parts[1..] :: p in parts;
      NoneInJoin(parts[1..], c);
    }
  }

  predicate LowerOrDigit(c: char) { 'a' <= c <= 'z' || '0' <= c <= '9' }

  // ---- empty parts (`parts.filter(Boolean)`) ----

  function DropEmpty(parts: seq<string>): seq<string>
  {
    if parts == [] then []
    else if parts[0] == "" then DropEmpty(parts[1..])
    else [parts[0]] + DropEmpty(parts[1..])
  }

  lemma {:induction false} DropEmptyNone(parts: seq<string>)
    requires "" !in parts
    ensures DropEmpty(parts) == parts
  {
    if parts != [] {
      DropEmptyNone(parts[1..]);
    }
  }

  // ---- decimal numerals (`n.toString()`) ----

  function Digit(d: nat): char
    requires d < 10
  {
    '0' + (d as char)
  }

  predicate IsDigit(c: char) { '0' <= c <= '9' }

  function Decimal(n: nat): (s: string)
    ensures s != ""
    ensures forall c | c in s :: IsDigit(c)
  {
    if n < 10 then [Digit(n)] else Decimal(n / 10) + [Digit(n % 10)]
  }

  function ParseDecimal(s: string): int
  {
    if s == "" then 0
    else 10 * ParseDecimal(s[..|s| - 1]) + (s[|s| - 1] as int - '0' as int)
  }

  lemma {:induction false} ParseOfDecimal(n: nat)
    ensures ParseDecimal(Decimal(n)) == n
  {
    if n >= 10 {
      ParseOfDecimal(n / 10);
      assert Decimal(n)[..|Decimal(n)| - 1] == Decimal(n / 10);
    } else {
      assert Decimal(n)[..0] == "";
    }
  }

  lemma DecimalInjective(m: nat, n: nat)
    ensures Decimal(m) == Decimal(n) ==> m == n
  {
    ParseOfDecimal(m);
    ParseOfDecimal(n);
  }

  /** The numeral of a possibly negative integer. */
  function Numeral(i: int): (s: string)
    ensures s != ""
    ensures forall c | c in s :: IsDigit(c) || c == '-'
  {
    if i < 0 then "-" + Decimal(-i) else Decimal(i)
  }

  lemma NumeralInjective(i: int, j: int)
    ensures Numeral(i) == Numeral(j) ==> i == j
  {
    if Numeral(i) == Numeral(j) {
      assert i < 0 ==> Numeral(i)[0] == '-';
      assert j < 0 ==> Numeral(j)[0] == '-';
      assert i >= 0 ==> Numeral(i)[0] in Decimal(i);
      assert j >= 0 ==> Numeral(j)[0] in Decimal(j);
      if i < 0 {
        assert Numeral(i)[1..] == Decimal(-i) && Numeral(j)[1..] == Decimal(-j);
        DecimalInjective(-i, -j);
      } else {
        DecimalInjective(i, j);
      }
    }
  }
}
