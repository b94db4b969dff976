/**
 Query strings, as `URLSearchParams` reads them.
 */
module QueryString {
  import opened Text
  import opened PercentEncoding
  import opened Wrappers

  /** The text before the first `c`, and after it. */
  function Cut(s: string, c: char): (string, string)
  {
    if s == "" then ("", "")
    else if s[0] == c then ("", s[1..])
    else
      var r := Cut(s[1..], c);
      ([s[0]] + r.0, r.1)
  }

  function PlusToSpace(s: string): string
  {
    if s == "" then "" else [if s[0] == '+' then ' ' else s[0]] + PlusToSpace(s[1..])
  }

  /** A decoded name or value. Malformed percent signs stay as they are. */
  function FormDecode(s: string): string
  {
    var spaced := PlusToSpace(s);
    if Decode(spaced).Some? then Decode(spaced).value else spaced
  }

  function GetFrom(pairs: seq<string>, name: string): Option<string>
  {
    if pairs == [] then None
    else if pairs[0] != "" && FormDecode(Cut(pairs[0], '=').0) == name then Some(FormDecode(Cut(pairs[0], '=').1))
    else GetFrom(pairs[1..], name)
  }

  /** `URLSearchParams.get`: the first value of that name. */
  function QueryGet(query: string, name: string): Option<string> { GetFrom(Split(query, '&'), name) }

  function Pair(name: string, value: string): string { name + "=" + value }

  lemma {:induction false} CutAt(a: string, c: char, b: string)
    requires c !in a
    ensures Cut(a + [c] + b, c) == (a, b)
  {
    if a == "" {
      assert a + [c] + b == [c] + b && ([c] + b)[1..] == b;
    } else {
      CutAt(a[1..], c, b);
      assert (a + [c] + b)[1..] == a[1..] + [c] + b;
      assert [a[0]] + a[1..] == a;
    }
  }

  lemma {:induction false} CutNone(a: string, c: char)
    requires c !in a
    ensures Cut(a, c) == (a, "")
  {
    if a != "" {
      CutNone(a[1..], c);
      assert [a[0]] + a[1..] == a;
    }
  }

  lemma SafeTail(s: string)
    requires Safe(s) && s != ""
    ensures Safe(s[1..]) && s[0] != '+'
  {
    assert s[0] in s;
  }

  lemma {:induction false} NoPlus(s: string)
    requires Safe(s)
    ensures PlusToSpace(s) == s
  {
    if s != "" {
      SafeTail(s);
      NoPlus(s[1..]);
      assert [s[0]] + s[1..] == s;
    }
  }

  lemma FormPlain(s: string)
    requires forall c | c in s :: Unreserved(c)
    ensures FormDecode(s) == s
  {
    NoPlus(s);
    EncodeUnreserved(s);
    DecodeEncode(s);
  }

  lemma PairIs(name: string, value: string)
    requires forall c | c in name :: Unreserved(c)
    ensures Cut(Pair(name, value), '=') == (name, value) && FormDecode(name) == name
  {
    CutAt(name, '=', value);
    FormPlain(name);
  }
}
