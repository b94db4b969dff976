/**
 `encodeURIComponent` and `decodeURIComponent`: percent-encoding (section 2.1 of RFC 3986) of UTF-8.

 A string is a sequence of Unicode scalar values, so there are no lone surrogates, on which the
 encoder throws. The decoder answers `None` where the original throws.
 */
module PercentEncoding {
  import opened Wrappers

  predicate Unreserved(c: char)
  {
    'a' <= c <= 'z' || 'A' <= c <= 'Z' || '0' <= c <= '9' || c in "-_.!~*'()"
  }

  // ---- UTF-8 ----

  type Octet = b: nat | b < 256

  function Utf8(n: nat): seq<Octet>
    requires n < 0x11_0000
  {
    if n < 0x80 then [n]
    else if n < 0x800 then [0xC0 + n / 64, 0x80 + n % 64]
    else if n < 0x1_0000 then [0xE0 + n / 4096, 0x80 + n / 64 % 64, 0x80 + n % 64]
    else [0xF0 + n / 262144, 0x80 + n / 4096 % 64, 0x80 + n / 64 % 64, 0x80 + n % 64]
  }

  predicate IsScalar(n: nat) { n < 0xD800 || 0xE000 <= n < 0x11_0000 }

  /** How many continuation bytes follow a lead byte from 0x80 on, if it is one. */
  function Following(lead: nat): Option<nat>
  {
    if 0xC0 <= lead < 0xE0 then Some(1)
    else if 0xE0 <= lead < 0xF0 then Some(2)
    else if 0xF0 <= lead < 0xF8 then Some(3)
    else None
  }

  function LeadBits(lead: nat): nat
    requires Following(lead).Some?
  {
    if lead < 0xE0 then lead - 0xC0 else if lead < 0xF0 then lead - 0xE0 else lead - 0xF0
  }

  /** The least code point that needs that many continuation bytes. */
  function Least(following: nat): nat
  {
    if following == 1 then 0x80 else if following == 2 then 0x800 else 0x1_0000
  }

  // ---- percent signs ----

  function HexDigit(d: nat): char
    requires d < 16
  {
    "0123456789ABCDEF"[d]
  }

  function HexValue(c: char): Option<nat>
  {
    if '0' <= c <= '9' then Some(c as int - '0' as int)
    else if 'A' <= c <= 'F' then Some(c as int - 'A' as int + 10)
    else if 'a' <= c <= 'f' then Some(c as int - 'a' as int + 10)
    else None
  }

  function Percent(b: Octet): string
  {
    ['%', HexDigit(b / 16), HexDigit(b % 16)]
  }

  function Percents(bytes: seq<Octet>): string
  {
    if bytes == [] then "" else Percent(bytes[0]) + Percents(bytes[1..])
  }

  function EncodeChar(c: char): string
  {
    if Unreserved(c) then [c] else Percents(Utf8(c as int))
  }

  /** `encodeURIComponent`. */
  function Encode(s: string): string
  {
    if s == "" then "" else EncodeChar(s[0]) + Encode(s[1..])
  }

  /** One `%XX` at the start of `s`, and what follows it. */
  function TakeByte(s: string): Option<(nat, string)>
  {
    if |s| >= 3 && s[0] == '%' && HexValue(s[1]).Some? && HexValue(s[2]).Some?
    then Some((16 * HexValue(s[1]).value + HexValue(s[2]).value, s[3..]))
    else None
  }

  /** `count` continuation bytes added to the bits so far, and what follows them. */
  function TakeContinuation(s: string, count: nat, bits: nat): Option<(nat, string)>
    decreases count
  {
    if count == 0 then Some((bits, s))
    else
      var b := TakeByte(s);
      if b.None? || !(0x80 <= b.value.0 < 0xC0) then None
      else TakeContinuation(b.value.1, count - 1, bits * 64 + (b.value.0 - 0x80))
  }

  /** The code point encoded at the start of `s`, which starts with a percent sign. */
  function TakeChar(s: string): Option<(char, string)>
  {
    var lead := TakeByte(s);
    if lead.None? then None
    else if lead.value.0 < 0x80 then Some((lead.value.0 as char, lead.value.1))
    else
      var count := Following(lead.value.0);
      if count.None? then None
      else
        var r := TakeContinuation(lead.value.1, count.value, LeadBits(lead.value.0));
        if r.None? || r.value.0 < Least(count.value) || !IsScalar(r.value.0) then None
        else Some((r.value.0 as char, r.value.1))
  }

  lemma {:induction false} ContinuationShorter(s: string, count: nat, bits: nat)
    ensures var r := TakeContinuation(s, count, bits); r.Some? ==> |r.value.1| <= |s|
    decreases count
  {
    if count > 0 {
      var b := TakeByte(s);
      if b.Some? && 0x80 <= b.value.0 < 0xC0 {
        ContinuationShorter(b.value.1, count - 1, bits * 64 + (b.value.0 - 0x80));
      }
    }
  }

  lemma CharShorter(s: string)
    ensures var r := TakeChar(s); r.Some? ==> |r.value.1| < |s|
  {
    var lead := TakeByte(s);
    if lead.Some? && lead.value.0 >= 0x80 && Following(lead.value.0).Some? {
      ContinuationShorter(lead.value.1, Following(lead.value.0).value, LeadBits(lead.value.0));
    }
  }

  /** `decodeURIComponent`. */
  function Decode(s: string): Option<string>
    decreases |s|
  {
    if s == "" then Some("")
    else if s[0] != '%' then Then(s[0], Decode(s[1..]))
    else
      CharShorter(s);
      var r := TakeChar(s);
      if r.None? then None else Then(r.value.0, Decode(r.value.1))
  }

  function Then(c: char, rest: Option<string>): Option<string>
  {
    if rest.None? then None else Some([c] + rest.value)
  }

  // ---- round trip ----

  lemma HexBack(d: nat)
    requires d < 16
    ensures HexValue(HexDigit(d)) == Some(d)
  {
  }

  lemma TakePercent(b: Octet, t: string)
    ensures TakeByte(Percent(b) + t) == Some((b, t))
  {
    HexBack(b / 16);
    HexBack(b % 16);
    assert (Percent(b) + t)[3..] == t;
  }

  predicate Continues(bytes: seq<Octet>) { forall i | 0 <= i < |bytes| :: 0x80 <= bytes[i] < 0xC0 }

  function Shifted(bits: nat, bytes: seq<Octet>): nat
    requires Continues(bytes)
    decreases |bytes|
  {
    if bytes == [] then bits else Shifted(bits * 64 + (bytes[0] - 0x80), bytes[1..])
  }

  lemma {:induction false} TakeAll(bytes: seq<Octet>, bits: nat, t: string)
    requires Continues(bytes)
    ensures TakeContinuation(Percents(bytes) + t, |bytes|, bits) == Some((Shifted(bits, bytes), t))
    decreases |bytes|
  {
    if bytes == [] {
      assert Percents(bytes) + t == t;
    } else {
      var rest := Percents(bytes[1..]) + t;
      assert Percents(bytes) + t == Percent(bytes[0]) + rest;
      TakePercent(bytes[0], rest);
      TakeAll(bytes[1..], bits * 64 + (bytes[0] - 0x80), t);
    }
  }

  lemma TwoBack(n: nat)
    ensures [0x80 + n % 64][1..] == []
    ensures Shifted(n / 64, [0x80 + n % 64]) == n
  {
    assert [0x80 + n % 64][1..] == [];
  }

  lemma ThreeBack(n: nat)
    ensures Shifted(n / 4096, [0x80 + n / 64 % 64, 0x80 + n % 64]) == n
  {
    assert [0x80 + n / 64 % 64, 0x80 + n % 64][1..] == [0x80 + n % 64];
    assert n / 64 / 64 == n / 4096;
    TwoBack(n);
  }

  lemma FourBack(n: nat)
    ensures Shifted(n / 262144, [0x80 + n / 4096 % 64, 0x80 + n / 64 % 64, 0x80 + n % 64]) == n
  {
    assert [0x80 + n / 4096 % 64, 0x80 + n / 64 % 64, 0x80 + n % 64][1..] == [0x80 + n / 64 % 64, 0x80 + n % 64];
    assert n / 4096 / 64 == n / 262144;
    ThreeBack(n);
  }

  /** The bytes after the first. */
  lemma TailBack(n: nat)
    requires 0x80 <= n < 0x11_0000
    ensures var u := Utf8(n);
            && Continues(u[1..])
            && Following(u[0]) == Some(|u| - 1) && n >= Least(|u| - 1)
            && Shifted(LeadBits(u[0]), u[1..]) == n
  {
    var u := Utf8(n);
    if n < 0x800 {
      assert u[1..] == [0x80 + n % 64];
      TwoBack(n);
    } else if n < 0x1_0000 {
      assert u[1..] == [0x80 + n / 64 % 64, 0x80 + n % 64];
      ThreeBack(n);
    } else {
      assert u[1..] == [0x80 + n / 4096 % 64, 0x80 + n / 64 % 64, 0x80 + n % 64];
      FourBack(n);
    }
  }

  lemma TakeAscii(n: nat, t: string)
    requires n < 0x80
    ensures TakeChar(Percent(n) + t) == Some((n as char, t))
  {
    TakePercent(n, t);
  }

  lemma TakeWide(n: nat, t: string)
    requires 0x80 <= n && IsScalar(n)
    ensures var u := Utf8(n); TakeChar(Percent(u[0]) + (Percents(u[1..]) + t)) == Some((n as char, t))
  {
    var u := Utf8(n);
    TakePercent(u[0], Percents(u[1..]) + t);
    TailBack(n);
    TakeAll(u[1..], LeadBits(u[0]), t);
  }

  lemma TakeEncoded(c: char, t: string)
    requires !Unreserved(c)
    ensures TakeChar(EncodeChar(c) + t) == Some((c, t))
    ensures EncodeChar(c)[0] == '%'
  {
    var n := c as int;
    var u := Utf8(n);
    assert EncodeChar(c) + t == Percent(u[0]) + (Percents(u[1..]) + t);
    if n < 0x80 {
      assert Percents(u[1..]) + t == t;
      TakeAscii(n, t);
    } else {
      TakeWide(n, t);
    }
  }

  lemma DecodeFirst(c: char, t: string)
    ensures Decode(EncodeChar(c) + t) == Then(c, Decode(t))
  {
    if Unreserved(c) {
      assert (EncodeChar(c) + t)[1..] == t;
    } else {
      TakeEncoded(c, t);
    }
  }

  lemma ThenSome(s: string)
    requires s != ""
    ensures Then(s[0], Some(s[1..])) == Some(s)
  {
    assert [s[0]] + s[1..] == s;
  }

  /** Decoding what was encoded gives it back, for every string. */
  lemma {:induction false} DecodeEncode(s: string)
    ensures Decode(Encode(s)) == Some(s)
  {
    if s != "" {
      DecodeEncode(s[1..]);
      DecodeFirst(s[0], Encode(s[1..]));
      ThenSome(s);
    }
  }

  /** What an encoded string is made of. */
  predicate Safe(s: string) { forall c | c in s :: Unreserved(c) || c == '%' }

  lemma SafeConcat(a: string, b: string)
    requires Safe(a) && Safe(b)
    ensures Safe(a + b)
  {
  }

  lemma {:induction false} PercentsSafe(bytes: seq<Octet>)
    ensures Safe(Percents(bytes))
  {
    if bytes != [] {
      PercentsSafe(bytes[1..]);
      SafeConcat(Percent(bytes[0]), Percents(bytes[1..]));
    }
  }

  lemma {:induction false} EncodeSafe(s: string)
    ensures Safe(Encode(s))
    ensures Encode(s) == "" <==> s == ""
  {
    if s != "" {
      EncodeSafe(s[1..]);
      if !Unreserved(s[0]) {
        PercentsSafe(Utf8(s[0] as int));
      }
      SafeConcat(EncodeChar(s[0]), Encode(s[1..]));
    }
  }

  /** A string of unreserved characters stands for itself. */
  lemma {:induction false} EncodeUnreserved(s: string)
    requires forall c | c in s :: Unreserved(c)
    ensures Encode(s) == s
  {
    if s != "" {
      EncodeUnreserved(s[1..]);
    }
  }

  // ---- lists of components ----

  function EncodeAll(parts: seq<string>): (r: seq<string>)
    ensures |r| == |parts|
  {
    if parts == [] then [] else [Encode(parts[0])] + EncodeAll(parts[1..])
  }

  function DecodeAll(parts: seq<string>): Option<seq<string>>
  {
    if parts == [] then Some([])
    else
      var first, rest := Decode(parts[0]), DecodeAll(parts[1..]);
      if first.None? || rest.None? then None else Some([first.value] + rest.value)
  }

  lemma {:induction false} DecodeEncodeAll(parts: seq<string>)
    ensures DecodeAll(EncodeAll(parts)) == Some(parts)
    ensures forall i | 0 <= i < |parts| :: EncodeAll(parts)[i] == Encode(parts[i])
  {
    if parts != [] {
      DecodeEncode(parts[0]);
      DecodeEncodeAll(parts[1..]);
      assert EncodeAll(parts)[1..] == EncodeAll(parts[1..]);
      assert [parts[0]] + parts[1..] == parts;
    }
  }

  lemma {:induction false} EncodeAllSafe(parts: seq<string>)
    ensures forall p | p in EncodeAll(parts) :: Safe(p)
  {
    if parts != [] {
      EncodeSafe(parts[0]);
      EncodeAllSafe(parts[1..]);
    }
  }
}
