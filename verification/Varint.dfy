/**
 Variable-length integers, seven bits a byte, least significant first.

 Numbers are exact integers. The bitwise operators of the source first reduce their operands to 32
 bits: `>>>` to an unsigned number, `|` and `<<` to a signed one, and `<<` takes its shift modulo 32.
 Here 32-bit values are kept as unsigned bit patterns and read as signed at the end.
 */
module Varint {
  type Byte = b: int | 0 <= b < 256

  const TWO31 := 0x8000_0000
  const TWO32 := 0x1_0000_0000

  /** `x` times two to the `k`. */
  function Shifted(x: nat, k: nat): nat
    decreases k
  {
    if k == 0 then x else 2 * Shifted(x, k - 1)
  }

  /** `n >>> 0`. */
  function ToUint32(n: int): nat { n % 0x1_0000_0000 }

  function Signed(u: nat): int { if u < TWO31 then u else u - TWO32 }

  /** Bitwise or of two natural numbers. */
  function BitOr(x: nat, y: nat): nat
    decreases x + y
  {
    if x == 0 then y
    else if y == 0 then x
    else (if x % 2 == 1 || y % 2 == 1 then 1 else 0) + 2 * BitOr(x / 2, y / 2)
  }

  /** `x << shift`, as a bit pattern. */
  function ShiftLeft(x: nat, shift: nat): nat { Shifted(x, shift % 32) % 0x1_0000_0000 }

  /** `encodeVarint`: the test is on the number itself, the shift on its low 32 bits. */
  function Encode(n: int): (bytes: seq<Byte>)
    ensures |bytes| > 0
    decreases if n < 0 then 0 else n
  {
    if n >= 0x80 then [n % 128 + 128] + Encode(ToUint32(n) / 128) else [n % 128]
  }

  /** The loop of `decodeVarint`: the bits so far, and how many bytes were read. */
  function DecodeFrom(bytes: seq<Byte>, i: nat, u: nat, shift: nat, read: nat): (nat, nat)
    decreases |bytes| - i
  {
    if i >= |bytes| then (u, read)
    else
      var u' := BitOr(u, ShiftLeft(bytes[i] % 128, shift));
      if bytes[i] < 128 then (u', read + 1) else DecodeFrom(bytes, i + 1, u', shift + 7, read + 1)
  }

  function Decode(bytes: seq<Byte>, offset: nat): (int, nat)
  {
    var r := DecodeFrom(bytes, offset, 0, 0, 0);
    (Signed(r.0), r.1)
  }

  method EncodeVarint(value: int) returns (bytes: seq<Byte>)
    ensures bytes == Encode(value)
  {
    bytes := [];
    var v := value;
    while v >= 0x80
      invariant bytes + Encode(v) == Encode(value)
      decreases v
    {
      ghost var rest := Encode(ToUint32(v) / 128);
      assert bytes + ([v % 128 + 128] + rest) == (bytes + [v % 128 + 128]) + rest;
      bytes := bytes + [v % 128 + 128];
      v := ToUint32(v) / 128;
    }
    bytes := bytes + [v % 128];
  }

  method DecodeVarint(bytes: seq<Byte>, offset: nat) returns (value: int, bytesRead: nat)
    ensures (value, bytesRead) == Decode(bytes, offset)
  {
    var u, shift, i: nat := 0, 0, offset;
    bytesRead := 0;
    while i < |bytes|
      invariant DecodeFrom(bytes, i, u, shift, bytesRead) == DecodeFrom(bytes, offset, 0, 0, 0)
    {
      var byte := bytes[i];
      u := BitOr(u, ShiftLeft(byte % 128, shift));
      bytesRead := bytesRead + 1;
      if byte < 128 { return Signed(u), bytesRead; }
      shift := shift + 7;
      i := i + 1;
    }
    value := Signed(u);
  }

  // ---- bits ----

  lemma {:induction false} ShiftedSum(a: nat, b: nat, k: nat)
    ensures Shifted(a + b, k) == Shifted(a, k) + Shifted(b, k)
  {
    if k > 0 { ShiftedSum(a, b, k - 1); }
  }

  lemma {:induction false} ShiftedMore(x: nat, j: nat, k: nat)
    ensures Shifted(Shifted(x, j), k) == Shifted(x, j + k)
    decreases k
  {
    if k > 0 { ShiftedMore(x, j, k - 1); }
  }

  lemma {:induction false} ShiftedMono(a: nat, b: nat, k: nat)
    requires a <= b
    ensures Shifted(a, k) <= Shifted(b, k)
    ensures a < b ==> Shifted(a, k) < Shifted(b, k)
  {
    if k > 0 { ShiftedMono(a, b, k - 1); }
  }

  lemma {:induction false} ShiftedGrows(x: nat, j: nat, k: nat)
    requires j <= k
    ensures Shifted(x, j) <= Shifted(x, k)
    decreases k
  {
    if j < k { ShiftedGrows(x, j, k - 1); }
  }

  lemma Seven(x: nat)
    ensures Shifted(x, 7) == 128 * x
  {
    assert Shifted(x, 1) == 2 * x;
    assert Shifted(x, 2) == 2 * Shifted(x, 1);
    assert Shifted(x, 3) == 2 * Shifted(x, 2);
    assert Shifted(x, 4) == 2 * Shifted(x, 3);
    assert Shifted(x, 5) == 2 * Shifted(x, 4);
    assert Shifted(x, 6) == 2 * Shifted(x, 5);
  }

  /** The lowest group of a number and the rest, both shifted. */
  lemma Groups(v: nat, shift: nat)
    ensures Shifted(v, shift) == Shifted(v % 128, shift) + Shifted(v / 128, shift + 7)
  {
    ShiftedSum(v % 128, 128 * (v / 128), shift);
    Seven(v / 128);
    ShiftedMore(v / 128, 7, shift);
  }

  lemma Powers()
    ensures Shifted(1, 0) == 1 && Shifted(1, 7) == 128 && Shifted(1, 28) == 0x1000_0000
    ensures Shifted(128, 25) == TWO32 && Shifted(128, 21) == 0x1000_0000 && Shifted(1, 35) == 0x8_0000_0000
  {
    Seven(1);
    Seven(128);
    Seven(0x4000);
    Seven(0x20_0000);
    Seven(0x1000_0000);
    ShiftedMore(1, 7, 7);
    ShiftedMore(1, 14, 7);
    ShiftedMore(1, 21, 7);
    ShiftedMore(1, 28, 7);
    ShiftedMore(1, 7, 21);
    ShiftedMore(1, 7, 25);
    assert Shifted(1, 29) == 2 * Shifted(1, 28);
    assert Shifted(1, 30) == 2 * Shifted(1, 29);
    assert Shifted(1, 31) == 2 * Shifted(1, 30);
    assert Shifted(1, 32) == 2 * Shifted(1, 31);
  }

  /** Bits that do not overlap: or is addition. */
  lemma {:induction false} OrDisjoint(x: nat, y: nat, k: nat)
    requires x < Shifted(1, k)
    ensures BitOr(x, Shifted(y, k)) == x + Shifted(y, k)
    decreases k
  {
    if x != 0 && Shifted(y, k) != 0 {
      if k > 0 {
        OrDisjoint(x / 2, y, k - 1);
      }
    }
  }

  lemma ShiftLow(b: nat, shift: nat)
    requires shift < 32 && Shifted(b, shift) < TWO32
    ensures ShiftLeft(b, shift) == Shifted(b, shift)
  {
    assert shift % 32 == shift;
    SmallMod(Shifted(b, shift), 0x1_0000_0000);
  }

  lemma SmallMod(x: nat, m: nat)
    requires x < m
    ensures x % m == x
  {
  }

  lemma GroupFits(u: nat, b: nat, shift: nat)
    requires u < Shifted(1, shift) && b < 128
    ensures u + Shifted(b, shift) < Shifted(1, shift + 7)
  {
    ShiftedSum(1, b, shift);
    ShiftedMono(1 + b, 128, shift);
    Seven(1);
    ShiftedMore(1, 7, shift);
  }

  /** Seven bits added above the `shift` bits that are there already, when they fit in 32 bits. */
  lemma AddGroup(u: nat, b: nat, shift: nat)
    requires shift < 32 && u < Shifted(1, shift) && b < 128 && Shifted(b, shift) < TWO32
    ensures BitOr(u, ShiftLeft(b, shift)) == u + Shifted(b, shift) < Shifted(1, shift + 7)
  {
    ShiftLow(b, shift);
    GroupFits(u, b, shift);
    OrDisjoint(u, b, shift);
  }

  // ---- round trip ----

  /** `piece` stands at `offset`. */
  predicate At(bytes: seq<Byte>, offset: nat, piece: seq<Byte>)
  {
    offset + |piece| <= |bytes| && bytes[offset..offset + |piece|] == piece
  }

  lemma AtSplit(bytes: seq<Byte>, offset: nat, a: seq<Byte>, b: seq<Byte>)
    requires At(bytes, offset, a + b)
    ensures At(bytes, offset, a) && At(bytes, offset + |a|, b)
  {
    var piece := bytes[offset..offset + |a + b|];
    assert bytes[offset..offset + |a|] == piece[..|a|] == a;
    assert bytes[offset + |a|..offset + |a| + |b|] == piece[|a|..] == b;
  }

  lemma EncodeHead(n: int)
    ensures var e := Encode(n); e[0] % 128 == n % 128 && (e[0] < 128 <==> n < 128)
    ensures n >= 128 ==> Encode(n) == [Encode(n)[0]] + Encode(ToUint32(n) / 128)
  {
    var low := n % 128;
    assert (low + 128) % 128 == low && low % 128 == low;
  }

  /** What an encoding that stands at `i` says about the byte there and about what follows. */
  lemma FirstByte(bytes: seq<Byte>, i: nat, n: int)
    requires At(bytes, i, Encode(n))
    ensures i < |bytes| && bytes[i] % 128 == n % 128 && (bytes[i] < 128 <==> n < 128)
    ensures n >= 128 ==> At(bytes, i + 1, Encode(ToUint32(n) / 128)) && |Encode(n)| == 1 + |Encode(ToUint32(n) / 128)|
  {
    var piece := Encode(n);
    EncodeHead(n);
    assert bytes[i] == bytes[i..i + |piece|][0] == piece[0];
    if n >= 128 {
      AtSplit(bytes, i, [piece[0]], Encode(ToUint32(n) / 128));
    }
  }

  /** One turn of the loop on a byte whose seven bits do not overlap and do not overflow. */
  lemma TakeGroup(bytes: seq<Byte>, i: nat, b: nat, u: nat, shift: nat, read: nat)
    requires i < |bytes| && bytes[i] % 128 == b
    requires shift < 32 && u < Shifted(1, shift) && Shifted(b, shift) < TWO32
    ensures u + Shifted(b, shift) < Shifted(1, shift + 7)
    ensures DecodeFrom(bytes, i, u, shift, read)
            == if bytes[i] < 128 then (u + Shifted(b, shift), read + 1)
               else DecodeFrom(bytes, i + 1, u + Shifted(b, shift), shift + 7, read + 1)
  {
    AddGroup(u, b, shift);
  }

  /** One turn of the loop on an encoding that stands at `i`: the group `b` is taken, `w` is left. */
  lemma OneGroup(bytes: seq<Byte>, i: nat, v: nat, u: nat, shift: nat, read: nat) returns (b: nat, w: nat)
    requires At(bytes, i, Encode(v))
    requires shift < 32 && u < Shifted(1, shift) && Shifted(v, shift) < TWO32 && v < TWO32
    ensures u + Shifted(b, shift) < Shifted(1, shift + 7) && Shifted(v, shift) == Shifted(b, shift) + Shifted(w, shift + 7)
    ensures v < 128 ==>
              && Shifted(w, shift + 7) == 0 && |Encode(v)| == 1
              && DecodeFrom(bytes, i, u, shift, read) == (u + Shifted(b, shift), read + 1)
    ensures v >= 128 ==>
              && shift + 7 < 32 && w < v && At(bytes, i + 1, Encode(w)) && |Encode(v)| == 1 + |Encode(w)|
              && DecodeFrom(bytes, i, u, shift, read) == DecodeFrom(bytes, i + 1, u + Shifted(b, shift), shift + 7, read + 1)
  {
    b, w := v % 128, v / 128;
    NextGroup(v, shift);
    FirstByte(bytes, i, v);
    TakeGroup(bytes, i, b, u, shift, read);
  }

  lemma {:induction false} DecodeGroups(bytes: seq<Byte>, i: nat, v: nat, u: nat, shift: nat, read: nat)
    requires At(bytes, i, Encode(v))
    requires shift < 32 && u < Shifted(1, shift) && Shifted(v, shift) < TWO32 && v < TWO32
    ensures DecodeFrom(bytes, i, u, shift, read) == (u + Shifted(v, shift), read + |Encode(v)|)
    decreases v
  {
    var b, w := OneGroup(bytes, i, v, u, shift, read);
    if v >= 128 {
      DecodeGroups(bytes, i + 1, w, u + Shifted(b, shift), shift + 7, read + 1);
    }
  }

  lemma NextGroup(v: nat, shift: nat)
    requires Shifted(v, shift) < TWO32 && v < TWO32
    ensures Shifted(v, shift) == Shifted(v % 128, shift) + Shifted(v / 128, shift + 7)
    ensures ToUint32(v) == v
    ensures if v < 128 then v % 128 == v && Shifted(v / 128, shift + 7) == 0 else shift + 7 < 32
  {
    Groups(v, shift);
    if v >= 128 { ShiftStaysLow(v, shift); }
  }

  lemma ShiftStaysLow(v: nat, shift: nat)
    requires v >= 128 && Shifted(v, shift) < TWO32
    ensures shift < 25
  {
    ShiftedMono(128, v, shift);
    Powers();
    if shift >= 25 { ShiftedGrows(128, 25, shift); }
  }

  /**
   Decoding what was encoded, wherever it stands and whatever is around it, for every integer: the
   exact number of bytes is read, and the value is the low 32 bits read as a signed number. A
   negative number is cut to seven bits.
   */
  lemma DecodeOfEncode(bytes: seq<Byte>, offset: nat, n: int)
    requires At(bytes, offset, Encode(n))
    ensures Decode(bytes, offset) == (if n < 0 then n % 128 else Signed(ToUint32(n)), |Encode(n)|)
  {
    if 0 <= n < TWO32 {
      DecodeNarrow(bytes, offset, n);
      SmallMod(n, 0x1_0000_0000);
    } else {
      DecodeWide(bytes, offset, n);
    }
  }

  lemma DecodeNarrow(bytes: seq<Byte>, offset: nat, n: nat)
    requires At(bytes, offset, Encode(n)) && n < TWO32
    ensures DecodeFrom(bytes, offset, 0, 0, 0) == (n, |Encode(n)|)
  {
    DecodeGroups(bytes, offset, n, 0, 0, 0);
  }

  lemma LowBits(n: nat)
    ensures ToUint32(n) % 128 == n % 128
  {
    assert n == TWO32 * (n / TWO32) + ToUint32(n);
    assert TWO32 == 128 * 0x200_0000;
    assert n == 128 * (0x200_0000 * (n / TWO32)) + ToUint32(n);
  }

  lemma DecodeWide(bytes: seq<Byte>, offset: nat, n: int)
    requires At(bytes, offset, Encode(n)) && !(0 <= n < TWO32)
    ensures DecodeFrom(bytes, offset, 0, 0, 0) == (if n < 0 then n % 128 else ToUint32(n), |Encode(n)|)
  {
    var b := n % 128;
    FirstByte(bytes, offset, n);
    TakeGroup(bytes, offset, b, 0, 0, 0);
    if n >= TWO32 {
      var low := ToUint32(n);
      LowBits(n);
      Groups(low, 0);
      Seven(1);
      DecodeGroups(bytes, offset + 1, low / 128, b, 7, 1);
    }
  }

  lemma SignedIff(n: int)
    ensures n >= 0 ==> (Signed(ToUint32(n)) == n <==> n < TWO31)
    ensures TWO31 <= n < TWO32 ==> Signed(ToUint32(n)) == n - TWO32
  {
  }

  /** The round trip is exact for the naturals below 2^31 and for no other integer. */
  lemma RoundTripIff(prefix: seq<Byte>, n: int, suffix: seq<Byte>)
    ensures Decode(prefix + Encode(n) + suffix, |prefix|).1 == |Encode(n)|
    ensures Decode(prefix + Encode(n) + suffix, |prefix|).0 == n <==> 0 <= n < TWO31
    ensures TWO31 <= n < TWO32 ==> Decode(prefix + Encode(n) + suffix, |prefix|).0 == n - TWO32
  {
    var bytes, piece := prefix + Encode(n) + suffix, Encode(n);
    assert bytes[|prefix|..|prefix| + |piece|] == piece;
    DecodeOfEncode(bytes, |prefix|, n);
    SignedIff(n);
  }

  /** Every byte but the last has its top bit set. */
  predicate Ends(bytes: seq<Byte>)
  {
    bytes != [] && if |bytes| == 1 then bytes[0] < 128 else bytes[0] >= 128 && Ends(bytes[1..])
  }

  lemma {:induction false} EncodeEnds(n: int)
    ensures Ends(Encode(n))
    decreases if n < 0 then 0 else n
  {
    if n >= 0x80 {
      EncodeEnds(ToUint32(n) / 128);
      assert Encode(n)[1..] == Encode(ToUint32(n) / 128);
    }
  }

  lemma {:induction false} SameEnd(p: seq<Byte>, q: seq<Byte>, x: seq<Byte>, y: seq<Byte>)
    requires Ends(p) && Ends(q) && p + x == q + y
    ensures p == q && x == y
  {
    assert (p + x)[0] == p[0] && (q + y)[0] == q[0];
    assert (p + x)[1..] == p[1..] + x && (q + y)[1..] == q[1..] + y;
    if |p| == 1 || |q| == 1 {
      assert p[1..] == [] && q[1..] == [];
      assert p == q;
    } else {
      SameEnd(p[1..], q[1..], x, y);
      assert p == [p[0]] + p[1..] && q == [q[0]] + q[1..];
    }
  }

  /**
   No encoding is the beginning of another one, for all integers, so a stream can be read in one way
   only; and below 2^32 different numbers have different encodings.
   */
  lemma PrefixFree(a: int, b: int, x: seq<Byte>, y: seq<Byte>)
    requires Encode(a) + x == Encode(b) + y
    ensures Encode(a) == Encode(b) && x == y
    ensures 0 <= a < TWO32 && 0 <= b < TWO32 ==> a == b
  {
    EncodeEnds(a);
    EncodeEnds(b);
    SameEnd(Encode(a), Encode(b), x, y);
    if 0 <= a < TWO32 && 0 <= b < TWO32 {
      var bytes := Encode(a) + x;
      DecodeNarrow(bytes, 0, a);
      DecodeNarrow(bytes, 0, b);
    }
  }

  // ---- length ----

  /** The length of an encoding is the number of seven-bit groups of the number. */
  lemma {:induction false} LengthIsGroups(n: nat, k: nat)
    requires n < TWO32 && 1 <= k
    ensures |Encode(n)| <= k <==> n < Shifted(1, 7 * k)
    decreases n
  {
    ShiftedMore(1, 7 * (k - 1), 7);
    Seven(Shifted(1, 7 * (k - 1)));
    if n >= 128 {
      assert ToUint32(n) == n;
      if k > 1 {
        LengthIsGroups(n / 128, k - 1);
      }
    } else {
      ShiftedGrows(1, 0, 7 * (k - 1));
    }
  }

  lemma {:induction false} ShortIsSmall(bytes: seq<Byte>, i: nat, u: nat, shift: nat, read: nat)
    requires shift == 7 * read && u < Shifted(1, shift) && DecodeFrom(bytes, i, u, shift, read).1 <= 4
    ensures var r := DecodeFrom(bytes, i, u, shift, read); r.0 < Shifted(1, 7 * r.1)
    decreases |bytes| - i
  {
    if i < |bytes| {
      var b := bytes[i] % 128;
      ReadsOn(bytes, i, u, shift, read);
      LowGroup(b, shift);
      TakeGroup(bytes, i, b, u, shift, read);
      if bytes[i] >= 128 {
        ShortIsSmall(bytes, i + 1, u + Shifted(b, shift), shift + 7, read + 1);
      }
    }
  }

  lemma LowGroup(b: nat, shift: nat)
    requires b < 128 && shift <= 21
    ensures Shifted(b, shift) < TWO32
  {
    ShiftedMono(b, 128, shift);
    ShiftedGrows(128, shift, 21);
    Powers();
  }

  lemma {:induction false} ReadsOn(bytes: seq<Byte>, i: nat, u: nat, shift: nat, read: nat)
    ensures DecodeFrom(bytes, i, u, shift, read).1 >= if i < |bytes| then read + 1 else read
    decreases |bytes| - i
  {
    if i < |bytes| {
      ReadsOn(bytes, i + 1, BitOr(u, ShiftLeft(bytes[i] % 128, shift)), shift + 7, read + 1);
    }
  }

  /** Whatever bytes decode to the bits of `n`, they are at least as many as `Encode` uses. */
  lemma EncodingIsShortest(bytes: seq<Byte>, offset: nat, n: nat)
    requires n < TWO32 && offset < |bytes| && DecodeFrom(bytes, offset, 0, 0, 0).0 == n
    ensures Decode(bytes, offset).1 >= |Encode(n)|
  {
    var read := Decode(bytes, offset).1;
    ReadsOn(bytes, offset, 0, 0, 0);
    if read <= 4 {
      ShortIsSmall(bytes, offset, 0, 0, 0);
      LengthIsGroups(n, read);
    } else {
      Powers();
      LengthIsGroups(n, 5);
    }
  }
}
