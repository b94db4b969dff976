/**
 The binary file of a social graph: what `toBinaryChunks` writes, `fromBinary` reads back.

 All numbers are variable-length integers, after `>>> 0`; public keys are 32 raw bytes. A graph is
 given as the lists the writer walks through, in their order.
 */
module GraphFile {
  import opened Varint
  import opened Wrappers

  const VERSION := 2
  const KEY_BYTES := 32
  const CHUNK_SIZE := 16 * 1024

  /** One owner's follows or mutes: at most `limit` of `outs` are written. */
  datatype List = List(owner: nat, createdAt: nat, limit: nat, outs: seq<nat>)

  datatype Id = Id(hex: string, id: nat)

  datatype Graph = Graph(ids: seq<Id>, follows: seq<List>, mutes: seq<List>)

  datatype ReadId = ReadId(hex: string, id: int)

  datatype ReadList = ReadList(owner: int, users: seq<int>, createdAt: int)

  datatype ReadGraph = ReadGraph(ids: seq<ReadId>, follows: seq<ReadList>, mutes: seq<ReadList>)

  // ---- hexadecimal ----

  const HEX := "0123456789abcdef"

  /** The value of a hexadecimal digit, either case. */
  function Nibble(c: char): Option<nat>
  {
    if '0' <= c <= '9' then Some(c as int - '0' as int)
    else if 'a' <= c <= 'f' then Some(c as int - 'a' as int + 10)
    else if 'A' <= c <= 'F' then Some(c as int - 'A' as int + 10)
    else None
  }

  predicate IsHex(s: string)
  {
    s != "" && |s| % 2 == 0 && forall c | c in s :: Nibble(c).Some?
  }

  function HexPairs(s: string): seq<Byte>
    requires |s| % 2 == 0 && forall c | c in s :: Nibble(c).Some?
  {
    if s == "" then [] else
      assert s[0] in s && s[1] in s;
      HexByte(s[0], s[1]) + HexPairs(s[2..])
  }

  function HexByte(a: char, b: char): seq<Byte>
    requires Nibble(a).Some? && Nibble(b).Some?
  {
    NibblesInRange(a);
    NibblesInRange(b);
    [16 * Nibble(a).value + Nibble(b).value]
  }

  lemma NibblesInRange(c: char)
    ensures Nibble(c).Some? ==> Nibble(c).value < 16
  {
  }

  function BytesToHex(bytes: seq<Byte>): string
  {
    if bytes == [] then "" else [HEX[bytes[0] / 16], HEX[bytes[0] % 16]] + BytesToHex(bytes[1..])
  }

  function LowerChar(c: char): char
  {
    if 'A' <= c <= 'F' then (c as int - 'A' as int + 'a' as int) as char else c
  }

  /** A hexadecimal string with its letters in lower case. */
  function Lower(s: string): string
  {
    if s == "" then "" else [LowerChar(s[0])] + Lower(s[1..])
  }

  lemma NibbleBack(c: char)
    requires Nibble(c).Some?
    ensures Nibble(c).value < 16 && HEX[Nibble(c).value] == LowerChar(c)
  {
  }

  lemma HexByteBack(a: char, b: char, rest: seq<Byte>)
    requires Nibble(a).Some? && Nibble(b).Some?
    ensures BytesToHex(HexByte(a, b) + rest) == [LowerChar(a), LowerChar(b)] + BytesToHex(rest)
  {
    NibbleBack(a);
    NibbleBack(b);
    Nibbles(Nibble(a).value, Nibble(b).value);
    var bytes := HexByte(a, b) + rest;
    assert bytes[0] == 16 * Nibble(a).value + Nibble(b).value && bytes[1..] == rest;
  }

  lemma Nibbles(h: nat, l: nat)
    requires l < 16
    ensures (16 * h + l) / 16 == h && (16 * h + l) % 16 == l
  {
  }

  lemma LowerTwo(s: string)
    requires |s| >= 2
    ensures Lower(s) == [LowerChar(s[0]), LowerChar(s[1])] + Lower(s[2..])
  {
    assert s[1..][1..] == s[2..];
  }

  lemma {:induction false} HexRoundTrip(s: string)
    requires |s| % 2 == 0 && forall c | c in s :: Nibble(c).Some?
    ensures |HexPairs(s)| == |s| / 2
    ensures BytesToHex(HexPairs(s)) == Lower(s)
    decreases |s|
  {
    if s != "" {
      assert s[0] in s && s[1] in s && forall c | c in s[2..] :: c in s;
      HexRoundTrip(s[2..]);
      HexByteBack(s[0], s[1], HexPairs(s[2..]));
      LowerTwo(s);
    }
  }

  // ---- coders ----

  /** A way to write values and to read them at an offset; reading also tells how many bytes it took. */
  datatype Coder<!S, !T> = Coder(write: S -> seq<Byte>, read: (seq<Byte>, nat) -> (T, nat))

  function WriteMany<S, T>(c: Coder<S, T>, xs: seq<S>): seq<Byte>
  {
    if xs == [] then [] else c.write(xs[0]) + WriteMany(c, xs[1..])
  }

  function ReadMany<S, T>(c: Coder<S, T>, data: seq<Byte>, offset: nat, count: nat): (seq<T>, nat)
    decreases count
  {
    if count == 0 then ([], 0)
    else
      var x := c.read(data, offset);
      var r := ReadMany(c, data, offset + x.1, count - 1);
      ([x.0] + r.0, x.1 + r.1)
  }

  function BackMany<S, T>(back: S -> T, xs: seq<S>): (r: seq<T>)
    ensures |r| == |xs|
  {
    if xs == [] then [] else [back(xs[0])] + BackMany(back, xs[1..])
  }

  /** Where the pieces of a file stand: `at(o, p)` says that piece `p` stands at offset `o`. */
  type Layout = (nat, seq<Byte>) -> bool

  function LayoutOf(data: seq<Byte>): Layout { (offset: nat, piece: seq<Byte>) => At(data, offset, piece) }

  ghost predicate Splits(at: Layout, offset: nat, a: seq<Byte>, b: seq<Byte>)
  {
    at(offset, a + b) ==> at(offset, a) && at(offset + |a|, b)
  }

  ghost predicate Holds(at: Layout, data: seq<Byte>, offset: nat, piece: seq<Byte>)
  {
    at(offset, piece) ==> At(data, offset, piece)
  }

  /** All that the proofs below use of a layout. */
  ghost predicate Lays(at: Layout, data: seq<Byte>)
  {
    && (forall offset: nat, a: seq<Byte>, b: seq<Byte> :: Splits(at, offset, a, b))
    && (forall offset: nat, piece: seq<Byte> :: Holds(at, data, offset, piece))
  }

  lemma LayoutLays(data: seq<Byte>)
    ensures Lays(LayoutOf(data), data) && LayoutOf(data)(0, data)
  {
    forall offset: nat, a: seq<Byte>, b: seq<Byte> ensures Splits(LayoutOf(data), offset, a, b) {
      if At(data, offset, a + b) { AtSplit(data, offset, a, b); }
    }
  }

  /** What is written for `x` comes back as `back(x)`, wherever it stands. */
  ghost predicate ReadsBack<S, T>(c: Coder<S, T>, back: S -> T, data: seq<Byte>, at: Layout, x: S)
  {
    forall offset: nat | at(offset, c.write(x)) :: c.read(data, offset) == (back(x), |c.write(x)|)
  }

  lemma ReadNext<S, T>(c: Coder<S, T>, back: S -> T, data: seq<Byte>, at: Layout, offset: nat, x: S, rest: seq<Byte>)
    requires Lays(at, data) && ReadsBack(c, back, data, at, x) && at(offset, c.write(x) + rest)
    ensures c.read(data, offset) == (back(x), |c.write(x)|)
    ensures at(offset + |c.write(x)|, rest)
  {
    assert Splits(at, offset, c.write(x), rest);
  }

  /** What is read for `x` is never `other(x)`, wherever it stands. */
  ghost predicate Misreads<S, T>(c: Coder<S, T>, other: S -> T, data: seq<Byte>, at: Layout, x: S)
  {
    forall offset: nat | at(offset, c.write(x)) :: c.read(data, offset).0 != other(x)
  }

  /** `good` tells whether `x` comes back as `back(x)`; if it does not, then not as `other(x)` either. */
  ghost predicate Decides<S, T>(good: S -> bool, c: Coder<S, T>, back: S -> T, other: S -> T, data: seq<Byte>, at: Layout, x: S)
  {
    if good(x) then ReadsBack(c, back, data, at, x) else Misreads(c, other, data, at, x)
  }

  ghost predicate DecidesAll<S, T>(good: S -> bool, c: Coder<S, T>, back: S -> T, other: S -> T, data: seq<Byte>, at: Layout, xs: seq<S>)
  {
    forall i | 0 <= i < |xs| :: Decides(good, c, back, other, data, at, xs[i])
  }

  predicate AllGood<S>(good: S -> bool, xs: seq<S>) { forall i | 0 <= i < |xs| :: good(xs[i]) }

  lemma BackMore<S, T>(f: S -> T, g: S -> T, xs: seq<S>)
    requires xs != []
    ensures BackMany(f, xs) == BackMany(g, xs) <==> f(xs[0]) == g(xs[0]) && BackMany(f, xs[1..]) == BackMany(g, xs[1..])
  {
    var p, q := BackMany(f, xs), BackMany(g, xs);
    assert p[1..] == BackMany(f, xs[1..]) && q[1..] == BackMany(g, xs[1..]);
    assert p == [p[0]] + p[1..] && q == [q[0]] + q[1..];
  }

  lemma ReadManyFirst<S, T>(c: Coder<S, T>, data: seq<Byte>, offset: nat, count: nat, x: T, k: nat)
    requires count > 0 && c.read(data, offset) == (x, k)
    ensures var r := ReadMany(c, data, offset + k, count - 1);
            ReadMany(c, data, offset, count) == ([x] + r.0, k + r.1)
  {
  }

  lemma ConsSame<T>(a: seq<T>, b: seq<T>, x: T, xs: seq<T>, y: T, ys: seq<T>)
    requires a == [x] + xs && b == [y] + ys
    ensures a == b <==> x == y && xs == ys
  {
    assert a[1..] == xs && b[1..] == ys;
  }

  /** Values written in a row come back as `other` says exactly when each is good and `other` says what comes back. */
  lemma {:induction false} ManyIff<S, T>(good: S -> bool, c: Coder<S, T>, back: S -> T, other: S -> T, data: seq<Byte>, at: Layout,
                                         offset: nat, xs: seq<S>)
    requires Lays(at, data) && DecidesAll(good, c, back, other, data, at, xs)
    requires at(offset, WriteMany(c, xs))
    ensures ReadMany(c, data, offset, |xs|).0 == BackMany(other, xs)
            <==> AllGood(good, xs) && BackMany(other, xs) == BackMany(back, xs)
    ensures AllGood(good, xs) ==> ReadMany(c, data, offset, |xs|) == (BackMany(back, xs), |WriteMany(c, xs)|)
    decreases |xs|
  {
    if xs != [] {
      var x, rest := xs[0], xs[1..];
      var r := c.read(data, offset);
      assert Decides(good, c, back, other, data, at, x);
      assert Splits(at, offset, c.write(x), WriteMany(c, rest));
      ReadManyFirst(c, data, offset, |xs|, r.0, r.1);
      ConsSame(ReadMany(c, data, offset, |xs|).0, BackMany(other, xs),
               r.0, ReadMany(c, data, offset + r.1, |rest|).0, other(x), BackMany(other, rest));
      assert AllGood(good, xs) <==> good(x) && AllGood(good, rest) by { assert xs == [x] + rest; }
      if good(x) {
        ReadNext(c, back, data, at, offset, x, WriteMany(c, rest));
        ManyIff(good, c, back, other, data, at, offset + |c.write(x)|, rest);
        BackMore(other, back, xs);
      }
    }
  }

  // ---- what is written, and how it is read ----

  type Numbers = Coder<nat, int>

  /** `writeVar`. */
  function Var(v: nat): seq<Byte> { Encode(ToUint32(v)) }

  const VARINT: Numbers := Coder(Var, Decode)

  /** An announced count and then the values. */
  function Block<S, T>(n: Numbers, c: Coder<S, T>, count: nat, xs: seq<S>): seq<Byte>
  {
    n.write(count) + WriteMany(c, xs)
  }

  /** A loop that counts up to a negative number does not turn. */
  function Times(n: int): nat { if n < 0 then 0 else n }

  function ReadBlock<S, T>(n: Numbers, c: Coder<S, T>, data: seq<Byte>, offset: nat): (seq<T>, nat)
  {
    var count := n.read(data, offset);
    var many := ReadMany(c, data, offset + count.1, Times(count.0));
    (many.0, count.1 + many.1)
  }

  function Written(l: List): seq<nat> { if l.limit < |l.outs| then l.outs[..l.limit] else l.outs }

  function ListBytes(n: Numbers, l: List): seq<Byte>
  {
    n.write(l.owner) + (n.write(l.createdAt) + Block(n, n, l.limit, Written(l)))
  }

  function ReadOneList(n: Numbers, data: seq<Byte>, offset: nat): (ReadList, nat)
  {
    var owner := n.read(data, offset);
    var at := n.read(data, offset + owner.1);
    var users := ReadBlock(n, n, data, offset + owner.1 + at.1);
    (ReadList(owner.0, users.0, at.0), owner.1 + at.1 + users.1)
  }

  function Lists(n: Numbers): Coder<List, ReadList>
  {
    Coder((l: List) => ListBytes(n, l), (data: seq<Byte>, offset: nat) => ReadOneList(n, data, offset))
  }

  /** `slice`: bounds beyond the end are cut. */
  function Slice(data: seq<Byte>, from: nat, to: nat): seq<Byte>
    requires from <= to
  {
    if from >= |data| then [] else if to > |data| then data[from..] else data[from..to]
  }

  function KeyBytes(hex: string): seq<Byte> { if IsHex(hex) then HexPairs(hex) else [] }

  function IdBytes(n: Numbers, id: Id): seq<Byte> { KeyBytes(id.hex) + n.write(id.id) }

  function ReadOneId(n: Numbers, data: seq<Byte>, offset: nat): (ReadId, nat)
  {
    var id := n.read(data, offset + KEY_BYTES);
    (ReadId(BytesToHex(Slice(data, offset, offset + KEY_BYTES)), id.0), KEY_BYTES + id.1)
  }

  function Ids(n: Numbers): Coder<Id, ReadId>
  {
    Coder((id: Id) => IdBytes(n, id), (data: seq<Byte>, offset: nat) => ReadOneId(n, data, offset))
  }

  /** The writer throws on a key that is not hexadecimal. */
  predicate Writable(ids: seq<Id>) { forall i | 0 <= i < |ids| :: IsHex(ids[i].hex) }

  /** The version and three blocks. */
  function FileBytes<S, T, U, V>(n: Numbers, c: Coder<S, T>, d: Coder<U, V>, xs: seq<S>, ys: seq<U>, zs: seq<U>): seq<Byte>
  {
    n.write(VERSION) + (Block(n, c, |xs|, xs) + (Block(n, d, |ys|, ys) + (Block(n, d, |zs|, zs) + [])))
  }

  function ReadFile<S, T, U, V>(n: Numbers, c: Coder<S, T>, d: Coder<U, V>, data: seq<Byte>): (seq<T>, seq<V>, seq<V>)
  {
    var version := n.read(data, 0);
    var xs := ReadBlock(n, c, data, version.1);
    var ys := ReadBlock(n, d, data, version.1 + xs.1);
    var zs := ReadBlock(n, d, data, version.1 + xs.1 + ys.1);
    (xs.0, ys.0, zs.0)
  }

  /** `toBinary`: the bytes of all chunks. */
  function GraphBytes(n: Numbers, g: Graph): Option<seq<Byte>>
  {
    if !Writable(g.ids) then None else Some(FileBytes(n, Ids(n), Lists(n), g.ids, g.follows, g.mutes))
  }

  /** `fromBinary`, up to the point where the lists are read. It is total: reading beyond the end gives zeros. */
  function FromBytes(n: Numbers, data: seq<Byte>): ReadGraph
  {
    var r := ReadFile(n, Ids(n), Lists(n), data);
    ReadGraph(r.0, r.1, r.2)
  }

  // ---- round trip ----

  /** What a number comes back as: its low 32 bits, read as a signed number. */
  function Back(v: nat): int { Signed(ToUint32(v)) }

  function BackList(back: nat -> int, l: List): ReadList
  {
    ReadList(back(l.owner), BackMany(back, Written(l)), back(l.createdAt))
  }

  function BackId(back: nat -> int, id: Id): ReadId { ReadId(Lower(id.hex), back(id.id)) }

  /** The reader takes as many entries of a list as were written. */
  predicate Counted(back: nat -> int, l: List) { Times(back(l.limit)) == |Written(l)| }

  predicate KeyFits(id: Id) { |id.hex| == 2 * KEY_BYTES }

  function ListAs(back: nat -> int): List -> ReadList { (l: List) => BackList(back, l) }

  function IdAs(back: nat -> int): Id -> ReadId { (id: Id) => BackId(back, id) }

  function CountedAs(back: nat -> int): List -> bool { (l: List) => Counted(back, l) }

  /** All numbers come back, those below 2^31 as they are, the others as something else; each takes a byte at least. */
  ghost predicate Sound(n: Numbers, back: nat -> int, data: seq<Byte>, at: Layout)
  {
    && Lays(at, data)
    && (forall v: nat :: ReadsBack(n, back, data, at, v))
    && (forall v: nat :: Times(back(v)) == v <==> v < TWO31)
    && (forall v: nat :: n.write(v) != [])
  }

  lemma VarintSound(data: seq<Byte>)
    ensures Sound(VARINT, Back, data, LayoutOf(data))
  {
    LayoutLays(data);
    forall v: nat ensures ReadsBack(VARINT, Back, data, LayoutOf(data), v) {
      forall offset: nat | At(data, offset, VARINT.write(v))
        ensures VARINT.read(data, offset) == (Back(v), |VARINT.write(v)|)
      {
        DecodeOfEncode(data, offset, ToUint32(v));
        SmallMod(ToUint32(v), 0x1_0000_0000);
      }
    }
    forall v: nat ensures Times(Back(v)) == v <==> v < TWO31 {
      CountBackIff(v);
    }
  }

  lemma CountBackIff(v: nat)
    ensures Times(Back(v)) == v <==> v < TWO31
  {
    SignedIff(v);
  }

  /** A list counted in 31 bits is read as it was written exactly when it announces no more than it has. */
  lemma CountedIff(l: List)
    requires l.limit < TWO31
    ensures Counted(Back, l) <==> l.limit <= |l.outs|
  {
    CountBackIff(l.limit);
  }

  predicate Always(v: nat) { true }

  lemma NumbersDecided(n: Numbers, back: nat -> int, other: nat -> int, data: seq<Byte>, at: Layout, vs: seq<nat>)
    requires Sound(n, back, data, at)
    ensures DecidesAll(Always, n, back, other, data, at, vs) && AllGood(Always, vs)
  {
    forall i | 0 <= i < |vs| ensures Decides(Always, n, back, other, data, at, vs[i]) {
      assert ReadsBack(n, back, data, at, vs[i]);
    }
  }

  /**
   A block comes back as `other` says exactly when its count is read as the number of its values,
   each of them is good, and `other` says what comes back; and then the next piece starts where the block ends.
   */
  lemma BlockIff<S, T>(n: Numbers, backNumber: nat -> int, good: S -> bool, c: Coder<S, T>, back: S -> T, other: S -> T,
                       data: seq<Byte>, at: Layout, offset: nat, count: nat, xs: seq<S>, rest: seq<Byte>)
    requires Sound(n, backNumber, data, at) && at(offset, Block(n, c, count, xs) + rest)
    requires DecidesAll(good, c, back, other, data, at, xs)
    ensures ReadBlock(n, c, data, offset).0 == BackMany(other, xs)
            <==> Times(backNumber(count)) == |xs| && AllGood(good, xs) && BackMany(other, xs) == BackMany(back, xs)
    ensures Times(backNumber(count)) == |xs| && AllGood(good, xs) ==>
              ReadBlock(n, c, data, offset) == (BackMany(back, xs), |Block(n, c, count, xs)|)
    ensures at(offset + |Block(n, c, count, xs)|, rest)
  {
    assert Splits(at, offset, Block(n, c, count, xs), rest);
    assert ReadsBack(n, backNumber, data, at, count);
    ReadNext(n, backNumber, data, at, offset, count, WriteMany(c, xs));
    var k := |n.write(count)|;
    if Times(backNumber(count)) == |xs| {
      ManyIff(good, c, back, other, data, at, offset + k, xs);
    } else {
      ReadManyCount(c, data, offset + k, Times(backNumber(count)));
    }
  }

  lemma {:induction false} ReadManyCount<S, T>(c: Coder<S, T>, data: seq<Byte>, offset: nat, count: nat)
    ensures |ReadMany(c, data, offset, count).0| == count
    decreases count
  {
    if count > 0 {
      ReadManyCount(c, data, offset + c.read(data, offset).1, count - 1);
    }
  }

  lemma UsersBack(n: Numbers, back: nat -> int, data: seq<Byte>, at: Layout, offset: nat, count: nat, vs: seq<nat>)
    requires Sound(n, back, data, at) && at(offset, Block(n, n, count, vs))
    ensures Times(back(count)) == |vs| ==> ReadBlock(n, n, data, offset) == (BackMany(back, vs), |Block(n, n, count, vs)|)
    ensures Times(back(count)) != |vs| ==> |ReadBlock(n, n, data, offset).0| != |vs|
  {
    var block := Block(n, n, count, vs);
    assert block + [] == block;
    NumbersDecided(n, back, back, data, at, vs);
    BlockIff(n, back, Always, n, back, back, data, at, offset, count, vs, []);
    assert ReadsBack(n, back, data, at, count);
    ReadNext(n, back, data, at, offset, count, WriteMany(n, vs));
    ReadManyCount(n, data, offset + |n.write(count)|, Times(back(count)));
  }

  /** A list comes back when its count is read right, and otherwise its entries are too many or too few. */
  lemma ListBack(n: Numbers, back: nat -> int, other: nat -> int, data: seq<Byte>, at: Layout, offset: nat, l: List)
    requires Sound(n, back, data, at) && at(offset, ListBytes(n, l))
    ensures Counted(back, l) ==> ReadOneList(n, data, offset) == (BackList(back, l), |ListBytes(n, l)|)
    ensures !Counted(back, l) ==> ReadOneList(n, data, offset).0 != BackList(other, l)
  {
    var owner, time, block := n.write(l.owner), n.write(l.createdAt), Block(n, n, l.limit, Written(l));
    assert ReadsBack(n, back, data, at, l.owner) && ReadsBack(n, back, data, at, l.createdAt);
    ReadNext(n, back, data, at, offset, l.owner, time + block);
    ReadNext(n, back, data, at, offset + |owner|, l.createdAt, block);
    UsersBack(n, back, data, at, offset + |owner| + |time|, l.limit, Written(l));
  }

  lemma ListDecided(n: Numbers, back: nat -> int, other: nat -> int, data: seq<Byte>, at: Layout, l: List)
    requires Sound(n, back, data, at)
    ensures Decides(CountedAs(back), Lists(n), ListAs(back), ListAs(other), data, at, l)
  {
    forall offset: nat | at(offset, ListBytes(n, l))
      ensures Counted(back, l) ==> ReadOneList(n, data, offset) == (BackList(back, l), |ListBytes(n, l)|)
      ensures !Counted(back, l) ==> ReadOneList(n, data, offset).0 != BackList(other, l)
    {
      ListBack(n, back, other, data, at, offset, l);
    }
  }

  lemma {:induction false} LowerLength(s: string)
    ensures |Lower(s)| == |s|
  {
    if s != "" { LowerLength(s[1..]); }
  }

  lemma {:induction false} HexLength(bytes: seq<Byte>)
    ensures |BytesToHex(bytes)| == 2 * |bytes|
  {
    if bytes != [] { HexLength(bytes[1..]); }
  }

  /** A key of 32 bytes comes back; from a longer one too few are taken, and from a shorter one bytes of the next number. */
  lemma IdBack(n: Numbers, back: nat -> int, data: seq<Byte>, at: Layout, offset: nat, id: Id)
    requires Sound(n, back, data, at) && at(offset, IdBytes(n, id)) && IsHex(id.hex)
    ensures KeyFits(id) ==> ReadOneId(n, data, offset) == (BackId(back, id), |IdBytes(n, id)|)
    ensures !KeyFits(id) ==> ReadOneId(n, data, offset).0.hex != Lower(id.hex)
  {
    var key, number := KeyBytes(id.hex), n.write(id.id);
    var taken := Slice(data, offset, offset + KEY_BYTES);
    HexRoundTrip(id.hex);
    assert Splits(at, offset, key, number);
    assert Holds(at, data, offset, key) && Holds(at, data, offset, key + number);
    if KeyFits(id) {
      assert taken == key;
      assert number + [] == number;
      assert ReadsBack(n, back, data, at, id.id);
      ReadNext(n, back, data, at, offset + KEY_BYTES, id.id, []);
    } else {
      assert number != [];
      LowerLength(id.hex);
      HexLength(taken);
      assert |taken| != |key|;
    }
  }

  lemma IdDecided(n: Numbers, back: nat -> int, other: nat -> int, data: seq<Byte>, at: Layout, id: Id)
    requires Sound(n, back, data, at) && IsHex(id.hex)
    ensures Decides(KeyFits, Ids(n), IdAs(back), IdAs(other), data, at, id)
  {
    forall offset: nat | at(offset, IdBytes(n, id))
      ensures KeyFits(id) ==> ReadOneId(n, data, offset) == (BackId(back, id), |IdBytes(n, id)|)
      ensures !KeyFits(id) ==> ReadOneId(n, data, offset).0 != BackId(other, id)
    {
      IdBack(n, back, data, at, offset, id);
    }
  }

  predicate ListsFit(back: nat -> int, ls: seq<List>) { |ls| < TWO31 && AllGood(CountedAs(back), ls) }

  predicate IdsFit(ids: seq<Id>) { |ids| < TWO31 && AllGood(KeyFits, ids) }

  /** Keys have 64 digits, every list is counted right, and no block has 2^31 entries. */
  predicate Fits(back: nat -> int, g: Graph) { IdsFit(g.ids) && ListsFit(back, g.follows) && ListsFit(back, g.mutes) }

  function BackLists(back: nat -> int, ls: seq<List>): seq<ReadList> { BackMany(ListAs(back), ls) }

  function BackIds(back: nat -> int, ids: seq<Id>): seq<ReadId> { BackMany(IdAs(back), ids) }

  function BackGraph(back: nat -> int, g: Graph): ReadGraph
  {
    ReadGraph(BackIds(back, g.ids), BackLists(back, g.follows), BackLists(back, g.mutes))
  }

  /** The block at `offset` is read as `wanted` exactly if it fits; and if so it has the length `length`. */
  ghost predicate BlockAt<S, T>(n: Numbers, c: Coder<S, T>, data: seq<Byte>, offset: nat, wanted: seq<T>, length: nat, fits: bool)
  {
    var r := ReadBlock(n, c, data, offset);
    (r.0 == wanted <==> fits) && (fits ==> r.1 == length)
  }

  ghost predicate FitsAs<S, T>(good: S -> bool, back: S -> T, other: S -> T, xs: seq<S>)
  {
    |xs| < TWO31 && AllGood(good, xs) && BackMany(other, xs) == BackMany(back, xs)
  }

  lemma BlockDecided<S, T>(n: Numbers, backNumber: nat -> int, good: S -> bool, c: Coder<S, T>, back: S -> T, other: S -> T,
                           data: seq<Byte>, at: Layout, offset: nat, xs: seq<S>, rest: seq<Byte>)
    requires Sound(n, backNumber, data, at) && at(offset, Block(n, c, |xs|, xs) + rest)
    requires DecidesAll(good, c, back, other, data, at, xs)
    ensures BlockAt(n, c, data, offset, BackMany(other, xs), |Block(n, c, |xs|, xs)|, FitsAs(good, back, other, xs))
    ensures at(offset + |Block(n, c, |xs|, xs)|, rest)
  {
    assert Times(backNumber(|xs|)) == |xs| <==> |xs| < TWO31;
    BlockIff(n, backNumber, good, c, back, other, data, at, offset, |xs|, xs, rest);
  }

  /** A file from its blocks, each of which starts where the one before ends. */
  lemma FileOf<S, T, U, V>(n: Numbers, data: seq<Byte>, c: Coder<S, T>, d: Coder<U, V>,
                           xs: seq<T>, ys: seq<V>, zs: seq<V>, o: nat, p: nat, q: nat, r: nat)
    requires n.read(data, 0).1 == o && ReadBlock(n, c, data, o) == (xs, p)
    requires ReadBlock(n, d, data, o + p) == (ys, q) && ReadBlock(n, d, data, o + p + q) == (zs, r)
    ensures ReadFile(n, c, d, data) == (xs, ys, zs)
  {
  }

  /** The blocks of a file decide one after the other whether it is read as wanted. */
  lemma FileFromBlocks<S, T, U, V>(n: Numbers, data: seq<Byte>, c: Coder<S, T>, d: Coder<U, V>, xs: seq<T>, ys: seq<V>, zs: seq<V>,
                                   o: nat, p: nat, q: nat, r: nat, a: bool, b: bool, e: bool)
    requires n.read(data, 0).1 == o && BlockAt(n, c, data, o, xs, p, a)
    requires BlockAt(n, d, data, o + p, ys, q, b) && BlockAt(n, d, data, o + p + q, zs, r, e)
    ensures ReadFile(n, c, d, data) == (xs, ys, zs) <==> a && b && e
  {
    var first := ReadBlock(n, c, data, o);
    if a {
      SecondBlock(n, data, c, d, xs, ys, zs, o, p, q, b, e);
    } else {
      FileOf(n, data, c, d, first.0, ReadBlock(n, d, data, o + first.1).0,
             ReadBlock(n, d, data, o + first.1 + ReadBlock(n, d, data, o + first.1).1).0, o, first.1,
             ReadBlock(n, d, data, o + first.1).1, ReadBlock(n, d, data, o + first.1 + ReadBlock(n, d, data, o + first.1).1).1);
    }
  }

  /** The first block has been read as wanted. */
  lemma SecondBlock<S, T, U, V>(n: Numbers, data: seq<Byte>, c: Coder<S, T>, d: Coder<U, V>, xs: seq<T>, ys: seq<V>, zs: seq<V>,
                                o: nat, p: nat, q: nat, b: bool, e: bool)
    requires n.read(data, 0).1 == o && ReadBlock(n, c, data, o) == (xs, p)
    requires ReadBlock(n, d, data, o + p).0 == ys <==> b
    requires b ==> ReadBlock(n, d, data, o + p).1 == q && (ReadBlock(n, d, data, o + p + q).0 == zs <==> e)
    ensures ReadFile(n, c, d, data) == (xs, ys, zs) <==> b && e
  {
    var second := ReadBlock(n, d, data, o + p);
    var third := ReadBlock(n, d, data, o + p + second.1);
    FileOf(n, data, c, d, xs, second.0, third.0, o, p, second.1, third.1);
  }

  lemma LastTwoDecided<U, V>(n: Numbers, back: nat -> int, good: U -> bool, d: Coder<U, V>, g: U -> V, g': U -> V,
                             data: seq<Byte>, at: Layout, offset: nat, ys: seq<U>, zs: seq<U>)
    requires Sound(n, back, data, at) && DecidesAll(good, d, g, g', data, at, ys) && DecidesAll(good, d, g, g', data, at, zs)
    requires at(offset, Block(n, d, |ys|, ys) + (Block(n, d, |zs|, zs) + []))
    ensures BlockAt(n, d, data, offset, BackMany(g', ys), |Block(n, d, |ys|, ys)|, FitsAs(good, g, g', ys))
    ensures BlockAt(n, d, data, offset + |Block(n, d, |ys|, ys)|, BackMany(g', zs), |Block(n, d, |zs|, zs)|, FitsAs(good, g, g', zs))
  {
    BlockDecided(n, back, good, d, g, g', data, at, offset, ys, Block(n, d, |zs|, zs) + []);
    BlockDecided(n, back, good, d, g, g', data, at, offset + |Block(n, d, |ys|, ys)|, zs, []);
  }

  /** For any sound coders, a file comes back as `other` says exactly when its three blocks fit. */
  lemma FileIff<S, T, U, V>(n: Numbers, back: nat -> int, data: seq<Byte>, at: Layout,
                            goodX: S -> bool, c: Coder<S, T>, f: S -> T, f': S -> T,
                            goodY: U -> bool, d: Coder<U, V>, g: U -> V, g': U -> V, xs: seq<S>, ys: seq<U>, zs: seq<U>)
    requires Sound(n, back, data, at) && DecidesAll(goodX, c, f, f', data, at, xs)
    requires DecidesAll(goodY, d, g, g', data, at, ys) && DecidesAll(goodY, d, g, g', data, at, zs)
    requires at(0, FileBytes(n, c, d, xs, ys, zs))
    ensures ReadFile(n, c, d, data) == (BackMany(f', xs), BackMany(g', ys), BackMany(g', zs))
            <==> FitsAs(goodX, f, f', xs) && FitsAs(goodY, g, g', ys) && FitsAs(goodY, g, g', zs)
  {
    var first, second, third := Block(n, c, |xs|, xs), Block(n, d, |ys|, ys), Block(n, d, |zs|, zs);
    var o := |n.write(VERSION)|;
    VersionRead(n, back, data, at, first + (second + (third + [])));
    BlockDecided(n, back, goodX, c, f, f', data, at, o, xs, second + (third + []));
    LastTwoDecided(n, back, goodY, d, g, g', data, at, o + |first|, ys, zs);
    FileFromBlocks(n, data, c, d, BackMany(f', xs), BackMany(g', ys), BackMany(g', zs), o, |first|, |second|, |third|,
                   FitsAs(goodX, f, f', xs), FitsAs(goodY, g, g', ys), FitsAs(goodY, g, g', zs));
  }

  lemma VersionRead(n: Numbers, back: nat -> int, data: seq<Byte>, at: Layout, rest: seq<Byte>)
    requires Sound(n, back, data, at) && at(0, n.write(VERSION) + rest)
    ensures n.read(data, 0).1 == |n.write(VERSION)| && at(|n.write(VERSION)|, rest)
  {
    assert ReadsBack(n, back, data, at, VERSION);
    ReadNext(n, back, data, at, 0, VERSION, rest);
  }

  lemma AllIdsDecided(n: Numbers, back: nat -> int, other: nat -> int, data: seq<Byte>, at: Layout, ids: seq<Id>)
    requires Sound(n, back, data, at) && Writable(ids)
    ensures DecidesAll(KeyFits, Ids(n), IdAs(back), IdAs(other), data, at, ids)
  {
    forall i | 0 <= i < |ids|
      ensures Decides(KeyFits, Ids(n), IdAs(back), IdAs(other), data, at, ids[i])
    {
      IdDecided(n, back, other, data, at, ids[i]);
    }
  }

  lemma AllListsDecided(n: Numbers, back: nat -> int, other: nat -> int, data: seq<Byte>, at: Layout, ls: seq<List>)
    requires Sound(n, back, data, at)
    ensures DecidesAll(CountedAs(back), Lists(n), ListAs(back), ListAs(other), data, at, ls)
  {
    forall i | 0 <= i < |ls|
      ensures Decides(CountedAs(back), Lists(n), ListAs(back), ListAs(other), data, at, ls[i])
    {
      ListDecided(n, back, other, data, at, ls[i]);
    }
  }

  lemma FromParts(n: Numbers, data: seq<Byte>, ids: seq<ReadId>, follows: seq<ReadList>, mutes: seq<ReadList>)
    ensures FromBytes(n, data) == ReadGraph(ids, follows, mutes) <==> ReadFile(n, Ids(n), Lists(n), data) == (ids, follows, mutes)
  {
  }

  lemma FitsParts(back: nat -> int, other: nat -> int, g: Graph)
    ensures Fits(back, g) && BackGraph(other, g) == BackGraph(back, g)
            <==> && FitsAs(KeyFits, IdAs(back), IdAs(other), g.ids)
                 && FitsAs(CountedAs(back), ListAs(back), ListAs(other), g.follows)
                 && FitsAs(CountedAs(back), ListAs(back), ListAs(other), g.mutes)
  {
  }

  /** With numbers taken as `other` takes them, the graph comes back exactly when it fits and that is what its numbers come back as. */
  lemma GraphIff(n: Numbers, back: nat -> int, other: nat -> int, data: seq<Byte>, at: Layout, g: Graph)
    requires Writable(g.ids) && Sound(n, back, data, at)
    requires at(0, FileBytes(n, Ids(n), Lists(n), g.ids, g.follows, g.mutes))
    ensures FromBytes(n, data) == BackGraph(other, g) <==> Fits(back, g) && BackGraph(other, g) == BackGraph(back, g)
  {
    FromParts(n, data, BackIds(other, g.ids), BackLists(other, g.follows), BackLists(other, g.mutes));
    FitsParts(back, other, g);
    AllIdsDecided(n, back, other, data, at, g.ids);
    AllListsDecided(n, back, other, data, at, g.follows);
    AllListsDecided(n, back, other, data, at, g.mutes);
    FileIff(n, back, data, at, KeyFits, Ids(n), IdAs(back), IdAs(other),
            CountedAs(back), Lists(n), ListAs(back), ListAs(other), g.ids, g.follows, g.mutes);
  }

  /**
   `fromBinary` after `toBinary`, for every graph that can be written: every key comes back in lower
   case, and every number as its low 32 bits read as a signed number, exactly when keys have 64
   digits and every list announces what it has.
   */
  lemma FileRoundTrip(g: Graph)
    requires Writable(g.ids)
    ensures GraphBytes(VARINT, g).Some?
    ensures FromBytes(VARINT, GraphBytes(VARINT, g).value) == BackGraph(Back, g) <==> Fits(Back, g)
  {
    var data := GraphBytes(VARINT, g).value;
    VarintSound(data);
    LayoutLays(data);
    GraphIff(VARINT, Back, Back, data, LayoutOf(data), g);
  }

  function Itself(v: nat): int { v }

  predicate Small(vs: seq<nat>) { forall i | 0 <= i < |vs| :: vs[i] < TWO31 }

  predicate SmallList(l: List) { l.owner < TWO31 && l.createdAt < TWO31 && Small(Written(l)) }

  predicate SmallLists(ls: seq<List>) { forall i | 0 <= i < |ls| :: SmallList(ls[i]) }

  predicate SmallIds(ids: seq<Id>) { forall i | 0 <= i < |ids| :: ids[i].id < TWO31 }

  /** Two ways to read values back agree on a list exactly when they agree on each value. */
  lemma {:induction false} SameBackIff<S, T>(f: S -> T, g: S -> T, xs: seq<S>)
    ensures BackMany(f, xs) == BackMany(g, xs) <==> forall i | 0 <= i < |xs| :: f(xs[i]) == g(xs[i])
  {
    if xs != [] {
      SameBackIff(f, g, xs[1..]);
      var p, q := BackMany(f, xs), BackMany(g, xs);
      assert p[1..] == BackMany(f, xs[1..]) && q[1..] == BackMany(g, xs[1..]);
      assert p == [p[0]] + p[1..] && q == [q[0]] + q[1..];
      assert xs == [xs[0]] + xs[1..];
    }
  }

  lemma ListExactIff(l: List)
    ensures BackList(Back, l) == BackList(Itself, l) <==> SmallList(l)
  {
    SignedIff(l.owner);
    SignedIff(l.createdAt);
    SameBackIff(Back, Itself, Written(l));
    forall i | 0 <= i < |Written(l)| ensures Back(Written(l)[i]) == Itself(Written(l)[i]) <==> Written(l)[i] < TWO31 {
      SignedIff(Written(l)[i]);
    }
  }

  lemma ListsExactIff(ls: seq<List>)
    ensures BackLists(Back, ls) == BackLists(Itself, ls) <==> SmallLists(ls)
  {
    SameBackIff(ListAs(Back), ListAs(Itself), ls);
    forall i | 0 <= i < |ls| ensures BackList(Back, ls[i]) == BackList(Itself, ls[i]) <==> SmallList(ls[i]) {
      ListExactIff(ls[i]);
    }
  }

  lemma IdsExactIff(ids: seq<Id>)
    ensures BackIds(Back, ids) == BackIds(Itself, ids) <==> SmallIds(ids)
  {
    SameBackIff(IdAs(Back), IdAs(Itself), ids);
    forall i | 0 <= i < |ids| ensures BackId(Back, ids[i]) == BackId(Itself, ids[i]) <==> ids[i].id < TWO31 {
      SignedIff(ids[i].id);
    }
  }

  /**
   The file gives the graph back unchanged, but for the case of its keys, exactly when it fits and
   every number in it is below 2^31.
   */
  lemma FileExactIff(g: Graph)
    requires Writable(g.ids)
    ensures FromBytes(VARINT, GraphBytes(VARINT, g).value) == BackGraph(Itself, g)
            <==> Fits(Back, g) && SmallIds(g.ids) && SmallLists(g.follows) && SmallLists(g.mutes)
  {
    var data := GraphBytes(VARINT, g).value;
    VarintSound(data);
    LayoutLays(data);
    GraphIff(VARINT, Back, Itself, data, LayoutOf(data), g);
    IdsExactIff(g.ids);
    ListsExactIff(g.follows);
    ListsExactIff(g.mutes);
  }

  lemma WrongBytes(n: Numbers, a: nat, b: nat, t: nat)
    ensures WriteMany(Lists(n), [List(a, t, 1, []), List(b, t, 0, [])])
            == n.write(a) + (n.write(t) + (Block(n, n, 1, [b]) + (n.write(t) + n.write(0))))
  {
    var first, second := List(a, t, 1, []), List(b, t, 0, []);
    assert [first, second][1..] == [second] && [second][1..] == [] && [b][1..] == [];
    assert ListBytes(n, first) == n.write(a) + (n.write(t) + n.write(1));
    assert ListBytes(n, second) == n.write(b) + (n.write(t) + n.write(0));
    assert Lists(n).write(first) == ListBytes(n, first) && Lists(n).write(second) == ListBytes(n, second);
    assert WriteMany(Lists(n), [second]) == ListBytes(n, second);
    assert WriteMany(n, [b]) == n.write(b);
  }

  /** Announcing one entry more than a list has takes the next list's owner for an entry. */
  lemma WrongCountReads(n: Numbers, back: nat -> int, data: seq<Byte>, at: Layout, a: nat, b: nat, t: nat)
    requires Sound(n, back, data, at) && at(0, data)
    requires data == WriteMany(Lists(n), [List(a, t, 1, []), List(b, t, 0, [])])
    ensures ReadOneList(n, data, 0).0 == ReadList(back(a), [back(b)], back(t))
  {
    var taken, rest := Block(n, n, 1, [b]), n.write(t) + n.write(0);
    WrongBytes(n, a, b, t);
    ReadNext(n, back, data, at, 0, a, n.write(t) + (taken + rest));
    ReadNext(n, back, data, at, |n.write(a)|, t, taken + rest);
    NumbersDecided(n, back, back, data, at, [b]);
    BlockIff(n, back, Always, n, back, back, data, at, |n.write(a)| + |n.write(t)|, 1, [b], rest);
    assert BackMany(back, [b]) == [back(b)];
  }

  /** So it does in the file: the list is not counted right, and is read with the next owner in it. */
  lemma WrongCountShiftsTheRest(a: nat, b: nat, t: nat)
    ensures !Counted(Back, List(a, t, 1, [])) && Counted(Back, List(b, t, 0, []))
    ensures var data := WriteMany(Lists(VARINT), [List(a, t, 1, []), List(b, t, 0, [])]);
            ReadOneList(VARINT, data, 0).0 == ReadList(Back(a), [Back(b)], Back(t))
  {
    var data := WriteMany(Lists(VARINT), [List(a, t, 1, []), List(b, t, 0, [])]);
    CountedIff(List(a, t, 1, []));
    CountedIff(List(b, t, 0, []));
    VarintSound(data);
    LayoutLays(data);
    WrongCountReads(VARINT, Back, data, LayoutOf(data), a, b, t);
  }

  // ---- the writer ----

  ghost predicate WritesVar(n: Numbers, v: nat) { n.write(v) == Var(v) }

  /** `n` writes numbers as `writeVar` does. */
  ghost predicate Writes(n: Numbers) { forall v: nat :: WritesVar(n, v) }

  ghost predicate ListCoded(c: Coder<List, ReadList>, n: Numbers, l: List) { c.write(l) == ListBytes(n, l) }

  ghost predicate ListRead(c: Coder<List, ReadList>, n: Numbers, data: seq<Byte>, offset: nat)
  {
    c.read(data, offset) == ReadOneList(n, data, offset)
  }

  /** `c` codes lists as `Lists(n)` does. */
  ghost predicate ListCoder(c: Coder<List, ReadList>, n: Numbers)
  {
    && (forall l: List :: ListCoded(c, n, l))
    && (forall data: seq<Byte>, offset: nat :: ListRead(c, n, data, offset))
  }

  ghost predicate IdCoded(c: Coder<Id, ReadId>, n: Numbers, id: Id) { c.write(id) == IdBytes(n, id) }

  ghost predicate IdRead(c: Coder<Id, ReadId>, n: Numbers, data: seq<Byte>, offset: nat)
  {
    c.read(data, offset) == ReadOneId(n, data, offset)
  }

  /** `c` codes ids as `Ids(n)` does. */
  ghost predicate IdCoder(c: Coder<Id, ReadId>, n: Numbers)
  {
    && (forall id: Id :: IdCoded(c, n, id))
    && (forall data: seq<Byte>, offset: nat :: IdRead(c, n, data, offset))
  }

  function Flat(chunks: seq<seq<Byte>>): seq<Byte>
  {
    if chunks == [] then [] else Flat(chunks[..|chunks| - 1]) + chunks[|chunks| - 1]
  }

  lemma FlatMore(chunks: seq<seq<Byte>>, chunk: seq<Byte>)
    ensures Flat(chunks + [chunk]) == Flat(chunks) + chunk
  {
    assert (chunks + [chunk])[..|chunks|] == chunks;
  }

  predicate AllFull(chunks: seq<seq<Byte>>) { forall i | 0 <= i < |chunks| :: |chunks[i]| == CHUNK_SIZE }

  /** The buffer of `toBinaryChunks`. A full buffer is handed out and a new one taken. */
  class Writer {
    var buf: array<Byte>
    var pos: nat
    var out: seq<seq<Byte>>
    /** Everything written so far. */
    ghost var contents: seq<Byte>

    ghost predicate Valid()
      reads this, buf
    {
      && buf.Length == CHUNK_SIZE && pos <= CHUNK_SIZE && AllFull(out)
      && contents == Flat(out) + buf[..pos]
    }

    constructor ()
      ensures Valid() && fresh(buf) && contents == []
    {
      buf := new Byte[CHUNK_SIZE];
      pos := 0;
      out := [];
      contents := [];
    }

    /** Hands out a full buffer. */
    method Flush()
      requires Valid() && pos == CHUNK_SIZE
      modifies this`buf, this`pos, this`out
      ensures Valid() && fresh(buf) && pos == 0
    {
      var chunk := buf[..pos];
      FlatMore(out, chunk);
      out := out + [chunk];
      buf := new Byte[CHUNK_SIZE];
      pos := 0;
      assert buf[..pos] == [];
    }

    /** The last flush: the rest of the buffer, if there is any, is the last chunk. */
    method Finish()
      requires Valid()
      modifies this`pos, this`out
      ensures Flat(out) == contents
      ensures forall i | 0 <= i < |out| :: 0 < |out[i]| <= CHUNK_SIZE && (i < |out| - 1 ==> |out[i]| == CHUNK_SIZE)
    {
      if pos == 0 { return; }
      var chunk := buf[..pos];
      FlatMore(out, chunk);
      out := out + [chunk];
      pos := 0;
    }

    /** `buf.set`: bytes that fit. */
    method Fill(part: seq<Byte>)
      requires Valid() && pos + |part| <= CHUNK_SIZE
      modifies this`pos, this`contents, buf
      ensures Valid() && contents == old(contents) + part && pos == old(pos) + |part|
    {
      ghost var before := buf[..pos];
      forall k | 0 <= k < |part| { buf[pos + k] := part[k]; }
      assert buf[..pos + |part|] == before + part;
      pos := pos + |part|;
      contents := contents + part;
    }

    method WriteByte(b: Byte)
      requires Valid()
      modifies this, buf
      ensures Valid() && (buf == old(buf) || fresh(buf))
      ensures contents == old(contents) + [b]
    {
      if pos >= buf.Length { Flush(); }
      Fill([b]);
    }

    method WriteBytes(bytes: seq<Byte>)
      requires Valid()
      modifies this, buf
      ensures Valid() && (buf == old(buf) || fresh(buf))
      ensures contents == old(contents) + bytes
    {
      var i := 0;
      while i < |bytes|
        invariant i <= |bytes| && Valid() && (buf == old(buf) || fresh(buf))
        invariant contents == old(contents) + bytes[..i]
        decreases |bytes| - i, pos
      {
        var avail := buf.Length - pos;
        if avail == 0 {
          Flush();
          continue;
        }
        var len := if avail < |bytes| - i then avail else |bytes| - i;
        assert bytes[..i + len] == bytes[..i] + bytes[i..i + len];
        Fill(bytes[i..i + len]);
        i := i + len;
      }
      assert bytes[..i] == bytes;
    }

    method WriteVar(v: nat)
      requires Valid()
      modifies this, buf
      ensures Valid() && (buf == old(buf) || fresh(buf))
      ensures contents == old(contents) + Var(v)
    {
      var n: int := ToUint32(v);
      ghost var done: seq<Byte> := [];
      while n >= 0x80
        invariant Valid() && (buf == old(buf) || fresh(buf))
        invariant contents == old(contents) + done && done + Encode(n) == Var(v)
        decreases n
      {
        EncodeMore(done, n);
        WriteByte(n % 128 + 128);
        done := done + [n % 128 + 128];
        n := ToUint32(n) / 128;
      }
      WriteByte(n % 128);
      assert Var(v) == done + [n % 128];
    }

    method WriteNumber(v: nat, ghost n: Numbers)
      requires Valid() && Writes(n)
      modifies this, buf
      ensures Valid() && (buf == old(buf) || fresh(buf))
      ensures contents == old(contents) + n.write(v)
    {
      assert WritesVar(n, v);
      WriteVar(v);
    }

    method WriteNumbers(vs: seq<nat>, limit: nat, ghost n: Numbers)
      requires Valid() && Writes(n)
      modifies this, buf
      ensures Valid() && (buf == old(buf) || fresh(buf))
      ensures contents == old(contents) + WriteMany(n, if limit < |vs| then vs[..limit] else vs)
    {
      var emitted := 0;
      while emitted < |vs|
        invariant emitted <= |vs| && emitted <= limit && Valid() && (buf == old(buf) || fresh(buf))
        invariant contents == old(contents) + WriteMany(n, vs[..emitted])
      {
        if emitted >= limit {
          assert emitted == limit;
          return;
        }
        WriteMore(n, vs, emitted);
        WriteNumber(vs[emitted], n);
        emitted := emitted + 1;
      }
      assert vs[..emitted] == vs;
    }

    method WriteList(l: List, ghost n: Numbers)
      requires Valid() && Writes(n)
      modifies this, buf
      ensures Valid() && (buf == old(buf) || fresh(buf))
      ensures contents == old(contents) + ListBytes(n, l)
    {
      WriteNumber(l.owner, n);
      WriteNumber(l.createdAt, n);
      WriteNumber(l.limit, n);
      WriteNumbers(l.outs, l.limit, n);
      FourParts(old(contents), n.write(l.owner), n.write(l.createdAt), n.write(l.limit), WriteMany(n, Written(l)));
    }

    method WriteListBy(l: List, ghost n: Numbers, ghost c: Coder<List, ReadList>)
      requires Valid() && Writes(n) && ListCoder(c, n)
      modifies this, buf
      ensures Valid() && (buf == old(buf) || fresh(buf))
      ensures contents == old(contents) + c.write(l)
    {
      assert ListCoded(c, n, l);
      WriteList(l, n);
    }

    method WriteLists(ls: seq<List>, ghost n: Numbers, ghost c: Coder<List, ReadList>)
      requires Valid() && Writes(n) && ListCoder(c, n)
      modifies this, buf
      ensures Valid() && (buf == old(buf) || fresh(buf))
      ensures contents == old(contents) + Block(n, c, |ls|, ls)
    {
      WriteNumber(|ls|, n);
      ghost var start := contents;
      var i := 0;
      while i < |ls|
        invariant i <= |ls| && Valid() && (buf == old(buf) || fresh(buf))
        invariant contents == start + WriteMany(c, ls[..i])
      {
        WriteMore(c, ls, i);
        WriteListBy(ls[i], n, c);
        i := i + 1;
      }
      assert ls[..i] == ls;
    }

    method WriteId(id: Id, ghost n: Numbers)
      requires Valid() && Writes(n) && IsHex(id.hex)
      modifies this, buf
      ensures Valid() && (buf == old(buf) || fresh(buf))
      ensures contents == old(contents) + IdBytes(n, id)
    {
      WriteBytes(KeyBytes(id.hex));
      WriteNumber(id.id, n);
    }

    method WriteIdBy(id: Id, ghost n: Numbers, ghost c: Coder<Id, ReadId>)
      requires Valid() && Writes(n) && IdCoder(c, n) && IsHex(id.hex)
      modifies this, buf
      ensures Valid() && (buf == old(buf) || fresh(buf))
      ensures contents == old(contents) + c.write(id)
    {
      assert IdCoded(c, n, id);
      WriteId(id, n);
    }

    /** The id block; `ok` is false if a key is not hexadecimal, where the source throws. */
    method WriteIds(ids: seq<Id>, ghost n: Numbers, ghost c: Coder<Id, ReadId>) returns (ok: bool)
      requires Valid() && Writes(n) && IdCoder(c, n)
      modifies this, buf
      ensures Valid() && (buf == old(buf) || fresh(buf))
      ensures ok == Writable(ids)
      ensures ok ==> contents == old(contents) + Block(n, c, |ids|, ids)
    {
      WriteNumber(|ids|, n);
      ghost var start := contents;
      var i := 0;
      while i < |ids|
        invariant i <= |ids| && Valid() && (buf == old(buf) || fresh(buf))
        invariant forall k | 0 <= k < i :: IsHex(ids[k].hex)
        invariant contents == start + WriteMany(c, ids[..i])
      {
        if !IsHex(ids[i].hex) { return false; }
        WriteMore(c, ids, i);
        WriteIdBy(ids[i], n, c);
        i := i + 1;
      }
      assert ids[..i] == ids;
      ok := true;
    }
  }

  lemma EncodeMore(done: seq<Byte>, n: int)
    requires n >= 0x80
    ensures done + Encode(n) == (done + [n % 128 + 128]) + Encode(ToUint32(n) / 128)
    ensures ToUint32(n) / 128 < n
  {
  }

  lemma FourParts(base: seq<Byte>, a: seq<Byte>, b: seq<Byte>, c: seq<Byte>, d: seq<Byte>)
    ensures base + a + b + c + d == base + (a + (b + (c + d)))
  {
  }

  lemma {:induction false} WriteMore<S, T>(c: Coder<S, T>, xs: seq<S>, i: nat)
    requires i < |xs|
    ensures WriteMany(c, xs[..i + 1]) == WriteMany(c, xs[..i]) + c.write(xs[i])
    decreases i
  {
    assert xs[..i + 1][1..] == xs[1..][..i];
    if i > 0 {
      assert xs[..i][1..] == xs[1..][..i - 1];
      WriteMore(c, xs[1..], i - 1);
    }
  }

  method WriteGraph(g: Graph, w: Writer, ghost n: Numbers, ghost c: Coder<Id, ReadId>, ghost d: Coder<List, ReadList>) returns (ok: bool)
    requires w.Valid() && w.contents == [] && Writes(n) && IdCoder(c, n) && ListCoder(d, n)
    modifies w, w.buf
    ensures ok == Writable(g.ids)
    ensures w.Valid() && (ok ==> w.contents == FileBytes(n, c, d, g.ids, g.follows, g.mutes))
  {
    w.WriteNumber(VERSION, n);
    ok := w.WriteIds(g.ids, n, c);
    if !ok { return; }
    w.WriteLists(g.follows, n, d);
    w.WriteLists(g.mutes, n, d);
    ghost var ids, follows, mutes := Block(n, c, |g.ids|, g.ids), Block(n, d, |g.follows|, g.follows), Block(n, d, |g.mutes|, g.mutes);
    FourParts([], n.write(VERSION), ids, follows, mutes);
    assert mutes + [] == mutes;
  }

  /**
   `toBinaryChunks`: the chunks in order are the bytes of the graph, none is empty, and every chunk
   but the last is full. Nothing comes out if a key is not hexadecimal.
   */
  method ToBinaryChunks(g: Graph) returns (chunks: Option<seq<seq<Byte>>>)
    ensures chunks.Some? <==> GraphBytes(VARINT, g).Some?
    ensures chunks.Some? ==> Flat(chunks.value) == GraphBytes(VARINT, g).value
    ensures chunks.Some? ==> forall i | 0 <= i < |chunks.value| ::
              0 < |chunks.value[i]| <= CHUNK_SIZE && (i < |chunks.value| - 1 ==> |chunks.value[i]| == CHUNK_SIZE)
  {
    var w := new Writer();
    var ok := WriteGraph(g, w, VARINT, Ids(VARINT), Lists(VARINT));
    if !ok { return None; }
    w.Finish();
    chunks := Some(w.out);
  }

  // ---- the reader ----

  /** `acc` was read, up to `offset`; `left` of the `total` values are still to be read. */
  ghost predicate Progress<S, T>(c: Coder<S, T>, data: seq<Byte>, start: nat, total: nat, acc: seq<T>, offset: nat, left: nat)
  {
    var whole, rest := ReadMany(c, data, start, total), ReadMany(c, data, offset, left);
    acc + rest.0 == whole.0 && offset + rest.1 == start + whole.1
  }

  lemma ProgressStart<S, T>(c: Coder<S, T>, data: seq<Byte>, start: nat, total: nat)
    ensures Progress(c, data, start, total, [], start, total)
  {
    assert [] + ReadMany(c, data, start, total).0 == ReadMany(c, data, start, total).0;
  }

  lemma ProgressStep<S, T>(c: Coder<S, T>, data: seq<Byte>, start: nat, total: nat, acc: seq<T>, offset: nat, left: nat, x: T, k: nat)
    requires Progress(c, data, start, total, acc, offset, left) && left > 0 && c.read(data, offset) == (x, k)
    ensures Progress(c, data, start, total, acc + [x], offset + k, left - 1)
  {
    var rest := ReadMany(c, data, offset + k, left - 1);
    assert acc + ([x] + rest.0) == (acc + [x]) + rest.0;
  }

  lemma ProgressEnd<S, T>(c: Coder<S, T>, data: seq<Byte>, start: nat, total: nat, acc: seq<T>, offset: nat)
    requires Progress(c, data, start, total, acc, offset, 0)
    ensures ReadMany(c, data, start, total) == (acc, offset - start)
  {
    assert acc + [] == acc;
  }

  ghost predicate ReadsVar(n: Numbers, data: seq<Byte>, offset: nat) { n.read(data, offset) == Decode(data, offset) }

  /** `n` reads numbers as `decodeVarint` does. */
  ghost predicate Reads(n: Numbers) { forall data: seq<Byte>, offset: nat :: ReadsVar(n, data, offset) }

  method ReadNumber(data: seq<Byte>, offset: nat, ghost n: Numbers) returns (value: int, bytesRead: nat)
    requires Reads(n)
    ensures (value, bytesRead) == n.read(data, offset)
  {
    assert ReadsVar(n, data, offset);
    value, bytesRead := DecodeVarint(data, offset);
  }

  method ReadNumbersLoop(data: seq<Byte>, from: nat, count: int, ghost n: Numbers) returns (users: seq<int>, offset: nat)
    requires Reads(n)
    ensures ReadMany(n, data, from, Times(count)) == (users, offset - from)
  {
    users, offset := [], from;
    ProgressStart(n, data, from, Times(count));
    var j := 0;
    while j < count
      invariant 0 <= j <= Times(count) && Progress(n, data, from, Times(count), users, offset, Times(count) - j)
    {
      var user, k := ReadNumber(data, offset, n);
      ProgressStep(n, data, from, Times(count), users, offset, count - j, user, k);
      offset := offset + k;
      users := users + [user];
      j := j + 1;
    }
    ProgressEnd(n, data, from, Times(count), users, offset);
  }

  method ReadListAt(data: seq<Byte>, from: nat, ghost n: Numbers) returns (list: ReadList, offset: nat)
    requires Reads(n)
    ensures ReadOneList(n, data, from) == (list, offset - from)
  {
    offset := from;
    var user, u := ReadNumber(data, offset, n);
    offset := offset + u;
    var timestamp, t := ReadNumber(data, offset, n);
    offset := offset + t;
    var followedCount, f := ReadNumber(data, offset, n);
    offset := offset + f;
    var users;
    users, offset := ReadNumbersLoop(data, offset, followedCount, n);
    list := ReadList(user, users, timestamp);
  }

  method ReadListAtBy(data: seq<Byte>, from: nat, ghost n: Numbers, ghost c: Coder<List, ReadList>) returns (list: ReadList, offset: nat)
    requires Reads(n) && ListCoder(c, n)
    ensures offset >= from && c.read(data, from) == (list, offset - from)
  {
    assert ListRead(c, n, data, from);
    list, offset := ReadListAt(data, from, n);
  }

  method ReadListsTimes(data: seq<Byte>, from: nat, count: int, ghost n: Numbers, ghost c: Coder<List, ReadList>)
    returns (lists: seq<ReadList>, offset: nat)
    requires Reads(n) && ListCoder(c, n)
    ensures ReadMany(c, data, from, Times(count)) == (lists, offset - from)
  {
    lists, offset := [], from;
    ProgressStart(c, data, from, Times(count));
    var i := 0;
    while i < count
      invariant 0 <= i <= Times(count) && Progress(c, data, from, Times(count), lists, offset, Times(count) - i)
    {
      var list, next := ReadListAtBy(data, offset, n, c);
      ProgressStep(c, data, from, Times(count), lists, offset, count - i, list, next - offset);
      offset := next;
      lists := lists + [list];
      i := i + 1;
    }
    ProgressEnd(c, data, from, Times(count), lists, offset);
  }

  method ReadListsLoop(data: seq<Byte>, from: nat, ghost n: Numbers, ghost c: Coder<List, ReadList>) returns (lists: seq<ReadList>, offset: nat)
    requires Reads(n) && ListCoder(c, n)
    ensures offset >= from && ReadBlock(n, c, data, from) == (lists, offset - from)
  {
    var count, k := ReadNumber(data, from, n);
    lists, offset := ReadListsTimes(data, from + k, count, n, c);
  }

  method ReadIdAt(data: seq<Byte>, from: nat, ghost n: Numbers) returns (id: ReadId, offset: nat)
    requires Reads(n)
    ensures ReadOneId(n, data, from) == (id, offset - from)
  {
    var hexBytes := Slice(data, from, from + KEY_BYTES);
    offset := from + KEY_BYTES;
    var number, k := ReadNumber(data, offset, n);
    offset := offset + k;
    id := ReadId(BytesToHex(hexBytes), number);
  }

  method ReadIdAtBy(data: seq<Byte>, from: nat, ghost n: Numbers, ghost c: Coder<Id, ReadId>) returns (id: ReadId, offset: nat)
    requires Reads(n) && IdCoder(c, n)
    ensures offset >= from && c.read(data, from) == (id, offset - from)
  {
    assert IdRead(c, n, data, from);
    id, offset := ReadIdAt(data, from, n);
  }

  method ReadIdsTimes(data: seq<Byte>, from: nat, count: int, ghost n: Numbers, ghost c: Coder<Id, ReadId>)
    returns (ids: seq<ReadId>, offset: nat)
    requires Reads(n) && IdCoder(c, n)
    ensures ReadMany(c, data, from, Times(count)) == (ids, offset - from)
  {
    ids, offset := [], from;
    ProgressStart(c, data, from, Times(count));
    var i := 0;
    while i < count
      invariant 0 <= i <= Times(count) && Progress(c, data, from, Times(count), ids, offset, Times(count) - i)
    {
      var id, next := ReadIdAtBy(data, offset, n, c);
      ProgressStep(c, data, from, Times(count), ids, offset, count - i, id, next - offset);
      offset := next;
      ids := ids + [id];
      i := i + 1;
    }
    ProgressEnd(c, data, from, Times(count), ids, offset);
  }

  method ReadIdsLoop(data: seq<Byte>, from: nat, ghost n: Numbers, ghost c: Coder<Id, ReadId>) returns (ids: seq<ReadId>, offset: nat)
    requires Reads(n) && IdCoder(c, n)
    ensures offset >= from && ReadBlock(n, c, data, from) == (ids, offset - from)
  {
    var count, k := ReadNumber(data, from, n);
    ids, offset := ReadIdsTimes(data, from + k, count, n, c);
  }

  lemma FileFrom<S, T, U, V>(n: Numbers, data: seq<Byte>, c: Coder<S, T>, d: Coder<U, V>,
                             xs: seq<T>, ys: seq<V>, zs: seq<V>, o: nat, p: nat, q: nat, r: nat)
    requires n.read(data, 0).1 == o <= p <= q <= r && ReadBlock(n, c, data, o) == (xs, p - o)
    requires ReadBlock(n, d, data, p) == (ys, q - p) && ReadBlock(n, d, data, q) == (zs, r - q)
    ensures ReadFile(n, c, d, data) == (xs, ys, zs)
  {
    assert o + (p - o) == p && o + (p - o) + (q - p) == q;
    FileOf(n, data, c, d, xs, ys, zs, o, p - o, q - p, r - q);
  }

  method ReadGraphLoop(data: seq<Byte>, ghost n: Numbers, ghost c: Coder<Id, ReadId>, ghost d: Coder<List, ReadList>) returns (g: ReadGraph)
    requires Reads(n) && IdCoder(c, n) && ListCoder(d, n)
    ensures ReadFile(n, c, d, data) == (g.ids, g.follows, g.mutes)
  {
    var version, o := ReadNumber(data, 0, n);
    var ids, p := ReadIdsLoop(data, o, n, c);
    var follows, q := ReadListsLoop(data, p, n, d);
    var mutes, r := ReadListsLoop(data, q, n, d);
    g := ReadGraph(ids, follows, mutes);
    FileFrom(n, data, c, d, ids, follows, mutes, o, p, q, r);
  }

  /** `fromBinary`, on any bytes at all. */
  method FromBinary(data: seq<Byte>) returns (g: ReadGraph)
    ensures g == FromBytes(VARINT, data)
  {
    g := ReadGraphLoop(data, VARINT, Ids(VARINT), Lists(VARINT));
  }

  /**
   Writing a graph in chunks and reading the joined chunks: nothing is written for a key that is not
   hexadecimal; of the rest the graphs that fit come back, and unchanged those with numbers below 2^31.
   */
  method WriteThenRead(g: Graph) returns (back: Option<ReadGraph>)
    ensures back.Some? <==> Writable(g.ids)
    ensures back.Some? ==> (back.value == BackGraph(Back, g) <==> Fits(Back, g))
    ensures back.Some? ==>
              (back.value == BackGraph(Itself, g) <==> Fits(Back, g) && SmallIds(g.ids) && SmallLists(g.follows) && SmallLists(g.mutes))
  {
    var chunks := ToBinaryChunks(g);
    if chunks.None? { return None; }
    FileRoundTrip(g);
    FileExactIff(g);
    var read := FromBinary(Flat(chunks.value));
    back := Some(read);
  }
}
