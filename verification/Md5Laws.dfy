/** What the parts of MD5 compute, apart from how: the bit functions choose and compare bits, a
    rotation carries what a multiplication pushes out around to the low end, words are
    little-endian integers, and padding, length and output are those of RFC 1321. */
module Md5Laws {
  import opened Md5Spec

  // ----- The four functions, bit by bit (section 3.4)

  /** Bits of x choose between y and z. */
  lemma FChooses(x: Word, y: Word, z: Word)
    ensures x & F(x, y, z) == x & y && !x & F(x, y, z) == !x & z
  {
  }

  /** Bits of z choose between x and y. */
  lemma GChooses(x: Word, y: Word, z: Word)
    ensures z & G(x, y, z) == z & x && !z & G(x, y, z) == !z & y
  {
  }

  /** The parity of three bits: symmetric, 0 for no bits, and flipped with each argument. */
  lemma HIsParity(x: Word, y: Word, z: Word, d: Word)
    ensures H(x ^ d, y, z) == H(x, y, z) ^ d
    ensures H(0, 0, 0) == 0
  {
  }

  lemma HIsSymmetric(x: Word, y: Word, z: Word)
    ensures H(x, y, z) == H(y, x, z) && H(x, y, z) == H(x, z, y)
  {
  }

  /** The complement of y where x is set or z is not, y elsewhere. */
  lemma IChooses(x: Word, y: Word, z: Word)
    ensures x & I(x, y, z) == x & !y && !z & I(x, y, z) == !z & !y
    ensures !x & z & I(x, y, z) == !x & z & y
  {
  }

  // ----- Words as integers

  function Int(w: Word): (n: nat)
    ensures n < TWO_32
  {
    w as nat
  }

  function Half(w: Word): Word {
    w >> 1
  }

  function Double(w: Word): Word {
    w << 1
  }

  predicate IsOdd(w: Word) {
    w & 1 == 1
  }

  function Low(w: Word): Word {
    w & 1
  }

  function High(w: Word): Word {
    w & 0x8000_0000
  }

  function Rest(w: Word): Word {
    w & 0x7fff_ffff
  }

  function Union(v: Word, w: Word): Word {
    v | w
  }

  predicate AreDisjoint(v: Word, w: Word) {
    v & w == 0
  }

  lemma LowParts(w: Word)
    ensures w == Union(Double(Half(w)), Low(w))
  {
  }

  lemma HighParts(w: Word)
    ensures w == Union(High(w), Rest(w))
  {
  }

  lemma LowBits(h: Word, w: Word)
    ensures Int((h << 1) | (w & 1)) == Int(h << 1) + Int(w & 1)
  {
  }

  lemma HalfBits(w: Word)
    ensures Int((w >> 1) << 1) == 2 * Int(w >> 1)
  {
  }

  lemma HighBits(w: Word)
    ensures Int((w & 0x8000_0000) | (w & 0x7fff_ffff)) == Int(w & 0x8000_0000) + Int(w & 0x7fff_ffff)
    ensures Int(w << 1) == 2 * Int(w & 0x7fff_ffff)
  {
  }

  lemma LowAdds(h: Word, w: Word)
    ensures Int(Union(Double(h), Low(w))) == Int(Double(h)) + Int(Low(w))
  {
    hide Int;
    LowBits(h, w);
  }

  lemma DoubleHalf(w: Word)
    ensures Int(Double(Half(w))) == 2 * Int(Half(w))
  {
    hide Int;
    HalfBits(w);
  }

  lemma HighAdds(w: Word)
    ensures Int(Union(High(w), Rest(w))) == Int(High(w)) + Int(Rest(w))
    ensures Int(Double(w)) == 2 * Int(Rest(w))
  {
    hide Int;
    HighBits(w);
  }

  lemma LowIs(w: Word)
    ensures Int(Low(w)) == if IsOdd(w) then 1 else 0
  {
  }

  lemma HighIs(w: Word)
    ensures Int(High(w)) == 0 || Int(High(w)) == 0x8000_0000
  {
  }

  lemma Halve(w: Word)
    ensures Int(w) == 2 * Int(Half(w)) + if IsOdd(w) then 1 else 0
  {
    hide *;
    LowParts(w);
    LowAdds(Half(w), w);
    DoubleHalf(w);
    LowIs(w);
  }

  lemma Twice(w: Word)
    ensures Int(Double(w)) == 2 * Int(w) % TWO_32
  {
    hide Int, Double, High, Rest, Union;
    HighParts(w);
    HighAdds(w);
    HighIs(w);
  }

  lemma DisjointHalves(v: Word, w: Word)
    requires AreDisjoint(v, w)
    ensures AreDisjoint(Half(v), Half(w)) && Half(Union(v, w)) == Union(Half(v), Half(w))
    ensures IsOdd(Union(v, w)) <==> IsOdd(v) || IsOdd(w)
    ensures !(IsOdd(v) && IsOdd(w))
  {
  }

  lemma OnlyZero(w: Word)
    ensures Int(w) == 0 <==> w == 0
    ensures Union(w, 0) == w == Union(0, w)
  {
  }

  /** Words without a common bit add up. */
  lemma {:induction false} UnionAdds(v: Word, w: Word)
    requires AreDisjoint(v, w)
    ensures Int(Union(v, w)) == Int(v) + Int(w)
    decreases Int(v) + Int(w)
  {
    hide *;
    if Int(v) + Int(w) == 0 {
      OnlyZero(v);
      OnlyZero(w);
    } else {
      Halve(v);
      Halve(w);
      Halve(Union(v, w));
      DisjointHalves(v, w);
      UnionAdds(Half(v), Half(w));
    }
  }

  // ----- Rotation

  function Power(n: nat): (p: nat)
    ensures p > 0
  {
    if n == 0 then 1 else 2 * Power(n - 1)
  }

  function Left(w: Word, n: Amount): Word
    requires n < 32
  {
    w << n
  }

  function Right(w: Word, n: Amount): Word
    requires n < 32
  {
    w >> n
  }

  function Count(n: Amount): nat {
    n as nat
  }

  lemma CountDown(n: Amount)
    requires 0 < n
    ensures Count(n) == Count(n - 1) + 1
  {
  }

  lemma CountUp(n: Amount)
    ensures Count(n) == 0 <==> n == 0
  {
  }

  lemma CountRest(n: Amount)
    requires n <= 32
    ensures Count(n) <= 32 && Count(32 - n) == 32 - Count(n)
  {
  }

  lemma NoShift(w: Word)
    ensures Left(w, 0) == w == Right(w, 0)
  {
  }

  lemma LeftOnce(w: Word, n: Amount)
    requires 0 < n < 32
    ensures Left(w, n) == Double(Left(w, n - 1))
  {
  }

  lemma RightOnce(w: Word, n: Amount)
    requires 0 < n < 32
    ensures Right(w, n) == Half(Right(w, n - 1))
  {
  }

  lemma {:induction false} LeftMultiplies(w: Word, n: Amount)
    requires n < 32
    ensures Int(Left(w, n)) == Int(w) * Power(Count(n)) % TWO_32
    decreases Count(n)
  {
    hide Int, Left, Double, Count;
    CountUp(n);
    if n == 0 {
      NoShift(w);
    } else {
      CountDown(n);
      LeftMultiplies(w, n - 1);
      LeftOnce(w, n);
      Twice(Left(w, n - 1));
      TwiceMod(Int(w), Power(Count(n - 1)));
    }
  }

  lemma TwiceMod(m: nat, p: nat)
    ensures 2 * (m * p % TWO_32) % TWO_32 == m * (2 * p) % TWO_32
  {
    var q := m * p;
    assert m * (2 * p) == 2 * q;
  }

  lemma {:induction false} RightDivides(w: Word, n: Amount)
    requires n < 32
    ensures Int(Right(w, n)) == Int(w) / Power(Count(n))
    decreases Count(n)
  {
    hide Int, Right, Half, IsOdd, Count;
    CountUp(n);
    if n == 0 {
      NoShift(w);
    } else {
      CountDown(n);
      RightDivides(w, n - 1);
      RightOnce(w, n);
      Halve(Right(w, n - 1));
      HalfOf(Int(w), Power(Count(n - 1)));
    }
  }

  lemma HalfOf(m: nat, p: nat)
    requires p > 0
    ensures m / p / 2 == m / (2 * p)
  {
    var q, r := m / p, m % p;
    var h, b := q / 2, q % 2;
    assert m == p * q + r && q == 2 * h + b;
    assert m == 2 * p * h + (p * b + r);
    assert 0 <= p * b + r < 2 * p;
    Quotient(m, 2 * p, h, p * b + r);
  }

  lemma Quotient(m: nat, d: nat, q: nat, r: nat)
    requires d > 0 && r < d && m == d * q + r
    ensures m / d == q
  {
    var more: int := q - m / d;
    assert d * more == m % d - r;
    assert more >= 1 ==> d * more >= d;
    assert more <= -1 ==> d * more <= -1 * d;
  }

  lemma Complementary(w: Word, n: Amount)
    requires 0 < n < 32
    ensures AreDisjoint(Left(w, n), Right(w, 32 - n))
  {
  }

  lemma RotateLeftIs(w: Word, n: Amount)
    requires 0 < n < 32
    ensures RotateLeft(w, n) == Union(Left(w, n), Right(w, 32 - n))
  {
  }

  /** A rotation is a multiplication whose overflow comes back in at the low end. */
  lemma RotateLeftMultiplies(w: Word, n: Amount)
    requires 0 < n < 32
    ensures var k := n as nat;
      k < 32 && Int(RotateLeft(w, n)) == Int(w) * Power(k) % TWO_32 + Int(w) / Power(32 - k)
  {
    hide Int, RotateLeft, Left, Right, AreDisjoint, Union, Power;
    RotateLeftIs(w, n);
    Complementary(w, n);
    UnionAdds(Left(w, n), Right(w, 32 - n));
    LeftMultiplies(w, n);
    RightDivides(w, 32 - n);
    CountRest(n);
  }

  // ----- Little-endian integers (section 2)

  /** The first byte counts ones, the next 256s, and so on. */
  function Value(bytes: seq<Byte>): nat {
    if bytes == [] then 0 else bytes[0] as nat + 0x100 * Value(bytes[1..])
  }

  lemma ValueOfFour(a: Byte, b: Byte, c: Byte, d: Byte)
    ensures Value([a, b, c, d]) == a as nat + 0x100 * b as nat + 0x1_0000 * c as nat + 0x100_0000 * d as nat
  {
    hide Value;
    assert [a, b, c, d] == [a] + ([b] + ([c] + ([d] + [])));
    ValueNext(d, []);
    ValueNext(c, [d] + []);
    ValueNext(b, [c] + ([d] + []));
    ValueNext(a, [b] + ([c] + ([d] + [])));
    NoValue();
  }

  lemma NoValue()
    ensures Value([]) == 0
  {
  }

  lemma DecodeWordBits(a: Byte, b: Byte, c: Byte, d: Byte)
    ensures Int(DecodeWord(a, b, c, d)) == a as nat + 0x100 * b as nat + 0x1_0000 * c as nat + 0x100_0000 * d as nat
  {
  }

  /** A decoded word is the integer that its bytes make up. */
  lemma DecodeWordIs(a: Byte, b: Byte, c: Byte, d: Byte)
    ensures Int(DecodeWord(a, b, c, d)) == Value([a, b, c, d])
  {
    hide Int, DecodeWord, Value;
    ValueOfFour(a, b, c, d);
    DecodeWordBits(a, b, c, d);
  }

  /** The bytes of an encoded word make up its integer. */
  lemma EncodeWordIs(w: Word)
    ensures Value(EncodeWord(w)) == Int(w)
  {
    hide Int, DecodeWord, EncodeWord, Value;
    var b := EncodeWord(w);
    DecodeEncodeWord(w);
    DecodeWordIs(b[0], b[1], b[2], b[3]);
    assert b == [b[0], b[1], b[2], b[3]];
  }

  lemma {:induction false} ValueAppend(a: seq<Byte>, b: seq<Byte>)
    requires |a| == 4
    ensures Value(a + b) == Value(a) + TWO_32 * Value(b)
  {
    hide Value;
    ValueOfFour(a[0], a[1], a[2], a[3]);
    assert a == [a[0], a[1], a[2], a[3]];
    ValueNext(a[3], b);
    ValueNext(a[2], [a[3]] + b);
    ValueNext(a[1], [a[2]] + ([a[3]] + b));
    ValueNext(a[0], [a[1]] + ([a[2]] + ([a[3]] + b)));
    assert a + b == [a[0]] + ([a[1]] + ([a[2]] + ([a[3]] + b)));
  }

  lemma ValueNext(a: Byte, b: seq<Byte>)
    ensures Value([a] + b) == a as nat + 0x100 * Value(b)
  {
    assert ([a] + b)[1..] == b;
  }

  // ----- Integers as words

  function Bits(n: nat): Word {
    if n == 0 then 0 else Grow(Bits(n / 2), n % 2 == 1)
  }

  function Grow(w: Word, odd: bool): Word {
    (w << 1) | if odd then 1 else 0
  }

  lemma Grown(w: Word, odd: bool)
    requires w < 0x8000_0000
    ensures Half(Grow(w, odd)) == w && (IsOdd(Grow(w, odd)) <==> odd)
  {
  }

  lemma IsSmall(w: Word)
    ensures Int(w) < 0x8000_0000 <==> w < 0x8000_0000
  {
  }

  lemma {:induction false} BitsAre(n: nat)
    requires n < TWO_32
    ensures Int(Bits(n)) == n
  {
    hide Int, Half, IsOdd, Grow;
    if n == 0 {
      OnlyZero(0);
    } else {
      BitsAre(n / 2);
      IsSmall(Bits(n / 2));
      Grown(Bits(n / 2), n % 2 == 1);
      Halve(Bits(n));
    }
  }

  function AsWord(n: nat): Word
    requires n < TWO_32
  {
    n as Word
  }

  lemma AsWordInt(w: Word)
    ensures AsWord(Int(w)) == w
  {
  }

  /** Converting an integer below 2^32 to a word keeps its value. */
  lemma AsWordIs(n: nat)
    requires n < TWO_32
    ensures Int(AsWord(n)) == n
  {
    hide Int, AsWord, Bits;
    BitsAre(n);
    AsWordInt(Bits(n));
  }

  lemma CountBytesAre(low: nat, high: nat)
    requires low < TWO_32 && high < TWO_32
    ensures CountBytes(low, high) == EncodeWord(AsWord(low)) + EncodeWord(AsWord(high))
  {
    hide EncodeWord;
    var a, b := AsWord(low), AsWord(high);
    assert [b][1..] == [] && [a, b][1..] == [b];
    assert Encode([b]) == EncodeWord(b) + Encode([]);
    assert Encode([a, b]) == EncodeWord(a) + Encode([b]);
  }

  lemma CountValue(low: nat, high: nat)
    requires low < TWO_32 && high < TWO_32
    ensures Value(CountBytes(low, high)) == low + TWO_32 * high
  {
    hide Int, AsWord, EncodeWord, Value, CountBytes;
    CountBytesAre(low, high);
    AsWordIs(low);
    AsWordIs(high);
    EncodeWordIs(AsWord(low));
    EncodeWordIs(AsWord(high));
    ValueAppend(EncodeWord(AsWord(low)), EncodeWord(AsWord(high)));
  }

  lemma LowAndHigh(m: nat)
    ensures m % TWO_32 + TWO_32 * (m / TWO_32 % TWO_32) == m % 0x1_0000_0000_0000_0000
  {
  }

  /** The length bytes hold the number of bits modulo 2^64, low-order byte first. */
  lemma LengthBytesAre(n: nat)
    ensures Value(LengthBytes(n)) == 8 * n % 0x1_0000_0000_0000_0000
  {
    hide Value, CountBytes;
    CountValue(8 * n % TWO_32, 8 * n / TWO_32 % TWO_32);
    LowAndHigh(8 * n);
  }

  // ----- Initial registers, padding and output (sections 3.1, 3.3 and 3.5)

  /** The registers start as the bytes 01 23 .. ef and fe dc .. 10. */
  lemma InitialBytes()
    ensures Encode(INITIAL.Words())
         == [0x01, 0x23, 0x45, 0x67, 0x89, 0xab, 0xcd, 0xef, 0xfe, 0xdc, 0xba, 0x98, 0x76, 0x54, 0x32, 0x10]
  {
  }

  /** Padding is one set bit and then zeros. */
  lemma PaddingIs(n: nat)
    ensures var bytes := Padding(PadLength(n));
      && |bytes| == PadLength(n) && bytes[0] == 0x80
      && forall i :: 1 <= i < |bytes| ==> bytes[i] == 0
  {
  }

  function HexDigit(d: nat): char
    requires d < 16
  {
    if d < 10 then '0' + d as char else 'a' + (d - 10) as char
  }

  lemma HexDigits(d: nat)
    requires d < 16
    ensures HEX_CHARS[d] == HexDigit(d)
  {
  }

  function HighDigit(b: Byte): (d: nat)
    ensures d < 16
  {
    b as nat / 16
  }

  function LowDigit(b: Byte): (d: nat)
    ensures d < 16
  {
    b as nat % 16
  }

  lemma HexFirst(bytes: seq<Byte>)
    requires bytes != []
    ensures Hex(bytes) == [HexDigit(HighDigit(bytes[0])), HexDigit(LowDigit(bytes[0]))] + Hex(bytes[1..])
  {
    HexDigits(HighDigit(bytes[0]));
    HexDigits(LowDigit(bytes[0]));
  }

  /** Each byte prints as its high digit and then its low digit, in order. */
  lemma {:induction false} HexAt(bytes: seq<Byte>, i: nat)
    requires i < |bytes|
    ensures Hex(bytes)[2 * i] == HexDigit(HighDigit(bytes[i]))
    ensures Hex(bytes)[2 * i + 1] == HexDigit(LowDigit(bytes[i]))
  {
    hide Hex, HexDigit, HighDigit, LowDigit;
    HexFirst(bytes);
    if i > 0 {
      HexAt(bytes[1..], i - 1);
    }
  }
}
