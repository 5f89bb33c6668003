/** MD5 as RFC 1321 describes it: padding, little-endian words, the indexed step
    loop of section 3.4 with rotating registers, and the fold over 64-byte blocks. */
module Md5Spec {

  type Byte = bv8
  type Word = bv32

  /** The number of bits to shift a word by. */
  type Amount = bv6

  const TWO_32: int := 0x1_0000_0000
  const BLOCK_SIZE := 64

  datatype Registers = Registers(a: Word, b: Word, c: Word, d: Word) {
    function Words(): seq<Word> { [a, b, c, d] }

    function Plus(r: Registers): Registers { Registers(a + r.a, b + r.b, c + r.c, d + r.d) }
  }

  const INITIAL := Registers(0x67452301, 0xefcdab89, 0x98badcfe, 0x10325476)

  // ----- Words and bytes (RFC 1321, section 2: low-order byte first)

  function DecodeWord(b0: Byte, b1: Byte, b2: Byte, b3: Byte): Word {
    (b0 as Word) | ((b1 as Word) << 8) | ((b2 as Word) << 16) | ((b3 as Word) << 24)
  }

  function EncodeWord(w: Word): (bytes: seq<Byte>)
    ensures |bytes| == 4
  {
    [(w & 0xff) as Byte, ((w >> 8) & 0xff) as Byte, ((w >> 16) & 0xff) as Byte, ((w >> 24) & 0xff) as Byte]
  }

  function Decode(bytes: seq<Byte>): (words: seq<Word>)
    requires |bytes| % 4 == 0
    ensures |words| == |bytes| / 4
  {
    if bytes == [] then []
    else [DecodeWord(bytes[0], bytes[1], bytes[2], bytes[3])] + Decode(bytes[4..])
  }

  function Encode(words: seq<Word>): (bytes: seq<Byte>)
    ensures |bytes| == 4 * |words|
  {
    if words == [] then [] else EncodeWord(words[0]) + Encode(words[1..])
  }

  lemma DecodeEncodeWord(w: Word)
    ensures var b := EncodeWord(w); DecodeWord(b[0], b[1], b[2], b[3]) == w
  {
  }

  /** Decoding undoes encoding, for every word sequence. */
  lemma {:induction false} DecodeEncode(words: seq<Word>)
    ensures Decode(Encode(words)) == words
  {
    if words != [] {
      DecodeEncodeWord(words[0]);
      DecodeEncode(words[1..]);
      assert Encode(words)[4..] == Encode(words[1..]);
    }
  }

  // ----- One step of section 3.4

  function F(x: Word, y: Word, z: Word): Word { (x & y) | (!x & z) }

  function G(x: Word, y: Word, z: Word): Word { (x & z) | (y & !z) }

  function H(x: Word, y: Word, z: Word): Word { x ^ y ^ z }

  function I(x: Word, y: Word, z: Word): Word { y ^ (x | !z) }

  function RotateLeft(x: Word, n: Amount): Word
    requires 0 < n < 32
  {
    (x << n) | (x >> (32 - n))
  }

  function Rotated(a: Word, b: Word, mix: Word, x: Word, s: Amount, ac: Word): Word
    requires 0 < s < 32
  {
    RotateLeft(a + mix + x + ac, s) + b
  }

  function Mix(i: nat, x: Word, y: Word, z: Word): Word {
    if i < 16 then F(x, y, z) else if i < 32 then G(x, y, z) else if i < 48 then H(x, y, z) else I(x, y, z)
  }

  function WordIndex(i: nat): (k: nat)
    ensures k < 16
  {
    if i < 16 then i
    else if i < 32 then (5 * i + 1) % 16
    else if i < 48 then (3 * i + 5) % 16
    else 7 * i % 16
  }

  function Shift(i: nat): (s: Amount)
    ensures 0 < s < 32
  {
    var c := i % 4;
    if i < 16 then [7, 12, 17, 22][c]
    else if i < 32 then [5, 9, 14, 20][c]
    else if i < 48 then [4, 11, 16, 23][c]
    else [6, 10, 15, 21][c]
  }

  // The table T of section 3.4, taken as given, sixteen entries a round.
  function T1(i: nat): Word {
    match i
    case 0 => 0xd76aa478
    case 1 => 0xe8c7b756
    case 2 => 0x242070db
    case 3 => 0xc1bdceee
    case 4 => 0xf57c0faf
    case 5 => 0x4787c62a
    case 6 => 0xa8304613
    case 7 => 0xfd469501
    case 8 => 0x698098d8
    case 9 => 0x8b44f7af
    case 10 => 0xffff5bb1
    case 11 => 0x895cd7be
    case 12 => 0x6b901122
    case 13 => 0xfd987193
    case 14 => 0xa679438e
    case _ => 0x49b40821
  }

  function T2(i: nat): Word {
    match i
    case 16 => 0xf61e2562
    case 17 => 0xc040b340
    case 18 => 0x265e5a51
    case 19 => 0xe9b6c7aa
    case 20 => 0xd62f105d
    case 21 => 0x2441453
    case 22 => 0xd8a1e681
    case 23 => 0xe7d3fbc8
    case 24 => 0x21e1cde6
    case 25 => 0xc33707d6
    case 26 => 0xf4d50d87
    case 27 => 0x455a14ed
    case 28 => 0xa9e3e905
    case 29 => 0xfcefa3f8
    case 30 => 0x676f02d9
    case _ => 0x8d2a4c8a
  }

  function T3(i: nat): Word {
    match i
    case 32 => 0xfffa3942
    case 33 => 0x8771f681
    case 34 => 0x6d9d6122
    case 35 => 0xfde5380c
    case 36 => 0xa4beea44
    case 37 => 0x4bdecfa9
    case 38 => 0xf6bb4b60
    case 39 => 0xbebfbc70
    case 40 => 0x289b7ec6
    case 41 => 0xeaa127fa
    case 42 => 0xd4ef3085
    case 43 => 0x4881d05
    case 44 => 0xd9d4d039
    case 45 => 0xe6db99e5
    case 46 => 0x1fa27cf8
    case _ => 0xc4ac5665
  }

  function T4(i: nat): Word {
    match i
    case 48 => 0xf4292244
    case 49 => 0x432aff97
    case 50 => 0xab9423a7
    case 51 => 0xfc93a039
    case 52 => 0x655b59c3
    case 53 => 0x8f0ccc92
    case 54 => 0xffeff47d
    case 55 => 0x85845dd1
    case 56 => 0x6fa87e4f
    case 57 => 0xfe2ce6e0
    case 58 => 0xa3014314
    case 59 => 0x4e0811a1
    case 60 => 0xf7537e82
    case 61 => 0xbd3af235
    case 62 => 0x2ad7d2bb
    case _ => 0xeb86d391
  }

  function T(i: nat): Word {
    if i < 16 then T1(i) else if i < 32 then T2(i) else if i < 48 then T3(i) else T4(i)
  }

  /** The register that was updated moves to second place; the others rotate. */
  function Step(r: Registers, i: nat, x: seq<Word>): Registers
    requires |x| == 16
  {
    Registers(r.d, Rotated(r.a, r.b, Mix(i, r.b, r.c, r.d), x[WordIndex(i)], Shift(i), T(i)), r.b, r.c)
  }

  function Steps(r: Registers, x: seq<Word>, n: nat): Registers
    requires |x| == 16
  {
    if n == 0 then r else Step(Steps(r, x, n - 1), n - 1, x)
  }

  function Compress(r: Registers, block: seq<Byte>): Registers
    requires |block| == BLOCK_SIZE
  {
    r.Plus(Steps(r, Decode(block), 64))
  }

  // ----- Folding over a message

  /** Compresses the complete blocks of m; a tail shorter than a block is ignored. */
  function Fold(r: Registers, m: seq<Byte>): Registers
    decreases |m|
  {
    if |m| < BLOCK_SIZE then r else Fold(Compress(r, m[..BLOCK_SIZE]), m[BLOCK_SIZE..])
  }

  lemma {:induction false} FoldBlock(r: Registers, m: seq<Byte>, block: seq<Byte>)
    requires |m| % BLOCK_SIZE == 0 && |block| == BLOCK_SIZE
    ensures Fold(r, m + block) == Compress(Fold(r, m), block)
    decreases |m|
  {
    hide Compress;
    if m == [] {
      assert m + block == block && block[..BLOCK_SIZE] == block;
    } else {
      FoldBlock(Compress(r, m[..BLOCK_SIZE]), m[BLOCK_SIZE..], block);
      assert (m + block)[..BLOCK_SIZE] == m[..BLOCK_SIZE];
      assert (m + block)[BLOCK_SIZE..] == m[BLOCK_SIZE..] + block;
    }
  }

  lemma {:induction false} FoldTail(r: Registers, m: seq<Byte>, tail: seq<Byte>)
    requires |m| % BLOCK_SIZE == 0 && |tail| < BLOCK_SIZE
    ensures Fold(r, m + tail) == Fold(r, m)
    decreases |m|
  {
    hide Compress;
    if m != [] {
      FoldTail(Compress(r, m[..BLOCK_SIZE]), m[BLOCK_SIZE..], tail);
      assert (m + tail)[..BLOCK_SIZE] == m[..BLOCK_SIZE];
      assert (m + tail)[BLOCK_SIZE..] == m[BLOCK_SIZE..] + tail;
    }
  }

  // ----- Padding (sections 3.1 and 3.2) and output (section 3.5)

  function PadLength(n: nat): nat {
    if n % 64 < 56 then 56 - n % 64 else 120 - n % 64
  }

  function Padding(k: nat): (bytes: seq<Byte>)
    ensures |bytes| == k
  {
    seq(k, i => if i == 0 then 0x80 else 0)
  }

  /** A 64-bit count as two words, low-order word first. */
  function CountBytes(low: nat, high: nat): (bytes: seq<Byte>)
    requires low < TWO_32 && high < TWO_32
    ensures |bytes| == 8
  {
    Encode([low as Word, high as Word])
  }

  /** The length in bits modulo 2^64. */
  function LengthBytes(n: nat): (bytes: seq<Byte>)
    ensures |bytes| == 8
  {
    CountBytes(8 * n % TWO_32, 8 * n / TWO_32 % TWO_32)
  }

  function Padded(m: seq<Byte>): seq<Byte> {
    m + Padding(PadLength(|m|)) + LengthBytes(|m|)
  }

  function DigestFrom(r: Registers, m: seq<Byte>): (bytes: seq<Byte>)
    ensures |bytes| == 16
  {
    Encode(Fold(r, Padded(m)).Words())
  }

  function Digest(m: seq<Byte>): (bytes: seq<Byte>)
    ensures |bytes| == 16
  {
    DigestFrom(INITIAL, m)
  }

  predicate PadsTo56(n: nat, k: nat) {
    (n + k) % 64 == 56
  }

  /** Section 3.1: at least one byte of padding is always added, and it is the least
      number that leaves the length at 56 modulo 64; with the 8 length bytes the
      padded message is a whole number of blocks. */
  lemma PaddingIsLeast(m: seq<Byte>)
    ensures var k := PadLength(|m|);
      && 1 <= k <= 64
      && PadsTo56(|m|, k)
      && (forall j :: 1 <= j < k ==> !PadsTo56(|m|, j))
      && |Padded(m)| % 64 == 0
  {
    hide LengthBytes, Padding;
  }

  // ----- Hexadecimal output

  const HEX_CHARS := "0123456789abcdef"

  function Hex(bytes: seq<Byte>): (s: string)
    ensures |s| == 2 * |bytes|
    ensures forall c :: c in s ==> c in HEX_CHARS
  {
    if bytes == [] then ""
    else [HEX_CHARS[bytes[0] as int / 16], HEX_CHARS[bytes[0] as int % 16]] + Hex(bytes[1..])
  }

  lemma {:induction false} HexInjective(x: seq<Byte>, y: seq<Byte>)
    requires Hex(x) == Hex(y)
    ensures x == y
  {
    if x != [] {
      assert Hex(x)[2..] == Hex(x[1..]) && Hex(y)[2..] == Hex(y[1..]);
      HexInjective(x[1..], y[1..]);
      SameHexDigits(x[0], y[0]);
      assert x == [x[0]] + x[1..] && y == [y[0]] + y[1..];
    }
  }

  lemma SameHexDigits(b: Byte, c: Byte)
    requires HEX_CHARS[b as int / 16] == HEX_CHARS[c as int / 16]
    requires HEX_CHARS[b as int % 16] == HEX_CHARS[c as int % 16]
    ensures b == c
  {
    DistinctHexChars();
    assert b as int == c as int;
  }

  lemma DistinctHexChars()
    ensures forall i, j :: 0 <= i < j < 16 ==> HEX_CHARS[i] != HEX_CHARS[j]
  {
  }

  predicate IsValidHash(hash: string) {
    |hash| == 32 && forall c :: c in hash ==> c in HEX_CHARS
  }
}
