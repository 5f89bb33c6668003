/** The streaming MD5 class: a 64-byte buffer, a two-word bit counter and the unrolled
    compression function, proved against Md5Spec. */
module Md5 {
  import opened Md5Spec

  const S11: Amount := 7
  const S12: Amount := 12
  const S13: Amount := 17
  const S14: Amount := 22
  const S21: Amount := 5
  const S22: Amount := 9
  const S23: Amount := 14
  const S24: Amount := 20
  const S31: Amount := 4
  const S32: Amount := 11
  const S33: Amount := 16
  const S34: Amount := 23
  const S41: Amount := 6
  const S42: Amount := 10
  const S43: Amount := 15
  const S44: Amount := 21

  // ----- The operation lists of the four rounds, as the code spells them out

  lemma Schedule1()
    ensures WordIndex(0) == 0 && WordIndex(1) == 1 && WordIndex(2) == 2 && WordIndex(3) == 3
         && WordIndex(4) == 4 && WordIndex(5) == 5 && WordIndex(6) == 6 && WordIndex(7) == 7
         && WordIndex(8) == 8 && WordIndex(9) == 9 && WordIndex(10) == 10 && WordIndex(11) == 11
         && WordIndex(12) == 12 && WordIndex(13) == 13 && WordIndex(14) == 14 && WordIndex(15) == 15
    ensures Shift(0) == S11 && Shift(1) == S12 && Shift(2) == S13 && Shift(3) == S14
         && Shift(4) == S11 && Shift(5) == S12 && Shift(6) == S13 && Shift(7) == S14
         && Shift(8) == S11 && Shift(9) == S12 && Shift(10) == S13 && Shift(11) == S14
         && Shift(12) == S11 && Shift(13) == S12 && Shift(14) == S13 && Shift(15) == S14
    ensures T(0) == 0xd76aa478 && T(1) == 0xe8c7b756 && T(2) == 0x242070db && T(3) == 0xc1bdceee
         && T(4) == 0xf57c0faf && T(5) == 0x4787c62a && T(6) == 0xa8304613 && T(7) == 0xfd469501
         && T(8) == 0x698098d8 && T(9) == 0x8b44f7af && T(10) == 0xffff5bb1 && T(11) == 0x895cd7be
         && T(12) == 0x6b901122 && T(13) == 0xfd987193 && T(14) == 0xa679438e && T(15) == 0x49b40821
  {
  }

  lemma Schedule2()
    ensures WordIndex(16) == 1 && WordIndex(17) == 6 && WordIndex(18) == 11 && WordIndex(19) == 0
         && WordIndex(20) == 5 && WordIndex(21) == 10 && WordIndex(22) == 15 && WordIndex(23) == 4
         && WordIndex(24) == 9 && WordIndex(25) == 14 && WordIndex(26) == 3 && WordIndex(27) == 8
         && WordIndex(28) == 13 && WordIndex(29) == 2 && WordIndex(30) == 7 && WordIndex(31) == 12
    ensures Shift(16) == S21 && Shift(17) == S22 && Shift(18) == S23 && Shift(19) == S24
         && Shift(20) == S21 && Shift(21) == S22 && Shift(22) == S23 && Shift(23) == S24
         && Shift(24) == S21 && Shift(25) == S22 && Shift(26) == S23 && Shift(27) == S24
         && Shift(28) == S21 && Shift(29) == S22 && Shift(30) == S23 && Shift(31) == S24
    ensures T(16) == 0xf61e2562 && T(17) == 0xc040b340 && T(18) == 0x265e5a51 && T(19) == 0xe9b6c7aa
         && T(20) == 0xd62f105d && T(21) == 0x2441453 && T(22) == 0xd8a1e681 && T(23) == 0xe7d3fbc8
         && T(24) == 0x21e1cde6 && T(25) == 0xc33707d6 && T(26) == 0xf4d50d87 && T(27) == 0x455a14ed
         && T(28) == 0xa9e3e905 && T(29) == 0xfcefa3f8 && T(30) == 0x676f02d9 && T(31) == 0x8d2a4c8a
  {
  }

  lemma Schedule3()
    ensures WordIndex(32) == 5 && WordIndex(33) == 8 && WordIndex(34) == 11 && WordIndex(35) == 14
         && WordIndex(36) == 1 && WordIndex(37) == 4 && WordIndex(38) == 7 && WordIndex(39) == 10
         && WordIndex(40) == 13 && WordIndex(41) == 0 && WordIndex(42) == 3 && WordIndex(43) == 6
         && WordIndex(44) == 9 && WordIndex(45) == 12 && WordIndex(46) == 15 && WordIndex(47) == 2
    ensures Shift(32) == S31 && Shift(33) == S32 && Shift(34) == S33 && Shift(35) == S34
         && Shift(36) == S31 && Shift(37) == S32 && Shift(38) == S33 && Shift(39) == S34
         && Shift(40) == S31 && Shift(41) == S32 && Shift(42) == S33 && Shift(43) == S34
         && Shift(44) == S31 && Shift(45) == S32 && Shift(46) == S33 && Shift(47) == S34
    ensures T(32) == 0xfffa3942 && T(33) == 0x8771f681 && T(34) == 0x6d9d6122 && T(35) == 0xfde5380c
         && T(36) == 0xa4beea44 && T(37) == 0x4bdecfa9 && T(38) == 0xf6bb4b60 && T(39) == 0xbebfbc70
         && T(40) == 0x289b7ec6 && T(41) == 0xeaa127fa && T(42) == 0xd4ef3085 && T(43) == 0x4881d05
         && T(44) == 0xd9d4d039 && T(45) == 0xe6db99e5 && T(46) == 0x1fa27cf8 && T(47) == 0xc4ac5665
  {
  }

  lemma Schedule4()
    ensures WordIndex(48) == 0 && WordIndex(49) == 7 && WordIndex(50) == 14 && WordIndex(51) == 5
         && WordIndex(52) == 12 && WordIndex(53) == 3 && WordIndex(54) == 10 && WordIndex(55) == 1
         && WordIndex(56) == 8 && WordIndex(57) == 15 && WordIndex(58) == 6 && WordIndex(59) == 13
         && WordIndex(60) == 4 && WordIndex(61) == 11 && WordIndex(62) == 2 && WordIndex(63) == 9
    ensures Shift(48) == S41 && Shift(49) == S42 && Shift(50) == S43 && Shift(51) == S44
         && Shift(52) == S41 && Shift(53) == S42 && Shift(54) == S43 && Shift(55) == S44
         && Shift(56) == S41 && Shift(57) == S42 && Shift(58) == S43 && Shift(59) == S44
         && Shift(60) == S41 && Shift(61) == S42 && Shift(62) == S43 && Shift(63) == S44
    ensures T(48) == 0xf4292244 && T(49) == 0x432aff97 && T(50) == 0xab9423a7 && T(51) == 0xfc93a039
         && T(52) == 0x655b59c3 && T(53) == 0x8f0ccc92 && T(54) == 0xffeff47d && T(55) == 0x85845dd1
         && T(56) == 0x6fa87e4f && T(57) == 0xfe2ce6e0 && T(58) == 0xa3014314 && T(59) == 0x4e0811a1
         && T(60) == 0xf7537e82 && T(61) == 0xbd3af235 && T(62) == 0x2ad7d2bb && T(63) == 0xeb86d391
  {
  }

  method FF(a: Word, b: Word, c: Word, d: Word, x: Word, s: Amount, ac: Word,
            ghost i: nat, ghost init: Registers, ghost xs: seq<Word>)
    returns (r: Word)
    requires 0 <= i < 16 && |xs| == 16
    requires Registers(a, b, c, d) == Steps(init, xs, i)
    requires x == xs[WordIndex(i)] && s == Shift(i) && ac == T(i)
    ensures Registers(d, r, b, c) == Steps(init, xs, i + 1)
  {
    r := Rotated(a, b, F(b, c, d), x, s, ac);
  }

  method GG(a: Word, b: Word, c: Word, d: Word, x: Word, s: Amount, ac: Word,
            ghost i: nat, ghost init: Registers, ghost xs: seq<Word>)
    returns (r: Word)
    requires 16 <= i < 32 && |xs| == 16
    requires Registers(a, b, c, d) == Steps(init, xs, i)
    requires x == xs[WordIndex(i)] && s == Shift(i) && ac == T(i)
    ensures Registers(d, r, b, c) == Steps(init, xs, i + 1)
  {
    r := Rotated(a, b, G(b, c, d), x, s, ac);
  }

  method HH(a: Word, b: Word, c: Word, d: Word, x: Word, s: Amount, ac: Word,
            ghost i: nat, ghost init: Registers, ghost xs: seq<Word>)
    returns (r: Word)
    requires 32 <= i < 48 && |xs| == 16
    requires Registers(a, b, c, d) == Steps(init, xs, i)
    requires x == xs[WordIndex(i)] && s == Shift(i) && ac == T(i)
    ensures Registers(d, r, b, c) == Steps(init, xs, i + 1)
  {
    r := Rotated(a, b, H(b, c, d), x, s, ac);
  }

  method II(a: Word, b: Word, c: Word, d: Word, x: Word, s: Amount, ac: Word,
            ghost i: nat, ghost init: Registers, ghost xs: seq<Word>)
    returns (r: Word)
    requires 48 <= i < 64 && |xs| == 16
    requires Registers(a, b, c, d) == Steps(init, xs, i)
    requires x == xs[WordIndex(i)] && s == Shift(i) && ac == T(i)
    ensures Registers(d, r, b, c) == Steps(init, xs, i + 1)
  {
    r := Rotated(a, b, I(b, c, d), x, s, ac);
  }

  method Round1(a0: Word, b0: Word, c0: Word, d0: Word, x: seq<Word>, ghost init: Registers)
    returns (a: Word, b: Word, c: Word, d: Word)
    requires |x| == 16 && Registers(a0, b0, c0, d0) == Steps(init, x, 0)
    ensures Registers(a, b, c, d) == Steps(init, x, 16)
  {
    Schedule1();
    hide Rotated, RotateLeft, Mix, F, G, H, I, T, WordIndex, Shift, Step, Steps;
    a, b, c, d := a0, b0, c0, d0;
    a := FF(a, b, c, d, x[0], S11, 0xd76aa478, 0, init, x);
    d := FF(d, a, b, c, x[1], S12, 0xe8c7b756, 1, init, x);
    c := FF(c, d, a, b, x[2], S13, 0x242070db, 2, init, x);
    b := FF(b, c, d, a, x[3], S14, 0xc1bdceee, 3, init, x);
    a := FF(a, b, c, d, x[4], S11, 0xf57c0faf, 4, init, x);
    d := FF(d, a, b, c, x[5], S12, 0x4787c62a, 5, init, x);
    c := FF(c, d, a, b, x[6], S13, 0xa8304613, 6, init, x);
    b := FF(b, c, d, a, x[7], S14, 0xfd469501, 7, init, x);
    a := FF(a, b, c, d, x[8], S11, 0x698098d8, 8, init, x);
    d := FF(d, a, b, c, x[9], S12, 0x8b44f7af, 9, init, x);
    c := FF(c, d, a, b, x[10], S13, 0xffff5bb1, 10, init, x);
    b := FF(b, c, d, a, x[11], S14, 0x895cd7be, 11, init, x);
    a := FF(a, b, c, d, x[12], S11, 0x6b901122, 12, init, x);
    d := FF(d, a, b, c, x[13], S12, 0xfd987193, 13, init, x);
    c := FF(c, d, a, b, x[14], S13, 0xa679438e, 14, init, x);
    b := FF(b, c, d, a, x[15], S14, 0x49b40821, 15, init, x);
  }

  method Round2(a0: Word, b0: Word, c0: Word, d0: Word, x: seq<Word>, ghost init: Registers)
    returns (a: Word, b: Word, c: Word, d: Word)
    requires |x| == 16 && Registers(a0, b0, c0, d0) == Steps(init, x, 16)
    ensures Registers(a, b, c, d) == Steps(init, x, 32)
  {
    Schedule2();
    hide Rotated, RotateLeft, Mix, F, G, H, I, T, WordIndex, Shift, Step, Steps;
    a, b, c, d := a0, b0, c0, d0;
    a := GG(a, b, c, d, x[1], S21, 0xf61e2562, 16, init, x);
    d := GG(d, a, b, c, x[6], S22, 0xc040b340, 17, init, x);
    c := GG(c, d, a, b, x[11], S23, 0x265e5a51, 18, init, x);
    b := GG(b, c, d, a, x[0], S24, 0xe9b6c7aa, 19, init, x);
    a := GG(a, b, c, d, x[5], S21, 0xd62f105d, 20, init, x);
    d := GG(d, a, b, c, x[10], S22, 0x2441453, 21, init, x);
    c := GG(c, d, a, b, x[15], S23, 0xd8a1e681, 22, init, x);
    b := GG(b, c, d, a, x[4], S24, 0xe7d3fbc8, 23, init, x);
    a := GG(a, b, c, d, x[9], S21, 0x21e1cde6, 24, init, x);
    d := GG(d, a, b, c, x[14], S22, 0xc33707d6, 25, init, x);
    c := GG(c, d, a, b, x[3], S23, 0xf4d50d87, 26, init, x);
    b := GG(b, c, d, a, x[8], S24, 0x455a14ed, 27, init, x);
    a := GG(a, b, c, d, x[13], S21, 0xa9e3e905, 28, init, x);
    d := GG(d, a, b, c, x[2], S22, 0xfcefa3f8, 29, init, x);
    c := GG(c, d, a, b, x[7], S23, 0x676f02d9, 30, init, x);
    b := GG(b, c, d, a, x[12], S24, 0x8d2a4c8a, 31, init, x);
  }

  method Round3(a0: Word, b0: Word, c0: Word, d0: Word, x: seq<Word>, ghost init: Registers)
    returns (a: Word, b: Word, c: Word, d: Word)
    requires |x| == 16 && Registers(a0, b0, c0, d0) == Steps(init, x, 32)
    ensures Registers(a, b, c, d) == Steps(init, x, 48)
  {
    Schedule3();
    hide Rotated, RotateLeft, Mix, F, G, H, I, T, WordIndex, Shift, Step, Steps;
    a, b, c, d := a0, b0, c0, d0;
    a := HH(a, b, c, d, x[5], S31, 0xfffa3942, 32, init, x);
    d := HH(d, a, b, c, x[8], S32, 0x8771f681, 33, init, x);
    c := HH(c, d, a, b, x[11], S33, 0x6d9d6122, 34, init, x);
    b := HH(b, c, d, a, x[14], S34, 0xfde5380c, 35, init, x);
    a := HH(a, b, c, d, x[1], S31, 0xa4beea44, 36, init, x);
    d := HH(d, a, b, c, x[4], S32, 0x4bdecfa9, 37, init, x);
    c := HH(c, d, a, b, x[7], S33, 0xf6bb4b60, 38, init, x);
    b := HH(b, c, d, a, x[10], S34, 0xbebfbc70, 39, init, x);
    a := HH(a, b, c, d, x[13], S31, 0x289b7ec6, 40, init, x);
    d := HH(d, a, b, c, x[0], S32, 0xeaa127fa, 41, init, x);
    c := HH(c, d, a, b, x[3], S33, 0xd4ef3085, 42, init, x);
    b := HH(b, c, d, a, x[6], S34, 0x4881d05, 43, init, x);
    a := HH(a, b, c, d, x[9], S31, 0xd9d4d039, 44, init, x);
    d := HH(d, a, b, c, x[12], S32, 0xe6db99e5, 45, init, x);
    c := HH(c, d, a, b, x[15], S33, 0x1fa27cf8, 46, init, x);
    b := HH(b, c, d, a, x[2], S34, 0xc4ac5665, 47, init, x);
  }

  method Round4(a0: Word, b0: Word, c0: Word, d0: Word, x: seq<Word>, ghost init: Registers)
    returns (a: Word, b: Word, c: Word, d: Word)
    requires |x| == 16 && Registers(a0, b0, c0, d0) == Steps(init, x, 48)
    ensures Registers(a, b, c, d) == Steps(init, x, 64)
  {
    Schedule4();
    hide Rotated, RotateLeft, Mix, F, G, H, I, T, WordIndex, Shift, Step, Steps;
    a, b, c, d := a0, b0, c0, d0;
    a := II(a, b, c, d, x[0], S41, 0xf4292244, 48, init, x);
    d := II(d, a, b, c, x[7], S42, 0x432aff97, 49, init, x);
    c := II(c, d, a, b, x[14], S43, 0xab9423a7, 50, init, x);
    b := II(b, c, d, a, x[5], S44, 0xfc93a039, 51, init, x);
    a := II(a, b, c, d, x[12], S41, 0x655b59c3, 52, init, x);
    d := II(d, a, b, c, x[3], S42, 0x8f0ccc92, 53, init, x);
    c := II(c, d, a, b, x[10], S43, 0xffeff47d, 54, init, x);
    b := II(b, c, d, a, x[1], S44, 0x85845dd1, 55, init, x);
    a := II(a, b, c, d, x[8], S41, 0x6fa87e4f, 56, init, x);
    d := II(d, a, b, c, x[15], S42, 0xfe2ce6e0, 57, init, x);
    c := II(c, d, a, b, x[6], S43, 0xa3014314, 58, init, x);
    b := II(b, c, d, a, x[13], S44, 0x4e0811a1, 59, init, x);
    a := II(a, b, c, d, x[4], S41, 0xf7537e82, 60, init, x);
    d := II(d, a, b, c, x[11], S42, 0xbd3af235, 61, init, x);
    c := II(c, d, a, b, x[2], S43, 0x2ad7d2bb, 62, init, x);
    b := II(b, c, d, a, x[9], S44, 0xeb86d391, 63, init, x);
  }

  // ----- The bit counter

  /** Adding 8 * length to a counter of 8 * n bits, in two 32-bit words with a carry. */
  lemma CounterStep(n: nat, length: nat, low: nat)
    requires length < TWO_32
    requires low == (8 * n % TWO_32 + 8 * length % TWO_32) % TWO_32
    ensures low == 8 * (n + length) % TWO_32
    ensures var carry := if low < 8 * length % TWO_32 then 1 else 0;
      ((8 * n / TWO_32 % TWO_32 + carry) % TWO_32 + length / 0x2000_0000) % TWO_32 == 8 * (n + length) / TWO_32 % TWO_32
  {
    var a, b := 8 * n % TWO_32, 8 * length % TWO_32;
    var p, q := 8 * n / TWO_32, 8 * length / TWO_32;
    var carry := if low < b then 1 else 0;
    assert 8 * (n + length) == (p + q + carry) * TWO_32 + low;
    assert 8 * (n + length) / TWO_32 == p + q + carry;
    SumMod(p, carry, q);
  }

  lemma SumMod(p: nat, carry: nat, q: nat)
    ensures ((p % TWO_32 + carry) % TWO_32 + q) % TWO_32 == (p + q + carry) % TWO_32
  {
  }

  lemma NoSteps(r: Registers, x: seq<Word>)
    requires |x| == 16
    ensures Steps(r, x, 0) == r
  {
  }

  lemma CounterIndex(n: nat)
    ensures 8 * n % TWO_32 / 8 % 64 == n % 64
  {
  }

  lemma Boundaries(n: nat)
    ensures (n - n % BLOCK_SIZE) % BLOCK_SIZE == 0
    ensures (n + (BLOCK_SIZE - n % BLOCK_SIZE)) % BLOCK_SIZE == 0
  {
  }

  lemma EncodeEnds(words: seq<Word>)
    ensures words[0..] == words && Encode(words[|words|..]) == []
  {
  }

  lemma EncodeNext(words: seq<Word>, i: nat)
    requires i < |words|
    ensures Encode(words[i..]) == EncodeWord(words[i]) + Encode(words[i + 1..])
  {
    hide EncodeWord;
    assert words[i..][1..] == words[i + 1..];
  }

  lemma HexEnds(bytes: seq<Byte>)
    ensures bytes[0..] == bytes && Hex(bytes[|bytes|..]) == ""
  {
  }

  lemma HexNext(bytes: seq<Byte>, i: nat)
    requires i < |bytes|
    ensures Hex(bytes[i..])
         == [HEX_CHARS[bytes[i] as int / 16], HEX_CHARS[bytes[i] as int % 16]] + Hex(bytes[i + 1..])
  {
    assert bytes[i..][1..] == bytes[i + 1..];
  }

  /** The block loop of update tests i + BLOCK_SIZE in 32 bits, at every i where a block may
      start, up to the last one before the end. */
  predicate IsTested(n: nat, length: nat, i: nat) {
    BLOCK_SIZE - n % BLOCK_SIZE <= i <= length && (n + i) % BLOCK_SIZE == 0
  }

  /** No such test wraps, on an input of the given length after n bytes. */
  predicate LoopFits(n: nat, length: nat) {
    && length < TWO_32
    && (length < BLOCK_SIZE - n % BLOCK_SIZE || length - (n + length) % BLOCK_SIZE + BLOCK_SIZE < TWO_32)
  }

  lemma LastTest(n: nat, length: nat, i: nat)
    requires (n + i) % BLOCK_SIZE == 0 && i <= length
    ensures i + (n + length) % BLOCK_SIZE <= length
  {
    assert (n + length) - (n + i) == length - i;
  }

  lemma TestFits(n: nat, length: nat, i: nat)
    requires LoopFits(n, length) && IsTested(n, length, i)
    ensures i + BLOCK_SIZE < TWO_32
  {
    LastTest(n, length, i);
  }

  lemma TestsNext(n: nat, length: nat, i: nat)
    requires LoopFits(n, length) && IsTested(n, length, i) && i + BLOCK_SIZE <= length
    ensures IsTested(n, length, i + BLOCK_SIZE) && i + 2 * BLOCK_SIZE < TWO_32
  {
    hide LoopFits;
    assert (n + i + BLOCK_SIZE) % BLOCK_SIZE == (n + i) % BLOCK_SIZE;
    TestFits(n, length, i + BLOCK_SIZE);
  }

  lemma IsBoundary(n: nat, length: nat, i: nat)
    requires IsTested(n, length, i)
    ensures i <= length && (n + i) % BLOCK_SIZE == 0
  {
  }

  /** The bound on the input is exact: beyond it some test does wrap. */
  lemma LoopFitsIff(n: nat, length: nat)
    requires length < TWO_32
    ensures LoopFits(n, length) <==> forall i: nat :: IsTested(n, length, i) ==> i + BLOCK_SIZE < TWO_32
  {
    forall i: nat | IsTested(n, length, i) ensures i + (n + length) % BLOCK_SIZE <= length {
      LastTest(n, length, i);
    }
    var first := BLOCK_SIZE - n % BLOCK_SIZE;
    Boundaries(n);
    if first <= length {
      LastTest(n, length, first);
      var last := length - (n + length) % BLOCK_SIZE;
      Boundaries(n + length);
      assert n + last == n + length - (n + length) % BLOCK_SIZE;
      assert IsTested(n, length, last);
    }
  }

  /** Inputs more than a block short of 2^32 always fit. */
  lemma ShortFits(n: nat, length: nat)
    requires length + BLOCK_SIZE < TWO_32
    ensures LoopFits(n, length)
  {
  }

  lemma TailLength(n: nat, m: nat)
    requires n % 64 == 0 && m < 64
    ensures (n + m) % 64 == m
  {
  }

  lemma AbsorbBlock(r: Registers, all: seq<Byte>, at: nat, block: seq<Byte>)
    requires at % BLOCK_SIZE == 0 && at + BLOCK_SIZE <= |all| && block == all[at..at + BLOCK_SIZE]
    ensures Fold(r, all[..at + BLOCK_SIZE]) == Compress(Fold(r, all[..at]), block)
  {
    hide Compress, Fold;
    assert all[..at + BLOCK_SIZE] == all[..at] + block;
    FoldBlock(r, all[..at], block);
  }

  lemma NextBlock(before: seq<Byte>, input: seq<Byte>, i: nat)
    requires i + BLOCK_SIZE <= |input|
    ensures (before + input)[|before| + i..|before| + i + BLOCK_SIZE] == input[i..i + BLOCK_SIZE]
  {
  }

  /** A message is its complete blocks and a tail. */
  lemma SplitTail(r: Registers, m: seq<Byte>, at: nat)
    requires at % BLOCK_SIZE == 0 && at <= |m| < at + BLOCK_SIZE
    ensures |m| % BLOCK_SIZE == |m| - at && Fold(r, m) == Fold(r, m[..at])
  {
    hide Compress, Fold;
    TailLength(at, |m| - at);
    assert m == m[..at] + m[at..];
    FoldTail(r, m[..at], m[at..]);
  }

  lemma PaddedIs(m: seq<Byte>, padLen: nat)
    requires padLen == PadLength(|m|)
    ensures m + Padding(padLen) + LengthBytes(|m|) == Padded(m)
  {
    hide LengthBytes, Padding;
  }

  class MD5 {
    var finalized: bool
    const buffer: array<Byte>
    const count: array<nat>
    const state: array<Word>
    const digest: array<Byte>

    // What was absorbed since the registers held seed.
    ghost var seed: Registers
    ghost var message: seq<Byte>

    ghost predicate Valid()
      reads this, buffer, count, state
    {
      Valid'(|message|)
    }

    /** Registers and buffer hold the message; the counter counts n bytes. */
    ghost predicate Valid'(n: nat)
      reads this, buffer, count, state
    {
      && buffer.Length == BLOCK_SIZE && count.Length == 2 && state.Length == 4 && digest.Length == 16
      && buffer != digest
      && CountsBits(n)
      && Regs() == Fold(seed, message)
      && var tail := |message| % BLOCK_SIZE;
      && buffer[..tail] == message[|message| - tail..]
    }

    function Regs(): Registers
      requires state.Length == 4
      reads state
    {
      Registers(state[0], state[1], state[2], state[3])
    }

    constructor ()
      ensures Valid() && !finalized && seed == INITIAL && message == []
      ensures fresh(buffer) && fresh(count) && fresh(state) && fresh(digest)
    {
      buffer := new Byte[BLOCK_SIZE];
      digest := new Byte[16];
      finalized := false;
      count := new nat[2](_ => 0);
      var init := INITIAL;
      state := new Word[4][init.a, init.b, init.c, init.d];
      seed, message := INITIAL, [];
    }

    static method DecodeBlock(block: seq<Byte>) returns (x: seq<Word>)
      requires |block| == BLOCK_SIZE
      ensures x == Decode(block)
    {
      x := [];
      var j := 0;
      assert block[0..] == block;
      while j < |block|
        invariant 0 <= j <= |block| && j % 4 == 0
        invariant Decode(block) == x + Decode(block[j..])
      {
        assert block[j..][4..] == block[j + 4..];
        x := x + [DecodeWord(block[j], block[j + 1], block[j + 2], block[j + 3])];
        j := j + 4;
      }
    }

    static method EncodeInto(output: array<Byte>, input: seq<Word>)
      requires output.Length == 4 * |input|
      modifies output
      ensures output[..] == Encode(input)
    {
      hide Encode, EncodeWord;
      var i, j := 0, 0;
      EncodeEnds(input);
      while j < output.Length
        invariant 0 <= i <= |input| && j == 4 * i
        invariant Encode(input) == output[..j] + Encode(input[i..])
      {
        ghost var done := output[..j];
        var bytes := EncodeWord(input[i]);
        output[j], output[j + 1], output[j + 2], output[j + 3] := bytes[0], bytes[1], bytes[2], bytes[3];
        EncodeNext(input, i);
        assert output[..j + 4] == done + bytes;
        i, j := i + 1, j + 4;
      }
    }

    /** The unrolled compression function. */
    method Transform(block: seq<Byte>)
      requires state.Length == 4 && |block| == BLOCK_SIZE
      modifies state
      ensures Regs() == Compress(old(Regs()), block)
    {
      hide Decode, Step, Steps;
      var a, b, c, d := state[0], state[1], state[2], state[3];
      ghost var init := Regs();
      var x := DecodeBlock(block);
      NoSteps(init, x);
      a, b, c, d := Round1(a, b, c, d, x, init);
      a, b, c, d := Round2(a, b, c, d, x, init);
      a, b, c, d := Round3(a, b, c, d, x, init);
      a, b, c, d := Round4(a, b, c, d, x, init);
      hide Registers.Plus;
      var sum := Registers(state[0], state[1], state[2], state[3]).Plus(Registers(a, b, c, d));
      state[0], state[1], state[2], state[3] := sum.a, sum.b, sum.c, sum.d;
    }

    ghost predicate CountsBits(n: nat)
      reads count
    {
      count.Length == 2 && count[0] == 8 * n % TWO_32 && count[1] == 8 * n / TWO_32 % TWO_32
    }

    lemma CountIsIndex(n: nat)
      requires CountsBits(n)
      ensures count.Length == 2 && count[0] / 8 % 64 == n % 64
    {
      CounterIndex(n);
    }

    /** Adds 8 * length to the two-word counter. */
    method CountUp(length: nat, ghost n: nat)
      requires length < TWO_32 && CountsBits(n)
      modifies count
      ensures CountsBits(n + length)
    {
      count[0] := (count[0] + 8 * length % TWO_32) % TWO_32;
      CounterStep(n, length, count[0]);
      if count[0] < 8 * length % TWO_32 {
        count[1] := (count[1] + 1) % TWO_32;
      }
      count[1] := (count[1] + length / 0x2000_0000) % TWO_32;
    }

    /** Fills the buffer up from the front of the input. */
    method FillBuffer(input: seq<Byte>, index: nat)
      requires buffer.Length == BLOCK_SIZE && index < BLOCK_SIZE <= index + |input|
      modifies buffer
      ensures buffer[..] == old(buffer[..index]) + input[..BLOCK_SIZE - index]
    {
      forall k | 0 <= k < BLOCK_SIZE - index {
        buffer[index + k] := input[k];
      }
    }

    /** The block loop of update: compresses whole blocks straight from the input. */
    method CompressInput(input: seq<Byte>, firstpart: nat, ghost before: seq<Byte>) returns (i: nat)
      requires state.Length == 4
      requires IsTested(|before|, |input|, firstpart) && LoopFits(|before|, |input|)
      requires Regs() == Fold(seed, (before + input)[..|before| + firstpart])
      modifies state
      ensures firstpart <= i <= |input| < i + BLOCK_SIZE && (|before| + i) % BLOCK_SIZE == 0
      ensures Regs() == Fold(seed, (before + input)[..|before| + i])
    {
      hide Fold, Compress, LoopFits, IsTested;
      var length := |input|;
      ghost var n := |before|;
      i := firstpart;
      TestFits(n, length, i);
      IsBoundary(n, length, i);
      while (i + BLOCK_SIZE) % TWO_32 <= length
        invariant firstpart <= i <= length && (n + i) % BLOCK_SIZE == 0
        invariant IsTested(n, length, i) && i + BLOCK_SIZE < TWO_32
        invariant Regs() == Fold(seed, (before + input)[..n + i])
      {
        NextBlock(before, input, i);
        AbsorbBlock(seed, before + input, n + i, input[i..i + BLOCK_SIZE]);
        Transform(input[i..i + BLOCK_SIZE]);
        TestsNext(n, length, i);
        i := i + BLOCK_SIZE;
        IsBoundary(n, length, i);
      }
    }

    /** The block part of update: fills the buffer first, then compresses whole blocks
        straight from the input. i bytes are consumed; next bytes stay in the buffer. */
    method AbsorbBlocks(input: seq<Byte>, index: nat) returns (i: nat, next: nat)
      requires Valid'(|message| + |input|) && index == |message| % BLOCK_SIZE
      requires LoopFits(|message|, |input|)
      modifies buffer, state
      ensures i <= |input| && next <= |message| + i
      ensures (|message| + i - next) % BLOCK_SIZE == 0 && |input| - i + next < BLOCK_SIZE
      ensures var all, n := message + input, |message|;
        Regs() == Fold(seed, all[..n + i - next]) && buffer[..next] == all[n + i - next..n + i]
    {
      hide Fold, Compress, CountsBits;
      var length := |input|;
      ghost var n := |message|;
      ghost var all := message + input;
      Boundaries(n);
      SplitTail(seed, message, n - index);
      assert message[..n - index] == all[..n - index];

      var firstpart := BLOCK_SIZE - index;
      if length < firstpart {
        return 0, index;
      }
      FillBuffer(input, index);
      assert all[n - index..n - index + BLOCK_SIZE] == message[n - index..] + input[..firstpart];
      AbsorbBlock(seed, all, n - index, buffer[..]);
      Transform(buffer[..]);
      next := 0;
      i := CompressInput(input, firstpart, message);
    }

    /** Copies what is left of the input behind the bytes already in the buffer. */
    method KeepTail(input: seq<Byte>, i: nat, next: nat)
      requires i <= |input| && next + |input| - i < buffer.Length
      modifies buffer
      ensures buffer[..next + |input| - i] == old(buffer[..next]) + input[i..]
    {
      forall k | 0 <= k < |input| - i {
        buffer[next + k] := input[i + k];
      }
    }

    /** Absorbs input, as long as no test of the block loop wraps. */
    method Update(input: seq<Byte>)
      requires Valid() && LoopFits(|message|, |input|)
      modifies this`message, buffer, count, state
      ensures Valid() && message == old(message) + input
    {
      hide Fold, Compress, CountsBits;
      ghost var n := |message|;
      CountIsIndex(n);
      var index := count[0] / 8 % BLOCK_SIZE;
      CountUp(|input|, n);
      var i, next := AbsorbBlocks(input, index);
      ghost var all := message + input;
      ghost var tail := |input| - i + next;
      SplitTail(seed, all, |all| - tail);
      assert all[|all| - tail..] == buffer[..next] + input[i..];
      KeepTail(input, i, next);
      assert Regs() == Fold(seed, all) && |all| % BLOCK_SIZE == tail;
      message := all;
    }

    /** The end of finalize: wipes the buffer and the counter. */
    method Wipe()
      requires Valid()
      modifies this, buffer, count
      ensures Valid() && finalized && message == [] && seed == Regs()
    {
      hide Compress;
      forall k | 0 <= k < BLOCK_SIZE {
        buffer[k] := 0;
      }
      count[0], count[1] := 0, 0;
      seed, message := Regs(), [];
      finalized := true;
    }

    /** The bit count, saved before padding changes it. */
    method SaveCount(ghost n: nat) returns (bits: seq<Byte>)
      requires CountsBits(n)
      ensures bits == LengthBytes(n)
    {
      hide Encode;
      var bytes := new Byte[8];
      EncodeInto(bytes, [count[0] as Word, count[1] as Word]);
      bits := bytes[..];
    }

    method Finalize()
      requires Valid()
      modifies this, buffer, count, state, digest
      ensures Valid() && finalized
      ensures old(finalized) ==> message == old(message) && seed == old(seed) && digest[..] == old(digest[..])
      ensures !old(finalized) ==> message == [] && digest[..] == DigestFrom(old(seed), old(message))
    {
      hide Fold, Compress, Encode, Padding, Padded, LengthBytes, CountsBits;
      if finalized {
        return;
      }
      ghost var m := message;
      var bits := SaveCount(|m|);
      CountIsIndex(|m|);
      var index := count[0] / 8 % 64;
      var padLen := if index < 56 then 56 - index else 120 - index;
      PaddedIs(m, padLen);
      ShortFits(|m|, padLen);
      ShortFits(|m| + padLen, |bits|);
      Update(Padding(padLen));
      Update(bits);
      EncodeInto(digest, Regs().Words());
      Wipe();
    }

    /** Two lower-case hexadecimal digits a byte; empty before finalization. */
    method Hexdigest() returns (s: string)
      requires Valid()
      ensures s == if finalized then Hex(digest[..]) else ""
    {
      s := "";
      if !finalized {
        return;
      }
      hide Hex, Valid';
      HexEnds(digest[..]);
      for i := 0 to 16
        invariant Hex(digest[..]) == s + Hex(digest[..][i..])
      {
        HexNext(digest[..], i);
        s := s + [HEX_CHARS[digest[i] as int / 16], HEX_CHARS[digest[i] as int % 16]];
      }
    }
  }

  function Flatten(pieces: seq<seq<Byte>>): seq<Byte> {
    if pieces == [] then [] else Flatten(pieces[..|pieces| - 1]) + pieces[|pieces| - 1]
  }

  /** Any way of cutting a message into updates gives the digest of the whole message:
      the result is a function of the concatenation alone. */
  method DigestOfPieces(pieces: seq<seq<Byte>>) returns (hash: string)
    requires forall i :: 0 <= i < |pieces| ==> LoopFits(|Flatten(pieces[..i])|, |pieces[i]|)
    ensures hash == Hex(Digest(Flatten(pieces))) && IsValidHash(hash)
  {
    hide Digest, DigestFrom, Flatten, Hex, LoopFits, Fold, MD5.Valid';
    var md5 := new MD5();
    FlattenFirst(pieces);
    for i := 0 to |pieces|
      invariant md5.Valid() && !md5.finalized && md5.seed == INITIAL
      invariant fresh(md5) && fresh(md5.buffer) && fresh(md5.count) && fresh(md5.state) && fresh(md5.digest)
      invariant md5.message == Flatten(pieces[..i])
    {
      FlattenNext(pieces, i);
      md5.Update(pieces[i]);
    }
    assert pieces[..|pieces|] == pieces;
    md5.Finalize();
    hash := md5.Hexdigest();
    DigestIsFromInitial(Flatten(pieces));
  }

  lemma FlattenFirst(pieces: seq<seq<Byte>>)
    ensures Flatten(pieces[..0]) == []
    ensures |pieces| == 1 ==> Flatten(pieces) == pieces[0]
  {
    if |pieces| == 1 {
      assert Flatten(pieces[..0]) == [] && Flatten(pieces) == [] + pieces[0];
    }
  }

  lemma FlattenNext(pieces: seq<seq<Byte>>, i: nat)
    requires i < |pieces|
    ensures Flatten(pieces[..i + 1]) == Flatten(pieces[..i]) + pieces[i]
  {
    assert pieces[..i + 1][..i] == pieces[..i];
  }

  lemma DigestIsFromInitial(m: seq<Byte>)
    ensures Digest(m) == DigestFrom(INITIAL, m)
  {
  }

  /** The shortcut the rest of the API uses to derive identifiers from text. */
  method Md5Hash(text: seq<Byte>) returns (hash: string)
    requires LoopFits(0, |text|)
    ensures hash == Hex(Digest(text)) && IsValidHash(hash)
  {
    hide Digest, Flatten, Hex;
    hash := DigestOfPieces([text]);
    FlattenFirst([text]);
  }
}
