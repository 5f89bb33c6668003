/** The digest of "abc" that appendix A.5 of RFC 1321 lists, computed step by step: a wrong
    function, shift, constant, word index or byte order anywhere would change it. */
module Md5Abc {
  import opened Md5Spec
  import opened Md5
  import opened Md5Laws

  const ABC: seq<Word> := [0x80636261, 0, 0, 0, 0, 0, 0, 0, 0, 0, 0, 0, 0, 0, 24, 0]

  lemma AbcWords()
    ensures |ABC| == 16 && ABC[0] == 0x80636261 && ABC[14] == 24 && ABC[15] == 0
    ensures forall k :: 1 <= k < 14 ==> ABC[k] == 0
  {
  }

  lemma StepTo(x: seq<Word>, i: nat, r: Registers, w: Word, s: Amount, ac: Word, b: Word)
    requires |x| == 16 && i < 64 && Steps(INITIAL, x, i) == r
    requires x[WordIndex(i)] == w && Shift(i) == s && T(i) == ac
    requires Rotated(r.a, r.b, Mix(i, r.b, r.c, r.d), w, s, ac) == b
    ensures Steps(INITIAL, x, i + 1) == Registers(r.d, b, r.b, r.c)
  {
    hide Rotated, Mix, T, WordIndex, Shift;
  }

  lemma AbcRound1()
    requires Steps(INITIAL, ABC, 0) == Registers(0x67452301, 0xefcdab89, 0x98badcfe, 0x10325476)
    ensures Steps(INITIAL, ABC, 16) == Registers(0xdda9b9a6, 0x72aff2e0, 0xe396856b, 0xa1051895)
  {
    Schedule1();
    AbcWords();
    hide Steps, Step, T, WordIndex, Shift;
    StepTo(ABC, 0, Registers(0x67452301, 0xefcdab89, 0x98badcfe, 0x10325476), 0x80636261, 7, 0xd76aa478, 0xd6d117b4);
    StepTo(ABC, 1, Registers(0x10325476, 0xd6d117b4, 0xefcdab89, 0x98badcfe), 0x0, 12, 0xe8c7b756, 0x344a8432);
    StepTo(ABC, 2, Registers(0x98badcfe, 0x344a8432, 0xd6d117b4, 0xefcdab89), 0x0, 17, 0x242070db, 0x2f6fbd72);
    StepTo(ABC, 3, Registers(0xefcdab89, 0x2f6fbd72, 0x344a8432, 0xd6d117b4), 0x0, 22, 0xc1bdceee, 0x7ad956f2);
    StepTo(ABC, 4, Registers(0xd6d117b4, 0x7ad956f2, 0x2f6fbd72, 0x344a8432), 0x0, 7, 0xf57c0faf, 0xc73741ef);
    StepTo(ABC, 5, Registers(0x344a8432, 0xc73741ef, 0x7ad956f2, 0x2f6fbd72), 0x0, 12, 0x4787c62a, 0x8bac3051);
    StepTo(ABC, 6, Registers(0x2f6fbd72, 0x8bac3051, 0xc73741ef, 0x7ad956f2), 0x0, 17, 0xa8304613, 0x207dc67b);
    StepTo(ABC, 7, Registers(0x7ad956f2, 0x207dc67b, 0x8bac3051, 0xc73741ef), 0x0, 22, 0xfd469501, 0x928d99f6);
    StepTo(ABC, 8, Registers(0xc73741ef, 0x928d99f6, 0x207dc67b, 0x8bac3051), 0x0, 7, 0x698098d8, 0x854b3712);
    StepTo(ABC, 9, Registers(0x8bac3051, 0x854b3712, 0x928d99f6, 0x207dc67b), 0x0, 12, 0x8b44f7af, 0x74e2f284);
    StepTo(ABC, 10, Registers(0x207dc67b, 0x74e2f284, 0x854b3712, 0x928d99f6), 0x0, 17, 0xffff5bb1, 0x3020401c);
    StepTo(ABC, 11, Registers(0x928d99f6, 0x3020401c, 0x74e2f284, 0x854b3712), 0x0, 22, 0x895cd7be, 0x5ed49596);
    StepTo(ABC, 12, Registers(0x854b3712, 0x5ed49596, 0x3020401c, 0x74e2f284), 0x0, 7, 0x6b901122, 0xdda9b9a6);
    StepTo(ABC, 13, Registers(0x74e2f284, 0xdda9b9a6, 0x5ed49596, 0x3020401c), 0x0, 12, 0xfd987193, 0xa1051895);
    StepTo(ABC, 14, Registers(0x3020401c, 0xa1051895, 0xdda9b9a6, 0x5ed49596), 0x18, 17, 0xa679438e, 0xe396856b);
    StepTo(ABC, 15, Registers(0x5ed49596, 0xe396856b, 0xa1051895, 0xdda9b9a6), 0x0, 22, 0x49b40821, 0x72aff2e0);
  }

  lemma AbcRound2()
    requires Steps(INITIAL, ABC, 16) == Registers(0xdda9b9a6, 0x72aff2e0, 0xe396856b, 0xa1051895)
    ensures Steps(INITIAL, ABC, 32) == Registers(0x790a77fb, 0x726342d3, 0xa62884aa, 0x9f47e4f8)
  {
    Schedule2();
    AbcWords();
    hide Steps, Step, T, WordIndex, Shift;
    StepTo(ABC, 16, Registers(0xdda9b9a6, 0x72aff2e0, 0xe396856b, 0xa1051895), 0x0, 5, 0xf61e2562, 0x3e9e9126);
    StepTo(ABC, 17, Registers(0xa1051895, 0x3e9e9126, 0x72aff2e0, 0xe396856b), 0x0, 9, 0xc040b340, 0x4a1d804e);
    StepTo(ABC, 18, Registers(0xe396856b, 0x4a1d804e, 0x3e9e9126, 0x72aff2e0), 0x0, 14, 0x265e5a51, 0xe25e1652);
    StepTo(ABC, 19, Registers(0x72aff2e0, 0xe25e1652, 0x4a1d804e, 0x3e9e9126), 0x80636261, 20, 0xe9b6c7aa, 0xb5b204e4);
    StepTo(ABC, 20, Registers(0x3e9e9126, 0xb5b204e4, 0xe25e1652, 0x4a1d804e), 0x0, 5, 0xd62f105d, 0x59a8ffda);
    StepTo(ABC, 21, Registers(0x4a1d804e, 0x59a8ffda, 0xb5b204e4, 0xe25e1652), 0x0, 9, 0x2441453, 0x6d002f1e);
    StepTo(ABC, 22, Registers(0xe25e1652, 0x6d002f1e, 0x59a8ffda, 0xb5b204e4), 0x0, 14, 0xd8a1e681, 0xabfc7920);
    StepTo(ABC, 23, Registers(0xb5b204e4, 0xabfc7920, 0x6d002f1e, 0x59a8ffda), 0x0, 20, 0xe7d3fbc8, 0x47092c07);
    StepTo(ABC, 24, Registers(0x59a8ffda, 0x47092c07, 0xabfc7920, 0x6d002f1e), 0x0, 5, 0x21e1cde6, 0xb7f268cf);
    StepTo(ABC, 25, Registers(0x6d002f1e, 0xb7f268cf, 0x47092c07, 0xabfc7920), 0x18, 9, 0xc33707d6, 0x9388eff);
    StepTo(ABC, 26, Registers(0xabfc7920, 0x9388eff, 0xb7f268cf, 0x47092c07), 0x0, 14, 0xf4d50d87, 0xfe1623b1);
    StepTo(ABC, 27, Registers(0x47092c07, 0xfe1623b1, 0x9388eff, 0xb7f268cf), 0x0, 20, 0x455a14ed, 0x786acb8f);
    StepTo(ABC, 28, Registers(0xb7f268cf, 0x786acb8f, 0xfe1623b1, 0x9388eff), 0x0, 5, 0xa9e3e905, 0x790a77fb);
    StepTo(ABC, 29, Registers(0x9388eff, 0x790a77fb, 0x786acb8f, 0xfe1623b1), 0x0, 9, 0xfcefa3f8, 0x9f47e4f8);
    StepTo(ABC, 30, Registers(0xfe1623b1, 0x9f47e4f8, 0x790a77fb, 0x786acb8f), 0x0, 14, 0x676f02d9, 0xa62884aa);
    StepTo(ABC, 31, Registers(0x786acb8f, 0xa62884aa, 0x9f47e4f8, 0x790a77fb), 0x0, 20, 0x8d2a4c8a, 0x726342d3);
  }

  lemma AbcRound3()
    requires Steps(INITIAL, ABC, 32) == Registers(0x790a77fb, 0x726342d3, 0xa62884aa, 0x9f47e4f8)
    ensures Steps(INITIAL, ABC, 48) == Registers(0x7f2e507b, 0x7beb9700, 0x8fae6399, 0x99d9679d)
  {
    Schedule3();
    AbcWords();
    hide Steps, Step, T, WordIndex, Shift;
    StepTo(ABC, 32, Registers(0x790a77fb, 0x726342d3, 0xa62884aa, 0x9f47e4f8), 0x0, 4, 0xfffa3942, 0xb3707ebf);
    StepTo(ABC, 33, Registers(0x9f47e4f8, 0xb3707ebf, 0x726342d3, 0xa62884aa), 0x0, 11, 0x8771f681, 0x60127b2e);
    StepTo(ABC, 34, Registers(0xa62884aa, 0x60127b2e, 0xb3707ebf, 0x726342d3), 0x0, 16, 0x6d9d6122, 0x8d212ff5);
    StepTo(ABC, 35, Registers(0x726342d3, 0x8d212ff5, 0x60127b2e, 0xb3707ebf), 0x18, 23, 0xfde5380c, 0x3b0875c7);
    StepTo(ABC, 36, Registers(0xb3707ebf, 0x3b0875c7, 0x8d212ff5, 0x60127b2e), 0x0, 4, 0xa4beea44, 0x21b117b9);
    StepTo(ABC, 37, Registers(0x60127b2e, 0x21b117b9, 0x3b0875c7, 0x8d212ff5), 0x0, 11, 0x4bdecfa9, 0x6e7429d5);
    StepTo(ABC, 38, Registers(0x8d212ff5, 0x6e7429d5, 0x21b117b9, 0x3b0875c7), 0x0, 16, 0xf6bb4b60, 0x3575227e);
    StepTo(ABC, 39, Registers(0x3b0875c7, 0x3575227e, 0x6e7429d5, 0x21b117b9), 0x0, 23, 0xbebfbc70, 0x5a2f5ea5);
    StepTo(ABC, 40, Registers(0x21b117b9, 0x5a2f5ea5, 0x3575227e, 0x6e7429d5), 0x0, 4, 0x289b7ec6, 0x11de1779);
    StepTo(ABC, 41, Registers(0x6e7429d5, 0x11de1779, 0x5a2f5ea5, 0x3575227e), 0x80636261, 11, 0xeaa127fa, 0xfadcaa38);
    StepTo(ABC, 42, Registers(0x3575227e, 0xfadcaa38, 0x11de1779, 0x5a2f5ea5), 0x0, 16, 0xd4ef3085, 0x31c465ca);
    StepTo(ABC, 43, Registers(0x5a2f5ea5, 0x31c465ca, 0xfadcaa38, 0x11de1779), 0x0, 23, 0x4881d05, 0x4c6124f4);
    StepTo(ABC, 44, Registers(0x11de1779, 0x4c6124f4, 0x31c465ca, 0xfadcaa38), 0x0, 4, 0xd9d4d039, 0x7f2e507b);
    StepTo(ABC, 45, Registers(0xfadcaa38, 0x7f2e507b, 0x4c6124f4, 0x31c465ca), 0x0, 11, 0xe6db99e5, 0x99d9679d);
    StepTo(ABC, 46, Registers(0x31c465ca, 0x99d9679d, 0x7f2e507b, 0x4c6124f4), 0x0, 16, 0x1fa27cf8, 0x8fae6399);
    StepTo(ABC, 47, Registers(0x4c6124f4, 0x8fae6399, 0x99d9679d, 0x7f2e507b), 0x0, 23, 0xc4ac5665, 0x7beb9700);
  }

  lemma AbcRound4()
    requires Steps(INITIAL, ABC, 48) == Registers(0x7f2e507b, 0x7beb9700, 0x8fae6399, 0x99d9679d)
    ensures Steps(INITIAL, ABC, 64) == Registers(0x310ade8f, 0xc08226b3, 0xe484b9d8, 0x624d8cb2)
  {
    Schedule4();
    AbcWords();
    hide Steps, Step, T, WordIndex, Shift;
    StepTo(ABC, 48, Registers(0x7f2e507b, 0x7beb9700, 0x8fae6399, 0x99d9679d), 0x80636261, 6, 0xf4292244, 0x7b201df8);
    StepTo(ABC, 49, Registers(0x99d9679d, 0x7b201df8, 0x7beb9700, 0x8fae6399), 0x0, 10, 0x432aff97, 0xf4e8e96e);
    StepTo(ABC, 50, Registers(0x8fae6399, 0xf4e8e96e, 0x7b201df8, 0x7beb9700), 0x18, 15, 0xab9423a7, 0xb298cefd);
    StepTo(ABC, 51, Registers(0x7beb9700, 0xb298cefd, 0xf4e8e96e, 0x7b201df8), 0x0, 21, 0xfc93a039, 0x8bf025c4);
    StepTo(ABC, 52, Registers(0x7b201df8, 0x8bf025c4, 0xb298cefd, 0xf4e8e96e), 0x0, 6, 0x655b59c3, 0x6cc5e8a);
    StepTo(ABC, 53, Registers(0xf4e8e96e, 0x6cc5e8a, 0x8bf025c4, 0xb298cefd), 0x0, 10, 0x8f0ccc92, 0x5b0d97aa);
    StepTo(ABC, 54, Registers(0xb298cefd, 0x5b0d97aa, 0x6cc5e8a, 0x8bf025c4), 0x0, 15, 0xffeff47d, 0x7d632dd0);
    StepTo(ABC, 55, Registers(0x8bf025c4, 0x7d632dd0, 0x5b0d97aa, 0x6cc5e8a), 0x0, 21, 0x85845dd1, 0x3bfa2c27);
    StepTo(ABC, 56, Registers(0x6cc5e8a, 0x3bfa2c27, 0x7d632dd0, 0x5b0d97aa), 0x0, 6, 0x6fa87e4f, 0x7f81cc35);
    StepTo(ABC, 57, Registers(0x5b0d97aa, 0x7f81cc35, 0x3bfa2c27, 0x7d632dd0), 0x0, 10, 0xfe2ce6e0, 0x94454ab);
    StepTo(ABC, 58, Registers(0x7d632dd0, 0x94454ab, 0x7f81cc35, 0x3bfa2c27), 0x0, 15, 0xa3014314, 0x4f9dbe3f);
    StepTo(ABC, 59, Registers(0x3bfa2c27, 0x4f9dbe3f, 0x94454ab, 0x7f81cc35), 0x0, 21, 0x4e0811a1, 0x7327d604);
    StepTo(ABC, 60, Registers(0x7f81cc35, 0x7327d604, 0x4f9dbe3f, 0x94454ab), 0x0, 6, 0xf7537e82, 0x310ade8f);
    StepTo(ABC, 61, Registers(0x94454ab, 0x310ade8f, 0x7327d604, 0x4f9dbe3f), 0x0, 10, 0xbd3af235, 0x624d8cb2);
    StepTo(ABC, 62, Registers(0x4f9dbe3f, 0x624d8cb2, 0x310ade8f, 0x7327d604), 0x0, 15, 0x2ad7d2bb, 0xe484b9d8);
    StepTo(ABC, 63, Registers(0x7327d604, 0xe484b9d8, 0x624d8cb2, 0x310ade8f), 0x0, 21, 0xeb86d391, 0xc08226b3);
  }

  lemma AbcSteps()
    ensures Steps(INITIAL, ABC, 64) == Registers(0x310ade8f, 0xc08226b3, 0xe484b9d8, 0x624d8cb2)
  {
    NoSteps(INITIAL, ABC);
    hide Steps;
    AbcRound1();
    AbcRound2();
    AbcRound3();
    AbcRound4();
  }

  lemma {:induction false} DecodeAt(bytes: seq<Byte>, i: nat)
    requires |bytes| % 4 == 0 && 4 * i < |bytes|
    ensures Decode(bytes)[i] == DecodeWord(bytes[4 * i], bytes[4 * i + 1], bytes[4 * i + 2], bytes[4 * i + 3])
  {
    hide DecodeWord;
    if i > 0 {
      DecodeAt(bytes[4..], i - 1);
    }
  }

  lemma AbcLength()
    ensures LengthBytes(3) == [24, 0, 0, 0, 0, 0, 0, 0]
  {
    assert EncodeWord(AsWord(24)) == [24, 0, 0, 0] && EncodeWord(AsWord(0)) == [0, 0, 0, 0];
    hide EncodeWord, AsWord, CountBytes;
    CountBytesAre(24, 0);
  }

  lemma AbcPadded()
    ensures var p := Padded([0x61, 0x62, 0x63]);
      && |p| == BLOCK_SIZE && p[0] == 0x61 && p[1] == 0x62 && p[2] == 0x63 && p[3] == 0x80 && p[56] == 24
      && forall i :: 4 <= i < BLOCK_SIZE && i != 56 ==> p[i] == 0
  {
    hide LengthBytes;
    AbcLength();
  }

  lemma AbcDecoded()
    ensures DecodeWord(0x61, 0x62, 0x63, 0x80) == 0x80636261
    ensures DecodeWord(24, 0, 0, 0) == 24 && DecodeWord(0, 0, 0, 0) == 0
  {
  }

  lemma AbcWord(i: nat)
    requires i < 16
    ensures var p := Padded([0x61, 0x62, 0x63]);
      |p| == BLOCK_SIZE && DecodeWord(p[4 * i], p[4 * i + 1], p[4 * i + 2], p[4 * i + 3]) == ABC[i]
  {
    hide Padded, DecodeWord, Padding, LengthBytes;
    AbcPadded();
    AbcDecoded();
    AbcWords();
  }

  lemma AbcBlock()
    ensures |Padded([0x61, 0x62, 0x63])| == BLOCK_SIZE && Decode(Padded([0x61, 0x62, 0x63])) == ABC
  {
    hide Padded, Decode, DecodeWord, ABC;
    AbcWords();
    AbcWord(0);
    var p := Padded([0x61, 0x62, 0x63]);
    forall i | 0 <= i < 16 ensures Decode(p)[i] == ABC[i] {
      DecodeAt(p, i);
      AbcWord(i);
    }
  }

  lemma AbcFold()
    ensures Fold(INITIAL, Padded([0x61, 0x62, 0x63])) == Registers(0x98500190, 0xb04fd23c, 0x7d3f96d6, 0x727fe128)
  {
    hide Steps, Decode, Padded;
    AbcBlock();
    AbcSteps();
    var block := Padded([0x61, 0x62, 0x63]);
    assert block[..BLOCK_SIZE] == block && block[BLOCK_SIZE..] == [];
  }

  lemma {:induction false} HexAppend(x: seq<Byte>, y: seq<Byte>)
    ensures Hex(x + y) == Hex(x) + Hex(y)
  {
    if x == [] {
      assert x + y == y;
    } else {
      assert (x + y)[1..] == x[1..] + y;
      HexAppend(x[1..], y);
    }
  }

  lemma HexWords(v: Word, w: Word, x: Word, y: Word)
    ensures Hex(Encode([v, w, x, y]))
         == Hex(EncodeWord(v)) + (Hex(EncodeWord(w)) + (Hex(EncodeWord(x)) + Hex(EncodeWord(y))))
  {
    assert Encode([]) == [];
    hide Hex, EncodeWord;
    assert [y][1..] == [] && [x, y][1..] == [y] && [w, x, y][1..] == [x, y] && [v, w, x, y][1..] == [w, x, y];
    assert Encode([y]) == EncodeWord(y) + Encode([]);
    assert Encode([x, y]) == EncodeWord(x) + Encode([y]);
    assert Encode([w, x, y]) == EncodeWord(w) + Encode([x, y]);
    assert Encode([v, w, x, y]) == EncodeWord(v) + Encode([w, x, y]);
    assert EncodeWord(y) + [] == EncodeWord(y);
    HexAppend(EncodeWord(v), Encode([w, x, y]));
    HexAppend(EncodeWord(w), Encode([x, y]));
    HexAppend(EncodeWord(x), EncodeWord(y));
  }

  lemma HexFour(a: Byte, b: Byte, c: Byte, d: Byte)
    ensures Hex([a, b, c, d])
         == [HexDigit(HighDigit(a)), HexDigit(LowDigit(a)), HexDigit(HighDigit(b)), HexDigit(LowDigit(b)),
             HexDigit(HighDigit(c)), HexDigit(LowDigit(c)), HexDigit(HighDigit(d)), HexDigit(LowDigit(d))]
  {
    hide Hex, HexDigit, HighDigit, LowDigit;
    HexAt([a, b, c, d], 0);
    HexAt([a, b, c, d], 1);
    HexAt([a, b, c, d], 2);
    HexAt([a, b, c, d], 3);
  }

  lemma AbcHex1()
    ensures Hex(EncodeWord(0x98500190)) == "90015098"
  {
    assert EncodeWord(0x98500190) == [0x90, 0x01, 0x50, 0x98];
    hide Hex, EncodeWord;
    HexFour(0x90, 0x01, 0x50, 0x98);
  }

  lemma AbcHex2()
    ensures Hex(EncodeWord(0xb04fd23c)) == "3cd24fb0"
  {
    assert EncodeWord(0xb04fd23c) == [0x3c, 0xd2, 0x4f, 0xb0];
    hide Hex, EncodeWord;
    HexFour(0x3c, 0xd2, 0x4f, 0xb0);
  }

  lemma AbcHex3()
    ensures Hex(EncodeWord(0x7d3f96d6)) == "d6963f7d"
  {
    assert EncodeWord(0x7d3f96d6) == [0xd6, 0x96, 0x3f, 0x7d];
    hide Hex, EncodeWord;
    HexFour(0xd6, 0x96, 0x3f, 0x7d);
  }

  lemma AbcHex4()
    ensures Hex(EncodeWord(0x727fe128)) == "28e17f72"
  {
    assert EncodeWord(0x727fe128) == [0x28, 0xe1, 0x7f, 0x72];
    hide Hex, EncodeWord;
    HexFour(0x28, 0xe1, 0x7f, 0x72);
  }

  lemma AbcDigest()
    ensures Hex(Digest([0x61, 0x62, 0x63])) == "900150983cd24fb0d6963f7d28e17f72"
  {
    hide Fold, Padded, Hex, Encode, EncodeWord;
    AbcFold();
    HexWords(0x98500190, 0xb04fd23c, 0x7d3f96d6, 0x727fe128);
    AbcHex1();
    AbcHex2();
    AbcHex3();
    AbcHex4();
    assert "90015098" + ("3cd24fb0" + ("d6963f7d" + "28e17f72")) == "900150983cd24fb0d6963f7d28e17f72";
  }
}
