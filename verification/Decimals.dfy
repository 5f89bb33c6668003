/** What printed and parsed numbers mean: decimal digits, most significant first, without leading
    zeros; parsing skips space, takes a sign and the longest run of digits, and ignores the rest. */
module Decimals {
  import opened Codec

  function DigitOf(c: char): nat
    requires IsDigit(c)
  {
    (c - '0') as nat
  }

  function PowerOfTen(n: nat): nat {
    if n == 0 then 1 else 10 * PowerOfTen(n - 1)
  }

  ghost predicate AreDigits(text: string) {
    forall c :: c in text ==> IsDigit(c)
  }

  /** The first digit counts most. */
  function Decimal(digits: string): nat
    requires AreDigits(digits)
  {
    if digits == "" then 0 else DigitOf(digits[0]) * PowerOfTen(|digits| - 1) + Decimal(digits[1..])
  }

  /** Reading on from a prefix shifts it by the digits still to come, and stops before whatever
      is not a digit. */
  lemma {:induction false} ReadDigitsIs(digits: string, rest: string, acc: nat)
    requires AreDigits(digits) && (rest == "" || !IsDigit(rest[0]))
    ensures ReadDigits(digits + rest, acc) == acc * PowerOfTen(|digits|) + Decimal(digits)
  {
    if digits == "" {
      assert digits + rest == rest;
    } else {
      var d := DigitOf(digits[0]);
      assert (digits + rest)[1..] == digits[1..] + rest;
      ReadDigitsIs(digits[1..], rest, 10 * acc + d);
      Shifted(acc, d, PowerOfTen(|digits| - 1));
    }
  }

  lemma Shifted(acc: nat, d: nat, p: nat)
    ensures (10 * acc + d) * p == acc * (10 * p) + d * p
  {
  }

  /** Numbers print as decimals without leading zeros, negative ones after a minus sign. */
  lemma ShowIsDecimal(n: int)
    ensures var digits := if n < 0 then Show(n)[1..] else Show(n);
      && (n < 0 ==> Show(n)[0] == '-')
      && AreDigits(digits) && Decimal(digits) == (if n < 0 then -n else n)
      && (digits[0] == '0' ==> n == 0 && digits == "0")
  {
    var m := if n < 0 then -n else n;
    ReadShowNat(m);
    ReadDigitsIs(ShowNat(m), "", 0);
    assert ShowNat(m) + "" == ShowNat(m);
    NoLeadingZero(m);
    if n < 0 {
      assert Show(n)[1..] == ShowNat(m);
    }
  }

  lemma {:induction false} NoLeadingZero(n: nat)
    ensures ShowNat(n)[0] == '0' ==> n == 0
    ensures ShowNat(0) == "0"
  {
    if n >= 10 {
      NoLeadingZero(n / 10);
    }
  }

  // ----- Parsing

  /** Text that starts with a number: space, a sign, digits, and no digit after them. */
  ghost predicate IsNumber(text: string, space: string, sign: string, digits: string, rest: string) {
    && text == space + (sign + (digits + rest))
    && (forall c :: c in space ==> IsSpace(c)) && sign in ["", "-", "+"]
    && digits != "" && AreDigits(digits) && (rest == "" || !IsDigit(rest[0]))
  }

  lemma {:induction false} SkipSpaceIs(space: string, rest: string)
    requires (forall c :: c in space ==> IsSpace(c)) && (rest == "" || !IsSpace(rest[0]))
    ensures SkipSpace(space + rest) == rest
  {
    if space == "" {
      assert space + rest == rest;
    } else {
      assert space[0] in space;
      assert (space + rest)[1..] == space[1..] + rest;
      SkipSpaceIs(space[1..], rest);
    }
  }

  /** A number at the front of a text is parsed to its value, or reported out of range; further
      characters do not matter. */
  lemma NumberIsParsed(text: string, space: string, sign: string, digits: string, rest: string, low: int, high: int)
    requires IsNumber(text, space, sign, digits, rest)
    ensures var n: int := Decimal(digits);
      var value := if sign == "-" then -n else n;
      ParseNumber(text, low, high) == if low <= value <= high then Value(value) else OutOfRange
  {
    hide SkipSpace, ReadDigits, Decimal;
    assert digits[0] in digits;
    var tail := sign + (digits + rest);
    SkipSpaceIs(space, tail);
    ReadDigitsIs(digits, rest, 0);
    if sign == "" {
      assert tail == digits + rest;
    } else {
      assert tail[1..] == digits + rest;
    }
  }

  lemma {:induction false} SpaceSplits(text: string) returns (space: string)
    ensures text == space + SkipSpace(text) && forall c :: c in space ==> IsSpace(c)
  {
    if text != "" && IsSpace(text[0]) {
      space := SpaceSplits(text[1..]);
      space := [text[0]] + space;
    } else {
      space := "";
    }
  }

  lemma {:induction false} DigitsSplit(text: string) returns (digits: string, rest: string)
    ensures text == digits + rest && AreDigits(digits) && (rest == "" || !IsDigit(rest[0]))
    ensures text != "" && IsDigit(text[0]) ==> digits != ""
  {
    if text != "" && IsDigit(text[0]) {
      digits, rest := DigitsSplit(text[1..]);
      digits := [text[0]] + digits;
    } else {
      digits, rest := "", text;
    }
  }

  /** A text is not a number exactly if it does not start with one. */
  lemma NotANumberIff(text: string, low: int, high: int)
    ensures ParseNumber(text, low, high) == NotANumber
       <==> !exists space, sign, digits, rest :: IsNumber(text, space, sign, digits, rest)
  {
    hide SkipSpace, ReadDigits, Decimal;
    if space, sign, digits, rest :| IsNumber(text, space, sign, digits, rest) {
      NumberIsParsed(text, space, sign, digits, rest, low, high);
    }
    if ParseNumber(text, low, high) != NotANumber {
      var space := SpaceSplits(text);
      var trimmed := SkipSpace(text);
      var sign := if trimmed[0] == '-' then "-" else if trimmed[0] == '+' then "+" else "";
      assert sign != "" ==> sign == [trimmed[0]];
      var digits, rest := DigitsSplit(trimmed[|sign|..]);
      assert trimmed == sign + (digits + rest);
      assert IsNumber(text, space, sign, digits, rest);
    }
  }
}
