/** Separated text: printing words with a separator, splitting on a delimiter, and the
    decimal numbers that travel inside the fields. */
module Codec {

  const FIELD_DELIMITER := '?'
  const ENTRY_DELIMITER := '\n'

  // ----- Splitting and joining

  function Join(words: seq<string>, separator: char): string {
    if words == [] then ""
    else if |words| == 1 then words[0]
    else words[0] + [separator] + Join(words[1..], separator)
  }

  function Find(text: string, delimiter: char): (i: nat)
    ensures i <= |text| && delimiter !in text[..i]
    ensures i < |text| ==> text[i] == delimiter
  {
    if text == "" || text[0] == delimiter then 0 else 1 + Find(text[1..], delimiter)
  }

  /** The pieces that reading up to each delimiter yields. Nothing is left to read after a
      trailing delimiter, so it does not start another piece. */
  function Split(text: string, delimiter: char): seq<string>
    decreases |text|
  {
    if text == "" then []
    else
      var i := Find(text, delimiter);
      [text[..i]] + if i < |text| then Split(text[i + 1..], delimiter) else []
  }

  lemma {:induction false} FindWord(word: string, delimiter: char, rest: string)
    requires delimiter !in word
    ensures Find(word + [delimiter] + rest, delimiter) == |word|
    ensures Find(word, delimiter) == |word|
  {
    if word != "" {
      assert (word + [delimiter] + rest)[1..] == word[1..] + [delimiter] + rest;
      FindWord(word[1..], delimiter, rest);
    }
  }

  lemma SplitWord(word: string, delimiter: char, rest: string)
    requires delimiter !in word
    ensures Split(word + [delimiter] + rest, delimiter) == [word] + Split(rest, delimiter)
    ensures Split(word, delimiter) == if word == "" then [] else [word]
  {
    FindWord(word, delimiter, rest);
    var text := word + [delimiter] + rest;
    assert text[..|word|] == word && text[|word| + 1..] == rest;
    assert word[..|word|] == word;
  }

  ghost predicate DelimiterFree(words: seq<string>, delimiter: char) {
    forall w :: w in words ==> delimiter !in w
  }

  /** Splitting joined words gives the words back, except that an empty last word is lost. */
  lemma {:induction false} SplitJoin(words: seq<string>, delimiter: char)
    requires DelimiterFree(words, delimiter)
    ensures Split(Join(words, delimiter), delimiter)
         == if words != [] && words[|words| - 1] == "" then words[..|words| - 1] else words
  {
    hide Split, Find;
    if words == [] {
      SplitWord("", delimiter, "");
    } else {
      assert words[0] in words;
      assert words == [words[0]] + words[1..];
      if |words| == 1 {
        SplitWord(words[0], delimiter, "");
      } else {
        SplitWord(words[0], delimiter, Join(words[1..], delimiter));
        SplitJoin(words[1..], delimiter);
        assert words[..|words| - 1] == [words[0]] + words[1..][..|words| - 2];
      }
    }
  }

  lemma {:induction false} SplitPiecesAreDelimiterFree(text: string, delimiter: char)
    ensures DelimiterFree(Split(text, delimiter), delimiter)
    decreases |text|
  {
    if text != "" {
      var i := Find(text, delimiter);
      if i < |text| {
        SplitPiecesAreDelimiterFree(text[i + 1..], delimiter);
      }
    }
  }

  // ----- Two levels: rows of fields

  /** One line a row, each ended by the entry delimiter. */
  function Print(rows: seq<seq<string>>): string {
    if rows == [] then ""
    else Join(rows[0], FIELD_DELIMITER) + [ENTRY_DELIMITER] + Print(rows[1..])
  }

  function SplitAll(lines: seq<string>): (rows: seq<seq<string>>)
    ensures |rows| == |lines|
    ensures forall i :: 0 <= i < |lines| ==> rows[i] == Split(lines[i], FIELD_DELIMITER)
  {
    if lines == [] then [] else [Split(lines[0], FIELD_DELIMITER)] + SplitAll(lines[1..])
  }

  function Parse(text: string): seq<seq<string>> {
    SplitAll(Split(text, ENTRY_DELIMITER))
  }

  ghost predicate CleanRow(row: seq<string>) {
    DelimiterFree(row, FIELD_DELIMITER) && DelimiterFree(row, ENTRY_DELIMITER)
  }

  predicate EndsNonEmpty(row: seq<string>) {
    row == [] || row[|row| - 1] != ""
  }

  lemma {:induction false} JoinAvoids(words: seq<string>, separator: char, c: char)
    requires DelimiterFree(words, c) && c != separator
    ensures c !in Join(words, separator)
  {
    if words != [] {
      assert words[0] in words;
      JoinAvoids(words[1..], separator, c);
    }
  }

  /** The two-level round trip holds exactly when no row ends in an empty field. */
  lemma {:induction false} ParsePrint(rows: seq<seq<string>>)
    requires forall row :: row in rows ==> CleanRow(row)
    ensures Parse(Print(rows)) == rows <==> forall row :: row in rows ==> EndsNonEmpty(row)
    ensures |Parse(Print(rows))| == |rows|
  {
    if rows != [] {
      var row := rows[0];
      assert row in rows;
      ParsePrint(rows[1..]);
      JoinAvoids(row, FIELD_DELIMITER, ENTRY_DELIMITER);
      SplitWord(Join(row, FIELD_DELIMITER), ENTRY_DELIMITER, Print(rows[1..]));
      SplitJoin(row, FIELD_DELIMITER);
      var lines := Split(Print(rows), ENTRY_DELIMITER);
      assert lines == [Join(row, FIELD_DELIMITER)] + Split(Print(rows[1..]), ENTRY_DELIMITER);
      assert lines[1..] == Split(Print(rows[1..]), ENTRY_DELIMITER);
      assert Parse(Print(rows)) == [Split(Join(row, FIELD_DELIMITER), FIELD_DELIMITER)] + Parse(Print(rows[1..]));
      assert rows == [row] + rows[1..];
    }
  }

  lemma {:induction false} PrintAppend(rows: seq<seq<string>>, row: seq<string>)
    ensures Print(rows + [row]) == Print(rows) + Join(row, FIELD_DELIMITER) + [ENTRY_DELIMITER]
  {
    hide Join;
    if rows == [] {
      assert rows + [row] == [row] && [row][1..] == [];
    } else {
      PrintAppend(rows[1..], row);
      assert (rows + [row])[1..] == rows[1..] + [row];
    }
  }

  // ----- The utilities, on a growing vector of characters

  class CharVector {
    var chars: string

    constructor ()
      ensures chars == ""
    {
      chars := "";
    }

    method PushBack(c: char)
      modifies this
      ensures chars == old(chars) + [c]
    {
      chars := chars + [c];
    }

    method PopBack()
      requires chars != ""
      modifies this
      ensures chars == old(chars[..|chars| - 1])
    {
      chars := chars[..|chars| - 1];
    }
  }

  method AppendWord(result: CharVector, word: string, endCharacter: char)
    modifies result
    ensures result.chars == old(result.chars) + word + [endCharacter]
  {
    for i := 0 to |word|
      invariant result.chars == old(result.chars) + word[..i]
    {
      result.PushBack(word[i]);
    }
    result.PushBack(endCharacter);
  }

  method AppendWords(result: CharVector, words: seq<string>, separator: char, endCharacter: char)
    modifies result
    ensures result.chars == old(result.chars) + Join(words, separator) + [endCharacter]
  {
    for i := 0 to |words|
      invariant result.chars == old(result.chars) + if i == 0 then "" else Join(words[..i], separator) + [separator]
    {
      JoinAppend(words[..i], words[i], separator);
      assert words[..i + 1] == words[..i] + [words[i]];
      AppendWord(result, words[i], separator);
    }
    assert words[..|words|] == words;
    if |words| != 0 {
      result.PopBack();
      assert result.chars == old(result.chars) + Join(words, separator);
    }
    result.PushBack(endCharacter);
  }

  lemma {:induction false} JoinAppend(words: seq<string>, word: string, separator: char)
    ensures Join(words + [word], separator) == if words == [] then word else Join(words, separator) + [separator] + word
  {
    if words != [] {
      assert (words + [word])[1..] == words[1..] + [word];
      JoinAppend(words[1..], word, separator);
    }
  }

  /** Reads up to the next delimiter or the end of the text. */
  method GetLine(text: string, start: nat, delimiter: char) returns (item: string, next: nat)
    requires start < |text|
    ensures start < next <= |text|
    ensures Split(text[start..], delimiter) == [item] + Split(text[next..], delimiter)
  {
    hide Split;
    next := start;
    while next < |text| && text[next] != delimiter
      invariant start <= next <= |text| && delimiter !in text[start..next]
    {
      next := next + 1;
    }
    item := text[start..next];
    SplitFrom(text, start, next, delimiter);
    if next < |text| {
      next := next + 1;
    }
  }

  lemma SplitFrom(text: string, start: nat, end: nat, delimiter: char)
    requires start <= end <= |text| && start < |text|
    requires delimiter !in text[start..end] && (end == |text| || text[end] == delimiter)
    ensures var next := if end < |text| then end + 1 else end;
      Split(text[start..], delimiter) == [text[start..end]] + Split(text[next..], delimiter)
  {
    hide Split, Find;
    var item := text[start..end];
    if end < |text| {
      SplitWord(item, delimiter, text[end + 1..]);
      assert text[start..] == item + [delimiter] + text[end + 1..];
    } else {
      SplitWord(item, delimiter, "");
      SplitWord("", delimiter, "");
      assert text[start..] == item && text[end..] == "";
    }
  }

  method SplitStringOn(text: string, delimiter: char) returns (substrings: seq<string>)
    ensures substrings == Split(text, delimiter)
  {
    hide Split;
    substrings := [];
    var at := 0;
    assert text[0..] == text;
    while at < |text|
      invariant at <= |text|
      invariant Split(text, delimiter) == substrings + Split(text[at..], delimiter)
    {
      var item, next := GetLine(text, at, delimiter);
      substrings := substrings + [item];
      at := next;
    }
    assert text[at..] == "";
    SplitWord("", delimiter, "");
  }

  // ----- Decimal numbers

  function ShowNat(n: nat): (s: string)
    ensures s != "" && forall c :: c in s ==> '0' <= c <= '9'
  {
    (if n < 10 then "" else ShowNat(n / 10)) + ['0' + (n % 10) as char]
  }

  function Show(n: int): (s: string)
    ensures s != "" && forall c :: c in s ==> c == '-' || '0' <= c <= '9'
  {
    if n < 0 then "-" + ShowNat(-n) else ShowNat(n)
  }

  /** The outcome of a checked conversion: a value, ERANGE or EDOM. */
  datatype Number = Value(value: int) | OutOfRange | NotANumber

  predicate IsDigit(c: char) {
    '0' <= c <= '9'
  }

  predicate IsSpace(c: char) {
    c == ' ' || '\t' <= c <= '\r'
  }

  function SkipSpace(text: string): string {
    if text != "" && IsSpace(text[0]) then SkipSpace(text[1..]) else text
  }

  function ReadDigits(text: string, acc: nat): nat {
    if text == "" || !IsDigit(text[0]) then acc
    else ReadDigits(text[1..], 10 * acc + (text[0] - '0') as nat)
  }

  /** Leading space, an optional sign and at least one digit; what follows is ignored. */
  function ParseNumber(text: string, low: int, high: int): Number {
    var trimmed := SkipSpace(text);
    var signed := trimmed != "" && (trimmed[0] == '-' || trimmed[0] == '+');
    var digits := if signed then trimmed[1..] else trimmed;
    if digits == "" || !IsDigit(digits[0]) then NotANumber
    else
      var magnitude: int := ReadDigits(digits, 0);
      var value := if signed && trimmed[0] == '-' then -magnitude else magnitude;
      if low <= value <= high then Value(value) else OutOfRange
  }

  predicate IsInt32(n: int) {
    -0x8000_0000 <= n <= 0x7fff_ffff
  }

  predicate IsInt64(n: int) {
    -0x8000_0000_0000_0000 <= n <= 0x7fff_ffff_ffff_ffff
  }

  function SafeStoi(text: string): Number {
    ParseNumber(text, -0x8000_0000, 0x7fff_ffff)
  }

  function SafeStoll(text: string): Number {
    ParseNumber(text, -0x8000_0000_0000_0000, 0x7fff_ffff_ffff_ffff)
  }

  lemma {:induction false} ReadAppend(digits: string, c: char, acc: nat)
    requires forall d :: d in digits ==> IsDigit(d)
    requires IsDigit(c)
    ensures ReadDigits(digits + [c], acc) == 10 * ReadDigits(digits, acc) + (c - '0') as nat
  {
    if digits == "" {
      assert ("" + [c])[1..] == "";
    } else {
      assert digits[0] in digits;
      assert (digits + [c])[1..] == digits[1..] + [c];
      ReadAppend(digits[1..], c, 10 * acc + (digits[0] - '0') as nat);
    }
  }

  lemma {:induction false} ReadShowNat(n: nat)
    ensures ReadDigits(ShowNat(n), 0) == n
  {
    if n < 10 {
      assert ShowNat(n)[1..] == "";
    } else {
      ReadShowNat(n / 10);
      ReadAppend(ShowNat(n / 10), '0' + (n % 10) as char, 0);
    }
  }

  /** Printed numbers are read back, for every number of the target type. */
  lemma ParseShow(n: int, low: int, high: int)
    requires low <= n <= high
    ensures ParseNumber(Show(n), low, high) == Value(n)
  {
    var digits := ShowNat(if n < 0 then -n else n);
    ReadShowNat(if n < 0 then -n else n);
    assert digits[0] in digits;
    assert Show(n)[0] in Show(n);
    if n < 0 {
      assert Show(n)[1..] == digits;
    }
  }
}
