/** What the escapes of a JSON string stand for: a code point's bytes are its UTF-8 sequence (section 3 of
    RFC 3629), read here without regard to how they are written, and its four hexadecimal digits are read by
    their places in the alphabet of digits. */
module Utf8Escapes {
  import opened Positions
  import opened Json

  // ----- the sequence of one code point -----

  datatype Sequence = Sequence(codepoint: nat, length: nat)

  predicate IsContinuation(c: char) {
    0x80 <= c as int < 0xc0
  }

  function Payload(c: char): nat
    requires IsContinuation(c)
  {
    c as int - 0x80
  }

  /** The sequence a text starts with: the lead byte tells how many continuation bytes follow. */
  function FirstSequence(s: string): Option<Sequence> {
    if s == "" then None
    else
      var lead := s[0] as int;
      if lead < 0x80 then Some(Sequence(lead, 1))
      else if 0xc0 <= lead < 0xe0 && |s| >= 2 && IsContinuation(s[1]) then
        Some(Sequence((lead - 0xc0) * 64 + Payload(s[1]), 2))
      else if 0xe0 <= lead < 0xf0 && |s| >= 3 && IsContinuation(s[1]) && IsContinuation(s[2]) then
        Some(Sequence(((lead - 0xe0) * 64 + Payload(s[1])) * 64 + Payload(s[2]), 3))
      else None
  }

  /** The fewest bytes a code point takes. */
  function Shortest(codepoint: nat): nat {
    if codepoint < 0x80 then 1 else if codepoint < 0x800 then 2 else 3
  }

  /** The bytes of a code point are read back as that code point, and are no more than needed. */
  lemma SequenceReads(codepoint: nat, rest: string)
    requires codepoint < 0x10000
    ensures |Utf8(codepoint)| == Shortest(codepoint)
    ensures FirstSequence(Utf8(codepoint) + rest) == Some(Sequence(codepoint, Shortest(codepoint)))
  {
    var s := Utf8(codepoint) + rest;
    if codepoint >= 0x800 {
      assert s[0] as int == 0xe0 + codepoint / 4096 && s[1] as int == 0x80 + codepoint / 64 % 64 && s[2] as int == 0x80 + codepoint % 64;
    } else if codepoint >= 0x80 {
      assert s[0] as int == 0xc0 + codepoint / 64 && s[1] as int == 0x80 + codepoint % 64;
    }
  }

  /** They are the only such bytes. */
  lemma SequenceUnique(s: string, codepoint: nat)
    requires codepoint < 0x10000 && FirstSequence(s) == Some(Sequence(codepoint, Shortest(codepoint)))
    ensures Shortest(codepoint) <= |s| && s[..Shortest(codepoint)] == Utf8(codepoint)
  {
    var lead := s[0] as int;
    if codepoint >= 0x800 {
      assert codepoint == (lead - 0xe0) * 4096 + Payload(s[1]) * 64 + Payload(s[2]);
      assert codepoint / 4096 == lead - 0xe0 && codepoint / 64 % 64 == Payload(s[1]) && codepoint % 64 == Payload(s[2]);
      assert s[..3] == [s[0], s[1], s[2]];
    } else if codepoint >= 0x80 {
      assert codepoint / 64 == lead - 0xc0 && codepoint % 64 == Payload(s[1]);
      assert s[..2] == [s[0], s[1]];
    } else {
      assert s[..1] == [s[0]];
    }
  }

  // ----- the digits of an escape -----

  /** The character stands for the digit in the alphabet of small or of capital digits. */
  predicate IsDigitOf(c: char, digit: nat) {
    digit < 16 && (c == "0123456789abcdef"[digit] || c == "0123456789ABCDEF"[digit])
  }

  predicate IsHexadecimal(c: char) {
    '0' <= c <= '9' || 'a' <= c <= 'f' || 'A' <= c <= 'F'
  }

  /** The four characters spell the code point, its high digit first. */
  predicate Spells(digits: string, codepoint: nat) {
    && |digits| == 4
    && IsDigitOf(digits[0], codepoint / 16 / 16 / 16) && IsDigitOf(digits[1], codepoint / 16 / 16 % 16)
    && IsDigitOf(digits[2], codepoint / 16 % 16) && IsDigitOf(digits[3], codepoint % 16)
  }

  lemma DigitValue(c: char, digit: nat)
    requires digit < 16
    ensures IsDigitOf(c, digit) <==> HexValue(c) == digit
    ensures HexValue(c) < 0 <==> !IsHexadecimal(c)
  {
    assert forall d | 0 <= d < 10 :: "0123456789abcdef"[d] == ('0' as int + d) as char && "0123456789ABCDEF"[d] == ('0' as int + d) as char;
    assert forall d | 10 <= d < 16 :: "0123456789abcdef"[d] == ('a' as int + d - 10) as char && "0123456789ABCDEF"[d] == ('A' as int + d - 10) as char;
  }

  lemma ReadHexFour(digits: string, rest: string)
    requires |digits| == 4 && forall i :: 0 <= i < 4 ==> HexValue(digits[i]) >= 0
    ensures ReadHex(digits + rest, 0, 4) ==
            Got(((HexValue(digits[0]) * 16 + HexValue(digits[1])) * 16 + HexValue(digits[2])) * 16 + HexValue(digits[3]), rest)
  {
    hide HexValue;
    var s := digits + rest;
    assert s[1..][1..] == s[2..] && s[2..][1..] == s[3..] && s[3..][1..] == rest;
    var first := HexValue(digits[0]);
    var second := first * 16 + HexValue(digits[1]);
    var third := second * 16 + HexValue(digits[2]);
    assert ReadHex(s, 0, 4) == ReadHex(s[1..], first, 3);
    assert ReadHex(s[1..], first, 3) == ReadHex(s[2..], second, 2);
    assert ReadHex(s[2..], second, 2) == ReadHex(s[3..], third, 1);
  }

  lemma DigitsMakeUp(n: nat)
    ensures ((n / 16 / 16 / 16 * 16 + n / 16 / 16 % 16) * 16 + n / 16 % 16) * 16 + n % 16 == n
  {
    LastDigit(n);
    LastDigit(n / 16);
    LastDigit(n / 16 / 16);
  }

  lemma LastDigit(n: nat)
    ensures n / 16 * 16 + n % 16 == n
  {
  }

  lemma DigitsRead(a: nat, b: nat, c: nat, d: nat, digits: string, rest: string)
    requires |digits| == 4
    requires IsDigitOf(digits[0], a) && IsDigitOf(digits[1], b) && IsDigitOf(digits[2], c) && IsDigitOf(digits[3], d)
    ensures ReadHex(digits + rest, 0, 4) == Got(((a * 16 + b) * 16 + c) * 16 + d, rest)
  {
    DigitValue(digits[0], a);
    DigitValue(digits[1], b);
    DigitValue(digits[2], c);
    DigitValue(digits[3], d);
    hide HexValue, ReadHex;
    ReadHexFour(digits, rest);
  }

  lemma SpelledReads(codepoint: nat, digits: string, rest: string)
    requires Spells(digits, codepoint)
    ensures ReadHex(digits + rest, 0, 4) == Got(codepoint, rest)
  {
    hide IsDigitOf, ReadHex;
    DigitsRead(codepoint / 16 / 16 / 16, codepoint / 16 / 16 % 16, codepoint / 16 % 16, codepoint % 16, digits, rest);
    DigitsMakeUp(codepoint);
  }

  lemma EscapeIs(codepoint: nat, digits: string, rest: string)
    requires codepoint < 0x10000 && |digits| == 4 && ReadHex(digits + rest, 0, 4) == Got(codepoint, rest)
    ensures ReadPiece("\\u" + digits + rest) == Got(Utf8(codepoint), rest)
  {
    hide Utf8, ReadHex;
    var s := "\\u" + digits + rest;
    assert s[2..] == digits + rest && |s| >= 6;
  }

  /** The escape of any code point, in small or capital digits, is read as bytes that are read as the code point. */
  lemma EscapeReadsCodepoint(codepoint: nat, digits: string, rest: string)
    requires codepoint < 0x10000 && Spells(digits, codepoint)
    ensures
      var piece := ReadPiece("\\u" + digits + rest);
      && piece.Got? && piece.rest == rest
      && FirstSequence(piece.value) == Some(Sequence(codepoint, |piece.value|)) && |piece.value| == Shortest(codepoint)
  {
    SpelledReads(codepoint, digits, rest);
    EscapeIs(codepoint, digits, rest);
    SequenceReads(codepoint, "");
    assert Utf8(codepoint) + "" == Utf8(codepoint);
    hide *;
  }

  lemma {:induction false} ReadHexRefuses(s: string, codepoint: nat, digits: nat, i: nat)
    requires i < digits <= |s| && digits <= 4 && !IsHexadecimal(s[i])
    ensures ReadHex(s, codepoint, digits) == Bad(InvalidUnicode)
    decreases digits
  {
    DigitValue(s[i], 0);
    hide HexValue, IsHexadecimal;
    if HexValue(s[0]) >= 0 {
      ReadHexRefuses(s[1..], codepoint * 16 + HexValue(s[0]), digits - 1, i - 1);
    }
  }

  /** Any other four characters are refused, and so are fewer than four. */
  lemma EscapeRefused(digits: string, rest: string)
    ensures |digits| == 4 && (exists i :: 0 <= i < 4 && !IsHexadecimal(digits[i])) ==>
              ReadPiece("\\u" + digits + rest) == Bad(InvalidUnicode)
    ensures |digits| < 4 ==> ReadPiece("\\u" + digits) == Bad(ShortUnicode)
  {
    hide IsHexadecimal;
    if |digits| == 4 && exists i :: 0 <= i < 4 && !IsHexadecimal(digits[i]) {
      var i :| 0 <= i < 4 && !IsHexadecimal(digits[i]);
      ReadHexRefuses(digits + rest, 0, 4, i);
      assert ("\\u" + digits + rest)[2..] == digits + rest;
    }
  }

  // ----- the short escapes -----

  /** The byte a letter after the backslash stands for. */
  function Named(letter: char): Option<int> {
    match letter
    case '"' => Some(0x22)
    case '\\' => Some(0x5c)
    case '/' => Some(0x2f)
    case 'b' => Some(8)
    case 't' => Some(9)
    case 'n' => Some(10)
    case 'f' => Some(12)
    case 'r' => Some(13)
    case _ => None
  }

  lemma ShortEscapeReads(letter: char, rest: string)
    requires letter != 'u'
    ensures ReadPiece("\\" + [letter] + rest) ==
            if Named(letter).Some? then Got([Named(letter).value as char], rest) else Bad(InvalidEscape)
  {
    var s := "\\" + [letter] + rest;
    assert s[0] == '\\' && s[1] == letter && s[2..] == rest;
  }

  /** A byte is escaped only where it has to be and by a letter where it has one: no text that is read as the
      byte is shorter than the one written. */
  lemma EscapeShortest(c: char, text: string)
    requires text != "" && text[0] != '"' && ReadPiece(text) == Got([c], "")
    ensures |EscapedChar(c)| <= |text|
  {
    if text[0] == '\\' && text[1] == 'u' {
      assert |text| >= 6;
    }
  }
}
