/** What of a JSON text matters: blanks between its parts do not, and numbers may be written with a fraction and an
    exponent, which are told here by their parts (sections 2 and 6 of RFC 8259). */
module JsonSpelling {
  import opened Positions
  import opened Text
  import opened Json
  import JsonRoundTrip

  // ----- blanks -----

  predicate AllBlank(s: string) {
    forall c :: c in s ==> c as int == 0x20 || c as int == 0x09 || c as int == 0x0a || c as int == 0x0d
  }

  predicate StartsBlank(s: string) {
    s != "" && (s[0] as int == 0x20 || s[0] as int == 0x09 || s[0] as int == 0x0a || s[0] as int == 0x0d)
  }

  lemma {:induction false} BlanksSkipped(blanks: string, s: string)
    requires AllBlank(blanks)
    ensures SkipBlanks(blanks + s) == SkipBlanks(s)
  {
    if blanks == "" {
      assert blanks + s == s;
    } else {
      assert AllBlank(blanks[1..]) by {
        assert forall c :: c in blanks[1..] ==> c in blanks;
      }
      assert blanks[0] in blanks && (blanks + s)[0] == blanks[0] && (blanks + s)[1..] == blanks[1..] + s;
      BlanksSkipped(blanks[1..], s);
    }
  }

  lemma {:induction false} NothingElseSkipped(s: string)
    ensures !StartsBlank(SkipBlanks(s)) && (!StartsBlank(s) ==> SkipBlanks(s) == s)
  {
    if StartsBlank(s) {
      NothingElseSkipped(s[1..]);
    }
  }

  /** Blanks before a value, before an array's next item and before an object's next key change nothing of what is
      read, and neither do blanks after the text; no other character is passed over. */
  lemma BlanksIgnored(blanks: string, s: string, depth: nat, items: seq<Value>, fields: seq<Field>)
    requires AllBlank(blanks)
    ensures ReadValue(blanks + s, depth) == ReadValue(s, depth)
    ensures ReadItems(blanks + s, depth, items) == ReadItems(s, depth, items)
    ensures ReadFields(blanks + s, depth, fields) == ReadFields(s, depth, fields)
    ensures forall c :: Next(blanks + s, c) == Next(s, c) && (Next(s, c) ==> After(blanks + s, c) == After(s, c))
  {
    BlanksSkipped(blanks, s);
    ValueBlind(blanks + s, s, depth);
    ValueBlind(blanks + s, s, depth + 1);
    hide SkipBlanks, ReadValue;
  }

  lemma ValueBlind(s: string, t: string, depth: nat)
    requires SkipBlanks(s) == SkipBlanks(t)
    ensures ReadValue(s, depth) == ReadValue(t, depth)
  {
    hide SkipBlanks, ReadLiteral, ReadString, ReadItems, ReadFields, ReadNumber, Next, After;
  }

  // ----- numbers -----

  datatype Sign = NoSign | Plus | Minus

  /** The exponent of a number as written: `e` or `E`, a sign if there is one, and digits. */
  datatype Exponent = Exponent(capital: bool, sign: Sign, digits: string)

  datatype Spelling = Spelling(negative: bool, whole: string, fraction: Option<string>, exponent: Option<Exponent>)

  predicate AllDigits(s: string) {
    s != "" && forall c :: c in s ==> '0' <= c <= '9'
  }

  /** No leading zero, and digits where there must be some. */
  predicate IsNumber(n: Spelling) {
    && AllDigits(n.whole) && (n.whole[0] == '0' ==> n.whole == "0")
    && (n.fraction.Some? ==> AllDigits(n.fraction.value)) && (n.exponent.Some? ==> AllDigits(n.exponent.value.digits))
  }

  function SignText(sign: Sign): string {
    match sign
    case NoSign => ""
    case Plus => "+"
    case Minus => "-"
  }

  function FractionText(fraction: Option<string>): string {
    if fraction.Some? then "." + fraction.value else ""
  }

  function ExponentText(exponent: Option<Exponent>): string {
    if exponent.Some? then
      [if exponent.value.capital then 'E' else 'e'] + (SignText(exponent.value.sign) + exponent.value.digits)
    else ""
  }

  function NumberText(n: Spelling): string {
    (if n.negative then "-" else "") + (n.whole + (FractionText(n.fraction) + ExponentText(n.exponent)))
  }

  function Decimals(fraction: Option<string>): string {
    if fraction.Some? then fraction.value else ""
  }

  /** The digits without their point, and the power of ten that puts it back. */
  function Mantissa(n: Spelling): nat
    requires IsNumber(n)
  {
    NatValue(n.whole + Decimals(n.fraction))
  }

  function Scale(n: Spelling): int
    requires IsNumber(n)
  {
    ExponentValue(n.exponent) - |Decimals(n.fraction)|
  }

  function ExponentValue(exponent: Option<Exponent>): int
    requires exponent.Some? ==> AllDigits(exponent.value.digits)
  {
    if exponent.None? then 0
    else
      var n: int := NatValue(exponent.value.digits);
      if exponent.value.sign.Minus? then -n else n
  }

  predicate Ends(rest: string) {
    rest == "" || (!('0' <= rest[0] <= '9') && rest[0] != '.' && rest[0] != 'e' && rest[0] != 'E')
  }

  lemma DigitsRead(digits: string, rest: string, fault: JsonFault)
    requires AllDigits(digits) && (rest == "" || !IsDigit(rest[0]))
    ensures ReadDigits(digits + rest, fault) == Got(digits, rest)
    ensures digits[0] == '0' ==> digits == "0" || ReadWhole(digits + rest) == Got("0", digits[1..] + rest)
    ensures digits == "0" || digits[0] != '0' ==> ReadWhole(digits + rest) == Got(digits, rest)
  {
    JsonRoundTrip.DigitsCounted(digits, rest);
    var s := digits + rest;
    assert digits[0] in digits && s[0] == digits[0] && s[..|digits|] == digits && s[|digits|..] == rest;
    assert s[..1] == [digits[0]] && s[1..] == digits[1..] + rest;
    hide DigitCount;
  }

  lemma FractionRead(fraction: Option<string>, rest: string)
    requires (fraction.Some? ==> AllDigits(fraction.value)) && (rest == "" || (!IsDigit(rest[0]) && rest[0] != '.'))
    ensures ReadFraction(FractionText(fraction) + rest) == Got(if fraction.Some? then fraction.value else "", rest)
  {
    if fraction.Some? {
      DigitsRead(fraction.value, rest, InvalidFraction);
      var s := FractionText(fraction) + rest;
      assert s[0] == '.' && s[1..] == fraction.value + rest;
    } else {
      assert "" + rest == rest;
    }
    hide ReadDigits;
  }

  lemma SignRead(sign: Sign, digits: string, rest: string)
    requires AllDigits(digits)
    ensures
      var t := SignText(sign) + digits + rest;
      && (Starts(t, '-') <==> sign.Minus?) && (Starts(t, '+') <==> sign.Plus?)
      && (if Starts(t, '+') || Starts(t, '-') then t[1..] else t) == digits + rest
  {
    assert digits[0] in digits;
    var t := SignText(sign) + digits + rest;
    if sign.NoSign? {
      assert t == digits + rest;
    } else {
      assert t[1..] == digits + rest;
    }
  }

  lemma ExponentIs(s: string, t: string, u: string, digits: string, rest: string)
    requires s != "" && (s[0] == 'e' || s[0] == 'E') && t == s[1..] && u == (if Starts(t, '+') || Starts(t, '-') then t[1..] else t)
    requires ReadDigits(u, InvalidExponent) == Got(digits, rest) && forall c :: c in digits ==> IsDigit(c)
    ensures
      var n: int := NatValue(digits);
      ReadExponent(s) == Got(if Starts(t, '-') then -n else n, rest)
  {
    hide ReadDigits, NatValue;
  }

  lemma ExponentRead(exponent: Option<Exponent>, rest: string)
    requires Ends(rest) && (exponent.Some? ==> AllDigits(exponent.value.digits))
    ensures ReadExponent(ExponentText(exponent) + rest) == Got(ExponentValue(exponent), rest)
  {
    if exponent.Some? {
      var e := exponent.value;
      var s := ExponentText(exponent) + rest;
      var t := SignText(e.sign) + e.digits + rest;
      DigitsRead(e.digits, rest, InvalidExponent);
      SignRead(e.sign, e.digits, rest);
      ExponentCut(e, rest);
      hide ReadDigits, NatValue, ReadExponent, Starts, SignText, ExponentText;
      ExponentIs(s, t, e.digits + rest, e.digits, rest);
    } else {
      assert ExponentText(exponent) + rest == rest;
    }
  }

  lemma ExponentCut(e: Exponent, rest: string)
    ensures
      var s := ExponentText(Some(e)) + rest;
      s != "" && (s[0] == 'e' || s[0] == 'E') && s[1..] == SignText(e.sign) + e.digits + rest
  {
  }

  lemma Parts(n: Spelling, rest: string)
    requires IsNumber(n)
    ensures
      var s := NumberText(n) + rest;
      && (Starts(s, '-') <==> n.negative)
      && (if n.negative then s[1..] else s) == n.whole + (FractionText(n.fraction) + (ExponentText(n.exponent) + rest))
      && s[..|s| - |rest|] == NumberText(n)
  {
    hide FractionText, ExponentText;
    var s := NumberText(n) + rest;
    var tail := n.whole + (FractionText(n.fraction) + (ExponentText(n.exponent) + rest));
    assert n.whole[0] in n.whole;
    if n.negative {
      assert s == "-" + tail;
    } else {
      assert s == tail;
    }
  }

  lemma PartEnds(n: Spelling, rest: string)
    requires Ends(rest)
    ensures
      var more := ExponentText(n.exponent) + rest;
      && (more == "" || (!IsDigit(more[0]) && more[0] != '.'))
      && var tail := FractionText(n.fraction) + more;
         tail == "" || !IsDigit(tail[0])
  {
  }

  lemma DigitsJoin(a: string, b: string)
    requires (forall c :: c in a ==> IsDigit(c)) && (forall c :: c in b ==> IsDigit(c))
    ensures forall c :: c in a + b ==> IsDigit(c)
  {
  }

  lemma NumberIs(s: string, u: string, whole: string, r: string, fraction: string, q: string, exponent: int, rest: string)
    requires u == (if Starts(s, '-') then s[1..] else s) && ReadWhole(u) == Got(whole, r) && ReadFraction(r) == Got(fraction, q)
    requires ReadExponent(q) == Got(exponent, rest) && |rest| <= |s|
    requires (forall c :: c in whole ==> IsDigit(c)) && (forall c :: c in whole + fraction ==> IsDigit(c))
    ensures ReadNumber(s) ==
            if !InRange(NatValue(whole + fraction), exponent - |fraction|) then Bad(OutOfRange)
            else Got(NumberOf(Starts(s, '-'), whole, rest == r, s[..|s| - |rest|]), rest)
  {
    hide ReadWhole, ReadFraction, ReadExponent, NatValue, InRange, NumberOf, IsDigit, Starts;
  }

  /** A number reads as its digits shifted by its scale: an integer without fraction or exponent that a double holds
      exactly is that integer, any other number is known by its text, and one out of range is refused. */
  lemma NumberReads(n: Spelling, rest: string)
    requires IsNumber(n) && Ends(rest)
    ensures
      var plain := n.fraction.None? && n.exponent.None?;
      var value: int := NatValue(n.whole);
      ReadNumber(NumberText(n) + rest) ==
        if !InRange(Mantissa(n), Scale(n)) then Bad(OutOfRange)
        else if !plain || value > MAX_EXACT then Got(Other(NumberText(n)), rest)
        else if n.negative && value == 0 then Got(MinusZero, rest)
        else Got(Integer(if n.negative then -value else value), rest)
  {
    hide ReadWhole, ReadFraction, ReadExponent, ReadNumber, NatValue, InRange, DigitCount, FractionText, ExponentText, NumberText, Starts,
         ExponentValue;
    var more := ExponentText(n.exponent) + rest;
    var tail := FractionText(n.fraction) + more;
    Parts(n, rest);
    PartEnds(n, rest);
    DigitsRead(n.whole, tail, InvalidNumber);
    FractionRead(n.fraction, more);
    ExponentRead(n.exponent, rest);
    PlainEnd(n, rest);
    DigitsJoin(n.whole, Decimals(n.fraction));
    NumberIs(NumberText(n) + rest, n.whole + tail, n.whole, tail, Decimals(n.fraction), more, ExponentValue(n.exponent), rest);
  }

  /** Nothing is read after the whole part exactly if there is no fraction and no exponent. */
  lemma PlainEnd(n: Spelling, rest: string)
    ensures FractionText(n.fraction) + (ExponentText(n.exponent) + rest) == rest <==> n.fraction.None? && n.exponent.None?
  {
    if n.fraction.None? && n.exponent.None? {
      assert "" + ("" + rest) == rest;
    } else {
      assert |FractionText(n.fraction) + (ExponentText(n.exponent) + rest)| > |rest|;
    }
  }

  /** Whether a number is in range depends on its value alone, however the point and the exponent share it. */
  lemma RangeScales(mantissa: nat, exponent: int)
    ensures InRange(10 * mantissa, exponent) <==> InRange(mantissa, exponent + 1)
  {
    if exponent >= 0 {
      ShiftUp(mantissa, Power(10, exponent));
      assert Power(10, exponent + 1) == 10 * Power(10, exponent);
    } else {
      var p := Power(10, -exponent - 1);
      assert Power(10, -exponent) == 10 * p;
      ShiftDown(mantissa, p, Power(2, 970), Power(2, 1024));
      assert Power(10, 0) == 1;
    }
    hide Power;
  }

  lemma ShiftUp(m: nat, p: nat)
    ensures 10 * m * p == m * (10 * p)
  {
  }

  lemma ShiftDown(m: nat, p: nat, low: nat, high: nat)
    ensures 10 * m + 10 * p * low < 10 * p * high <==> m + p * low < p * high
  {
    assert 10 * p * low == 10 * (p * low) && 10 * p * high == 10 * (p * high);
  }
}
