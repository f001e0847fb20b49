/** JSON values, how they are written and how they are read (RFC 8259). Every character of a text here is
    one byte; a string may hold any bytes. */
module Json {
  import opened Text

  const MAX_DEPTH := 64
  const MAX_EXACT := 0x1F_FFFF_FFFF_FFFF

  /** The integers a double holds exactly together with both their neighbours. */
  type Exact = n: int | -MAX_EXACT <= n <= MAX_EXACT

  /** A number: an exact integer, minus zero, or any other, known by its text. */
  datatype Number = Integer(n: Exact) | MinusZero | Other(text: string)

  /** An object's fields stand in the order of their keys, as in an ordered map. */
  datatype Value = Null | Bool(b: bool) | Num(number: Number) | Str(text: string) | Array(items: seq<Value>)
                 | Object(fields: seq<Field>)

  datatype Field = Field(key: string, value: Value)

  datatype JsonFault = ExpectedValue | TooDeep | InvalidLiteral | UnexpectedCharacter | TrailingData | ExpectedString
                     | ControlCharacter | UnterminatedString | UnterminatedEscape | ShortUnicode | InvalidUnicode
                     | InvalidEscape | ShortNumber | InvalidNumber | InvalidFraction | InvalidExponent | OutOfRange
                     | ExpectedComma | ExpectedKey | ExpectedColon | DuplicateKey

  datatype Read<+T> = Got(value: T, rest: string) | Bad(fault: JsonFault)

  // ----- keys in order -----

  predicate Below(a: string, b: string) {
    b != "" && (a == "" || a[0] < b[0] || (a[0] == b[0] && Below(a[1..], b[1..])))
  }

  predicate HasKey(fields: seq<Field>, key: string) {
    exists i :: 0 <= i < |fields| && fields[i].key == key
  }

  /** A field put in its place among fields in order. */
  function Placed(fields: seq<Field>, field: Field): seq<Field> {
    if fields == [] || Below(field.key, fields[0].key) then [field] + fields
    else [fields[0]] + Placed(fields[1..], field)
  }

  predicate InOrder(fields: seq<Field>) {
    forall i, j :: 0 <= i < j < |fields| ==> Below(fields[i].key, fields[j].key)
  }

  // ----- writing -----

  function HexDigit(n: nat): char
    requires n < 16
  {
    if n < 10 then DigitChar(n) else ('a' as int + n - 10) as char
  }

  function EscapedChar(c: char): string {
    if c == '"' then "\\\""
    else if c == '\\' then "\\\\"
    else if c as int == 8 then "\\b"
    else if c as int == 12 then "\\f"
    else if c == '\n' then "\\n"
    else if c == '\r' then "\\r"
    else if c == '\t' then "\\t"
    else if c as int < 0x20 then "\\u00" + [HexDigit(c as int / 16), HexDigit(c as int % 16)]
    else [c]
  }

  function Escaped(text: string): string {
    if text == "" then "" else EscapedChar(text[0]) + Escaped(text[1..])
  }

  function Quoted(text: string): string {
    "\"" + Escaped(text) + "\""
  }

  function IntegerText(n: int): string {
    if n < 0 then "-" + NatText(-n) else NatText(n)
  }

  /** Whether every number is written exactly: an integer or minus zero. */
  predicate Writable(v: Value) {
    match v
    case Num(number) => !number.Other?
    case Array(items) => forall i :: 0 <= i < |items| ==> Writable(items[i])
    case Object(fields) => forall i :: 0 <= i < |fields| ==> Writable(fields[i].value)
    case _ => true
  }

  function Dump(v: Value): string
    requires Writable(v)
  {
    match v
    case Null => "null"
    case Bool(b) => if b then "true" else "false"
    case Num(number) => if number.MinusZero? then "-0" else IntegerText(number.n)
    case Str(text) => Quoted(text)
    case Array(items) => "[" + DumpItems(items, true) + "]"
    case Object(fields) => "{" + DumpFields(fields, true) + "}"
  }

  function Comma(first: bool): string {
    if first then "" else ","
  }

  function DumpItems(items: seq<Value>, first: bool): string
    requires forall i :: 0 <= i < |items| ==> Writable(items[i])
  {
    if items == [] then "" else Comma(first) + (Dump(items[0]) + DumpItems(items[1..], false))
  }

  function DumpField(field: Field): string
    requires Writable(field.value)
  {
    Quoted(field.key) + (":" + Dump(field.value))
  }

  function DumpFields(fields: seq<Field>, first: bool): string
    requires forall i :: 0 <= i < |fields| ==> Writable(fields[i].value)
  {
    if fields == [] then "" else Comma(first) + (DumpField(fields[0]) + DumpFields(fields[1..], false))
  }

  // ----- reading: space, strings -----

  predicate IsBlank(c: char) {
    c == ' ' || c == '\n' || c == '\r' || c == '\t'
  }

  function SkipBlanks(s: string): (rest: string)
    ensures |rest| <= |s|
  {
    if s != "" && IsBlank(s[0]) then SkipBlanks(s[1..]) else s
  }

  /** Whether a character comes next, leaving blanks aside. */
  predicate Next(s: string, c: char) {
    SkipBlanks(s) != "" && SkipBlanks(s)[0] == c
  }

  /** What follows that character. */
  function After(s: string, c: char): (rest: string)
    requires Next(s, c)
    ensures |rest| < |s|
  {
    SkipBlanks(s)[1..]
  }

  function HexValue(c: char): (n: int)
    ensures -1 <= n < 16
  {
    if '0' <= c <= '9' then c as int - '0' as int
    else if 'a' <= c <= 'f' then c as int - 'a' as int + 10
    else if 'A' <= c <= 'F' then c as int - 'A' as int + 10
    else -1
  }

  function Utf8(codepoint: nat): string
    requires codepoint < 0x10000
  {
    if codepoint <= 0x7f then [codepoint as char]
    else if codepoint <= 0x7ff then [(0xc0 + codepoint / 64) as char, (0x80 + codepoint % 64) as char]
    else [(0xe0 + codepoint / 4096) as char, (0x80 + codepoint / 64 % 64) as char, (0x80 + codepoint % 64) as char]
  }

  /** The four hexadecimal digits of an escape, read so far. */
  function ReadHex(s: string, codepoint: nat, digits: nat): Read<nat>
    requires digits <= |s| && digits <= 4
    decreases digits
  {
    if digits == 0 then Got(codepoint, s)
    else if HexValue(s[0]) < 0 then Bad(InvalidUnicode)
    else ReadHex(s[1..], codepoint * 16 + HexValue(s[0]), digits - 1)
  }

  lemma {:induction false} ReadHexBounded(s: string, codepoint: nat, digits: nat, limit: nat)
    requires digits <= |s| && digits <= 4 && codepoint < limit
    ensures var read := ReadHex(s, codepoint, digits);
            read.Got? ==>
              |read.rest| == |s| - digits &&
              read.value < limit * (if digits == 0 then 1 else if digits == 1 then 16 else if digits == 2 then 0x100
                                    else if digits == 3 then 0x1000 else 0x10000)
    decreases digits
  {
    if digits > 0 && HexValue(s[0]) >= 0 {
      ReadHexBounded(s[1..], codepoint * 16 + HexValue(s[0]), digits - 1, limit * 16);
    }
  }

  /** What the character after a backslash stands for, `u` aside. */
  function Unescaped(c: char): (piece: string) {
    if c == '"' then "\""
    else if c == '\\' then "\\"
    else if c == '/' then "/"
    else if c == 'b' then [8 as char]
    else if c == 'f' then [12 as char]
    else if c == 'n' then "\n"
    else if c == 'r' then "\r"
    else if c == 't' then "\t"
    else ""
  }

  /** One character of a string's body, or an escape: the bytes it stands for. */
  function ReadPiece(s: string): (piece: Read<string>)
    requires s != "" && s[0] != '"'
    ensures piece.Got? ==> |piece.rest| < |s|
  {
    if s[0] as int < 0x20 then Bad(ControlCharacter)
    else if s[0] != '\\' then Got([s[0]], s[1..])
    else if |s| == 1 then Bad(UnterminatedEscape)
    else if s[1] == 'u' then
      if |s| < 6 then Bad(ShortUnicode)
      else
        ReadHexBounded(s[2..], 0, 4, 1);
        var read := ReadHex(s[2..], 0, 4);
        if read.Bad? then Bad(read.fault) else Got(Utf8(read.value), read.rest)
    else if Unescaped(s[1]) == "" then Bad(InvalidEscape)
    else Got(Unescaped(s[1]), s[2..])
  }

  /** A string after its opening quote, given the bytes already read. */
  function ReadBody(s: string, read: string): (body: Read<string>)
    ensures body.Got? ==> |body.rest| < |s|
    decreases |s|
  {
    if s == "" then Bad(UnterminatedString)
    else if s[0] == '"' then Got(read, s[1..])
    else
      var piece := ReadPiece(s);
      if piece.Bad? then Bad(piece.fault) else ReadBody(piece.rest, read + piece.value)
  }

  function ReadString(s: string): (text: Read<string>)
    ensures text.Got? ==> |text.rest| < |s|
  {
    if !Next(s, '"') then Bad(ExpectedString) else ReadBody(After(s, '"'), "")
  }

  // ----- reading: numbers -----

  function DigitCount(s: string): (count: nat)
    ensures count <= |s| && (forall i :: 0 <= i < count ==> IsDigit(s[i])) && (count < |s| ==> !IsDigit(s[count]))
  {
    if s != "" && IsDigit(s[0]) then 1 + DigitCount(s[1..]) else 0
  }

  function Power(base: nat, exponent: nat): nat {
    if exponent == 0 then 1 else base * Power(base, exponent - 1)
  }

  /** Whether mantissa * 10^exponent rounds to a finite double: it is below 2^1024 - 2^970, halfway from the
      largest to what would come next. */
  predicate InRange(mantissa: nat, exponent: int) {
    if exponent >= 0 then mantissa * Power(10, exponent) + Power(2, 970) < Power(2, 1024)
    else mantissa + Power(10, -exponent) * Power(2, 970) < Power(10, -exponent) * Power(2, 1024)
  }

  predicate Starts(s: string, c: char) {
    s != "" && s[0] == c
  }

  /** The digits before the point, at the start of a text: a lone zero, or digits that do not begin with one. */
  function ReadWhole(s: string): (whole: Read<string>)
    ensures whole.Got? ==> s == whole.value + whole.rest && whole.value != "" && forall c :: c in whole.value ==> IsDigit(c)
  {
    if s == "" then Bad(ShortNumber)
    else if s[0] == '0' then Got(s[..1], s[1..])
    else if !IsDigit(s[0]) then Bad(InvalidNumber)
    else Got(s[..DigitCount(s)], s[DigitCount(s)..])
  }

  function ReadDigits(s: string, fault: JsonFault): (digits: Read<string>)
    ensures digits.Got? ==> s == digits.value + digits.rest && digits.value != "" && forall c :: c in digits.value ==> IsDigit(c)
  {
    if s == "" || !IsDigit(s[0]) then Bad(fault) else Got(s[..DigitCount(s)], s[DigitCount(s)..])
  }

  /** The digits after a point, if one comes next. */
  function ReadFraction(s: string): (fraction: Read<string>)
    ensures fraction.Got? ==> |fraction.rest| <= |s| && forall c :: c in fraction.value ==> IsDigit(c)
  {
    if Starts(s, '.') then ReadDigits(s[1..], InvalidFraction) else Got("", s)
  }

  /** The exponent, if an `e` comes next: its sign and digits. */
  function ReadExponent(s: string): (exponent: Read<int>)
    ensures exponent.Got? ==> |exponent.rest| <= |s|
  {
    var zero: int := 0;
    if !Starts(s, 'e') && !Starts(s, 'E') then Got(zero, s)
    else
      var t := s[1..];
      var digits := ReadDigits(if Starts(t, '+') || Starts(t, '-') then t[1..] else t, InvalidExponent);
      if digits.Bad? then Bad(digits.fault)
      else
        var n: int := NatValue(digits.value);
        Got(if Starts(t, '-') then -n else n, digits.rest)
  }

  /** The number a text stands for: exact where it is written as an integer of at most `MAX_EXACT`. */
  function NumberOf(negative: bool, whole: string, plain: bool, text: string): Number
    requires forall c :: c in whole ==> IsDigit(c)
  {
    var n: int := NatValue(whole);
    if !plain || n > MAX_EXACT then Other(text)
    else if !negative then Integer(n)
    else if n == 0 then MinusZero
    else Integer(-n)
  }

  function ReadNumber(s: string): (number: Read<Number>)
    ensures number.Got? ==> |number.rest| < |s|
  {
    var negative := Starts(s, '-');
    var whole := ReadWhole(if negative then s[1..] else s);
    if whole.Bad? then Bad(whole.fault)
    else
      var fraction := ReadFraction(whole.rest);
      if fraction.Bad? then Bad(fraction.fault)
      else
        var exponent := ReadExponent(fraction.rest);
        if exponent.Bad? then Bad(exponent.fault)
        else
          var digits := whole.value + fraction.value;
          var text := s[..|s| - |exponent.rest|];
          if !InRange(NatValue(digits), exponent.value - |fraction.value|) then Bad(OutOfRange)
          else Got(NumberOf(negative, whole.value, exponent.rest == whole.rest, text), exponent.rest)
  }

  // ----- reading: values -----

  function ReadLiteral(s: string, word: string, v: Value): (read: Read<Value>)
    requires word != ""
    ensures read.Got? ==> |read.rest| < |s|
  {
    if word <= s then Got(v, s[|word|..]) else Bad(InvalidLiteral)
  }

  function ReadValue(s: string, depth: nat): (read: Read<Value>)
    ensures read.Got? ==> |read.rest| < |s|
    decreases |s|, 1
  {
    var t := SkipBlanks(s);
    if t == "" then Bad(ExpectedValue)
    else if depth > MAX_DEPTH then Bad(TooDeep)
    else if t[0] == 'n' then ReadLiteral(t, "null", Null)
    else if t[0] == 't' then ReadLiteral(t, "true", Bool(true))
    else if t[0] == 'f' then ReadLiteral(t, "false", Bool(false))
    else if t[0] == '"' then
      var text := ReadString(t);
      if text.Bad? then Bad(text.fault) else Got(Str(text.value), text.rest)
    else if t[0] == '[' then
      if Next(t[1..], ']') then Got(Array([]), After(t[1..], ']')) else ReadItems(t[1..], depth, [])
    else if t[0] == '{' then
      if Next(t[1..], '}') then Got(Object([]), After(t[1..], '}')) else ReadFields(t[1..], depth, [])
    else if t[0] == '-' || IsDigit(t[0]) then
      var number := ReadNumber(t);
      if number.Bad? then Bad(number.fault) else Got(Num(number.value), number.rest)
    else Bad(UnexpectedCharacter)
  }

  /** An array's items up to its end, given those already read. */
  function ReadItems(s: string, depth: nat, items: seq<Value>): (read: Read<Value>)
    ensures read.Got? ==> |read.rest| < |s|
    decreases |s|, 2
  {
    var item := ReadValue(s, depth + 1);
    if item.Bad? then item
    else
      var more := items + [item.value];
      if Next(item.rest, ']') then Got(Array(more), After(item.rest, ']'))
      else if Next(item.rest, ',') then ReadItems(After(item.rest, ','), depth, more)
      else Bad(ExpectedComma)
  }

  /** An object's fields up to its end, given those already read. */
  function ReadFields(s: string, depth: nat, fields: seq<Field>): (read: Read<Value>)
    ensures read.Got? ==> |read.rest| < |s|
    decreases |s|, 2
  {
    if !Next(s, '"') then Bad(ExpectedKey)
    else
      var key := ReadString(s);
      if key.Bad? then Bad(key.fault)
      else if !Next(key.rest, ':') then Bad(ExpectedColon)
      else
        var value := ReadValue(After(key.rest, ':'), depth + 1);
        if value.Bad? then value
        else if HasKey(fields, key.value) then Bad(DuplicateKey)
        else
          var more := Placed(fields, Field(key.value, value.value));
          if Next(value.rest, '}') then Got(Object(more), After(value.rest, '}'))
          else if Next(value.rest, ',') then ReadFields(After(value.rest, ','), depth, more)
          else Bad(ExpectedComma)
  }

  /** A whole text as one value. */
  function Parse(s: string): Read<Value> {
    var read := ReadValue(s, 0);
    if read.Bad? then read
    else if SkipBlanks(read.rest) != "" then Bad(TrailingData)
    else Got(read.value, "")
  }
}
