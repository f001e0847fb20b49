/** The grammar of JSON texts (sections 2 to 7 of RFC 8259), by derivation trees, and that the parser reads a text as
    a value exactly if a tree derives the text and says the value. */
module JsonGrammar {
  import opened Positions
  import opened Text
  import opened Json
  import opened JsonSpelling
  import opened Utf8Escapes
  import JsonRoundTrip

  // ----- derivations -----

  /** A piece of a string: a character as it is, an escape by a letter, or one by the digits of a code point. */
  datatype Bit = Plain(c: char) | Short(letter: char) | Long(digits: string, codepoint: nat)

  datatype Tree =
    | Word(value: Value)
    | Digits(n: Spelling)
    | Quote(bits: seq<Bit>)
    | List(inside: string, items: seq<Spaced>)
    | Record(gap: string, members: seq<Member>)

  datatype Spaced = Spaced(before: string, tree: Tree, behind: string)

  datatype Member = Member(front: string, key: seq<Bit>, middle: string, said: Spaced)

  predicate IsBit(bit: Bit) {
    match bit
    case Plain(c) => c as int >= 0x20 && c != '"' && c != '\\'
    case Short(letter) => Named(letter).Some?
    case Long(digits, codepoint) => codepoint < 0x10000 && Spells(digits, codepoint)
  }

  function BitText(bit: Bit): string {
    match bit
    case Plain(c) => [c]
    case Short(letter) => "\\" + [letter]
    case Long(digits, _) => "\\u" + digits
  }

  function BitBytes(bit: Bit): string
    requires IsBit(bit)
  {
    match bit
    case Plain(c) => [c]
    case Short(letter) => [Named(letter).value as char]
    case Long(_, codepoint) => Utf8(codepoint)
  }

  predicate AreBits(bits: seq<Bit>) {
    forall i :: 0 <= i < |bits| ==> IsBit(bits[i])
  }

  function BitsText(bits: seq<Bit>): string {
    if bits == [] then "" else BitText(bits[0]) + BitsText(bits[1..])
  }

  function BitsBytes(bits: seq<Bit>): string
    requires AreBits(bits)
  {
    if bits == [] then "" else BitBytes(bits[0]) + BitsBytes(bits[1..])
  }

  function QuoteText(bits: seq<Bit>): string {
    "\"" + (BitsText(bits) + "\"")
  }

  // ----- strings -----

  lemma BitReads(bit: Bit, rest: string)
    requires IsBit(bit)
    ensures
      var s := BitText(bit) + rest;
      s != "" && s[0] != '"' && ReadPiece(s) == Got(BitBytes(bit), rest)
  {
    match bit
    case Plain(c) =>
      assert ([c] + rest)[1..] == rest;
    case Short(letter) =>
      assert letter != 'u';
      ShortEscapeReads(letter, rest);
    case Long(digits, codepoint) =>
      SpelledReads(codepoint, digits, rest);
      EscapeIs(codepoint, digits, rest);
  }

  lemma {:induction false} BitsRead(bits: seq<Bit>, read: string, rest: string)
    requires AreBits(bits)
    ensures ReadBody(BitsText(bits) + ("\"" + rest), read) == Got(read + BitsBytes(bits), rest)
  {
    hide ReadPiece, IsBit, BitText, BitBytes;
    if bits == [] {
      assert "" + ("\"" + rest) == "\"" + rest && ("\"" + rest)[1..] == rest && read + "" == read;
    } else {
      var more := BitsText(bits[1..]) + ("\"" + rest);
      BitReads(bits[0], more);
      assert BitsText(bits) + ("\"" + rest) == BitText(bits[0]) + more;
      BitsRead(bits[1..], read + BitBytes(bits[0]), rest);
      assert read + BitBytes(bits[0]) + BitsBytes(bits[1..]) == read + BitsBytes(bits);
    }
  }

  /** A character that is no blank is met behind blanks. */
  lemma Meets(blanks: string, c: char, rest: string)
    requires AllBlank(blanks) && !IsBlank(c)
    ensures SkipBlanks(blanks + ([c] + rest)) == [c] + rest
    ensures Next(blanks + ([c] + rest), c) && After(blanks + ([c] + rest), c) == rest
    ensures forall d :: Next(blanks + ([c] + rest), d) <==> d == c
  {
    BlanksSkipped(blanks, [c] + rest);
    assert ([c] + rest)[0] == c && ([c] + rest)[1..] == rest;
    NothingElseSkipped([c] + rest);
  }

  lemma QuoteReads(blanks: string, bits: seq<Bit>, rest: string)
    requires AllBlank(blanks) && AreBits(bits)
    ensures Next(blanks + (QuoteText(bits) + rest), '"')
    ensures ReadString(blanks + (QuoteText(bits) + rest)) == Got(BitsBytes(bits), rest)
  {
    hide ReadBody, SkipBlanks, BitsText, BitsBytes, Next, After, AreBits, AllBlank;
    var body := BitsText(bits) + ("\"" + rest);
    assert QuoteText(bits) + rest == ['"'] + body;
    Meets(blanks, '"', body);
    BitsRead(bits, "", rest);
    assert "" + BitsBytes(bits) == BitsBytes(bits);
  }

  lemma Pushed(n: nat, d: nat)
    requires d < 16
    ensures (n * 16 + d) / 16 == n && (n * 16 + d) % 16 == d
  {
  }

  function FourDigits(a: nat, b: nat, c: nat, d: nat): nat {
    ((a * 16 + b) * 16 + c) * 16 + d
  }

  lemma SpelledBy(digits: string, a: nat, b: nat, c: nat, d: nat)
    requires |digits| == 4 && a < 16 && b < 16 && c < 16 && d < 16
    requires HexValue(digits[0]) == a && HexValue(digits[1]) == b && HexValue(digits[2]) == c && HexValue(digits[3]) == d
    ensures Spells(digits, FourDigits(a, b, c, d))
  {
    Utf8Escapes.DigitValue(digits[0], a);
    Utf8Escapes.DigitValue(digits[1], b);
    Utf8Escapes.DigitValue(digits[2], c);
    Utf8Escapes.DigitValue(digits[3], d);
    var n1, n2 := FourTaken(a, b, c, d);
    hide HexValue, IsDigitOf, Spells, FourDigits;
    SpelledIs(digits, FourDigits(a, b, c, d), n1, n2, a);
  }

  lemma FourTaken(a: nat, b: nat, c: nat, d: nat) returns (n1: nat, n2: nat)
    requires a < 16 && b < 16 && c < 16 && d < 16
    ensures FourDigits(a, b, c, d) / 16 == n1 && FourDigits(a, b, c, d) % 16 == d
    ensures n1 / 16 == n2 && n1 % 16 == c && n2 / 16 == a && n2 % 16 == b
  {
    n2 := a * 16 + b;
    n1 := n2 * 16 + c;
    Pushed(a, b);
    Pushed(n2, c);
    Pushed(n1, d);
  }

  lemma SpelledIs(digits: string, n: nat, n1: nat, n2: nat, n3: nat)
    requires |digits| == 4 && n1 == n / 16 && n2 == n1 / 16 && n3 == n2 / 16
    requires IsDigitOf(digits[0], n3) && IsDigitOf(digits[1], n2 % 16) && IsDigitOf(digits[2], n1 % 16) && IsDigitOf(digits[3], n % 16)
    ensures Spells(digits, n)
  {
  }

  lemma FourBounded(a: nat, b: nat, c: nat, d: nat)
    requires a < 16 && b < 16 && c < 16 && d < 16
    ensures FourDigits(a, b, c, d) < 0x10000
  {
  }

  lemma HexRead(digits: string, rest: string)
    requires |digits| == 4 && forall i :: 0 <= i < 4 ==> HexValue(digits[i]) >= 0
    ensures ReadHex(digits + rest, 0, 4) == Got(FourDigits(HexValue(digits[0]), HexValue(digits[1]), HexValue(digits[2]), HexValue(digits[3])), rest)
  {
    ReadHexFour(digits, rest);
  }

  lemma AllHexadecimal(digits: string, rest: string)
    requires |digits| == 4 && ReadPiece("\\u" + digits + rest).Got?
    ensures forall i :: 0 <= i < 4 ==> HexValue(digits[i]) >= 0
  {
    EscapeRefused(digits, rest);
    hide ReadPiece;
    forall i | 0 <= i < 4
      ensures HexValue(digits[i]) >= 0
    {
      Utf8Escapes.DigitValue(digits[i], 0);
    }
  }

  lemma LongDerives(digits: string, rest: string) returns (codepoint: nat)
    requires |digits| == 4 && ReadPiece("\\u" + digits + rest).Got?
    ensures codepoint < 0x10000 && Spells(digits, codepoint) && ReadPiece("\\u" + digits + rest) == Got(Utf8(codepoint), rest)
  {
    AllHexadecimal(digits, rest);
    hide ReadPiece, HexValue, Spells, Utf8, ReadHex;
    var a, b, c, d := HexValue(digits[0]), HexValue(digits[1]), HexValue(digits[2]), HexValue(digits[3]);
    FourBounded(a, b, c, d);
    hide FourDigits;
    codepoint := FourDigits(a, b, c, d);
    SpelledBy(digits, a, b, c, d);
    HexRead(digits, rest);
    EscapeIs(codepoint, digits, rest);
  }

  lemma PieceDerives(s: string) returns (bit: Bit)
    requires s != "" && s[0] != '"' && ReadPiece(s).Got?
    ensures IsBit(bit) && ReadPiece(s).value == BitBytes(bit) && s == BitText(bit) + ReadPiece(s).rest
  {
    if s[0] != '\\' {
      bit := Plain(s[0]);
    } else if s[1] == 'u' {
      var digits := s[2..6];
      assert s == "\\u" + digits + s[6..];
      var codepoint := LongDerives(digits, s[6..]);
      bit := Long(digits, codepoint);
    } else {
      ShortEscapeReads(s[1], s[2..]);
      assert s == "\\" + [s[1]] + s[2..];
      bit := Short(s[1]);
    }
  }

  lemma {:induction false} BitsDerive(s: string, read: string) returns (bits: seq<Bit>)
    requires ReadBody(s, read).Got?
    ensures
      var body := ReadBody(s, read);
      AreBits(bits) && body.value == read + BitsBytes(bits) && s == BitsText(bits) + ("\"" + body.rest)
    decreases |s|
  {
    hide ReadPiece, IsBit, BitText, BitBytes;
    if s[0] == '"' {
      bits := [];
      assert s == "" + ("\"" + s[1..]) && read + "" == read;
    } else {
      var piece := ReadPiece(s);
      var bit := PieceDerives(s);
      var more := BitsDerive(piece.rest, read + piece.value);
      bits := [bit] + more;
      assert bits[1..] == more;
      BitsFirst(bit, more, ReadBody(s, read).rest, read);
    }
  }

  lemma BitsFirst(bit: Bit, more: seq<Bit>, rest: string, read: string)
    requires IsBit(bit) && AreBits(more)
    ensures AreBits([bit] + more)
    ensures BitsText([bit] + more) + ("\"" + rest) == BitText(bit) + (BitsText(more) + ("\"" + rest))
    ensures read + BitsBytes([bit] + more) == read + BitBytes(bit) + BitsBytes(more)
  {
    hide IsBit, BitText, BitBytes;
    assert ([bit] + more)[1..] == more;
  }

  lemma QuoteDerives(s: string) returns (blanks: string, bits: seq<Bit>)
    requires ReadString(s).Got?
    ensures AllBlank(blanks) && AreBits(bits) && ReadString(s).value == BitsBytes(bits)
    ensures s == blanks + (QuoteText(bits) + ReadString(s).rest)
  {
    blanks := BlanksOf(s);
    bits := BitsDerive(After(s, '"'), "");
    hide ReadBody, BitsText, BitsBytes;
    assert "" + BitsBytes(bits) == BitsBytes(bits);
    assert SkipBlanks(s) == QuoteText(bits) + ReadString(s).rest;
  }

  lemma {:induction false} BlanksOf(s: string) returns (blanks: string)
    ensures AllBlank(blanks) && s == blanks + SkipBlanks(s)
  {
    if s != "" && IsBlank(s[0]) {
      var more := BlanksOf(s[1..]);
      blanks := [s[0]] + more;
    } else {
      blanks := "";
    }
  }

  // ----- numbers -----

  /** The number a spelling says: exact if it is a plain integer that a double holds, and its text otherwise. */
  function NumberSaid(n: Spelling): Number
    requires IsNumber(n)
  {
    var value: int := NatValue(n.whole);
    if n.fraction.Some? || n.exponent.Some? || value > MAX_EXACT then Other(NumberText(n))
    else if n.negative && value == 0 then MinusZero
    else Integer(if n.negative then -value else value)
  }

  lemma SpellingReads(n: Spelling, rest: string)
    requires IsNumber(n) && Ends(rest)
    ensures ReadNumber(NumberText(n) + rest) == if InRange(Mantissa(n), Scale(n)) then Got(NumberSaid(n), rest) else Bad(OutOfRange)
  {
    NumberReads(n, rest);
    hide ReadNumber, NumberText, InRange, NatValue, Mantissa, Scale;
  }

  lemma WholeDerives(u: string)
    requires ReadWhole(u).Got?
    ensures
      var whole := ReadWhole(u).value;
      AllDigits(whole) && (whole[0] == '0' ==> whole == "0") && u == whole + ReadWhole(u).rest
  {
  }

  lemma FractionDerives(r: string) returns (fraction: Option<string>)
    requires ReadFraction(r).Got?
    ensures (fraction.Some? ==> AllDigits(fraction.value)) && r == FractionText(fraction) + ReadFraction(r).rest
  {
    if Starts(r, '.') {
      fraction := Some(ReadFraction(r).value);
      assert r == "." + r[1..];
    } else {
      fraction := None;
      assert r == "" + r;
    }
  }

  lemma Grouped(a: string, b: string, c: string)
    ensures a + (b + c) == a + b + c
  {
  }

  lemma Signed(t: string, sign: Sign, u: string)
    requires sign == (if Starts(t, '+') then Plus else if Starts(t, '-') then Minus else NoSign)
    requires u == (if sign.NoSign? then t else t[1..])
    ensures t == SignText(sign) + u
  {
    if sign.NoSign? {
      assert t == "" + t;
    } else {
      assert t == [t[0]] + t[1..];
    }
  }

  lemma ExponentJoins(e: Exponent, q: string, t: string, u: string, rest: string)
    requires q == [if e.capital then 'E' else 'e'] + t && t == SignText(e.sign) + u && u == e.digits + rest
    ensures q == ExponentText(Some(e)) + rest
  {
    Grouped(SignText(e.sign), e.digits, rest);
    Grouped([if e.capital then 'E' else 'e'], SignText(e.sign) + e.digits, rest);
    hide SignText;
  }

  lemma ExponentDerives(q: string) returns (exponent: Option<Exponent>)
    requires ReadExponent(q).Got?
    ensures (exponent.Some? ==> AllDigits(exponent.value.digits)) && q == ExponentText(exponent) + ReadExponent(q).rest
  {
    hide SignText, ExponentText, AllDigits, ReadDigits, NatValue;
    if Starts(q, 'e') || Starts(q, 'E') {
      var e := MarkedDerives(q);
      exponent := Some(e);
    } else {
      exponent := None;
      NoExponent(q);
    }
  }

  lemma NoExponent(q: string)
    ensures q == ExponentText(None) + q
  {
  }

  lemma MarkedIs(q: string, t: string, u: string)
    requires ReadExponent(q).Got? && (Starts(q, 'e') || Starts(q, 'E')) && t == q[1..]
    requires u == if Starts(t, '+') || Starts(t, '-') then t[1..] else t
    ensures ReadDigits(u, InvalidExponent).Got? && ReadDigits(u, InvalidExponent).rest == ReadExponent(q).rest
  {
    hide ReadDigits, NatValue;
  }

  lemma DigitsDerive(u: string)
    requires ReadDigits(u, InvalidExponent).Got?
    ensures AllDigits(ReadDigits(u, InvalidExponent).value) && u == ReadDigits(u, InvalidExponent).value + ReadDigits(u, InvalidExponent).rest
  {
  }

  lemma Headed(q: string, t: string)
    requires q != "" && (q[0] == 'e' || q[0] == 'E') && t == q[1..]
    ensures q == [if q[0] == 'E' then 'E' else 'e'] + t
  {
  }

  lemma MarkedDerives(q: string) returns (e: Exponent)
    requires ReadExponent(q).Got? && (Starts(q, 'e') || Starts(q, 'E'))
    ensures AllDigits(e.digits) && q == ExponentText(Some(e)) + ReadExponent(q).rest
  {
    var t := q[1..];
    var sign := if Starts(t, '+') then Plus else if Starts(t, '-') then Minus else NoSign;
    var u := if sign.NoSign? then t else t[1..];
    MarkedIs(q, t, u);
    Headed(q, t);
    hide ReadDigits, ReadExponent, SignText, ExponentText, AllDigits;
    DigitsDerive(u);
    Signed(t, sign, u);
    var digits := ReadDigits(u, InvalidExponent);
    e := Exponent(q[0] == 'E', sign, digits.value);
    hide Starts;
    ExponentJoins(e, q, t, u, digits.rest);
  }

  lemma NumberJoins(n: Spelling, s: string, u: string, r: string, q: string, rest: string)
    requires s == (if n.negative then "-" else "") + u && u == n.whole + r && r == FractionText(n.fraction) + q
    requires q == ExponentText(n.exponent) + rest
    ensures s == NumberText(n) + rest
  {
    hide FractionText, ExponentText;
    var sign, fraction, exponent := if n.negative then "-" else "", FractionText(n.fraction), ExponentText(n.exponent);
    Grouped(fraction, exponent, rest);
    Grouped(n.whole, fraction + exponent, rest);
    Grouped(sign, n.whole + (fraction + exponent), rest);
  }

  lemma NumberDerives(s: string) returns (n: Spelling)
    requires ReadNumber(s).Got?
    ensures IsNumber(n) && s == NumberText(n) + ReadNumber(s).rest
  {
    var u := if Starts(s, '-') then s[1..] else s;
    var r := ReadWhole(u).rest;
    WholeDerives(u);
    hide ReadWhole;
    var fraction := FractionDerives(r);
    hide ReadFraction;
    var q := ReadFraction(r).rest;
    var exponent := ExponentDerives(q);
    hide ReadExponent;
    n := Spelling(Starts(s, '-'), ReadWhole(u).value, fraction, exponent);
    assert s == (if n.negative then "-" else "") + u;
    NumberJoins(n, s, u, r, q, ReadExponent(q).rest);
    hide FractionText, ExponentText, NumberText, NatValue, InRange, NumberOf;
  }

  // ----- values -----

  function WordText(v: Value): string {
    if v == Bool(true) then "true" else if v == Bool(false) then "false" else "null"
  }

  function TreeText(t: Tree): string
    decreases t
  {
    match t
    case Word(v) => WordText(v)
    case Digits(n) => NumberText(n)
    case Quote(bits) => QuoteText(bits)
    case List(inside, items) => "[" + if items == [] then inside + "]" else ItemsText(items)
    case Record(gap, members) => "{" + if members == [] then gap + "}" else MembersText(members)
  }

  function SpacedText(sp: Spaced): string
    decreases sp
  {
    sp.before + (TreeText(sp.tree) + sp.behind)
  }

  function ItemsText(items: seq<Spaced>): string
    requires items != []
    decreases items
  {
    SpacedText(items[0]) + if |items| == 1 then "]" else "," + ItemsText(items[1..])
  }

  function MemberText(m: Member): string
    decreases m
  {
    m.front + (QuoteText(m.key) + (m.middle + (":" + SpacedText(m.said))))
  }

  function MembersText(members: seq<Member>): string
    requires members != []
    decreases members
  {
    MemberText(members[0]) + if |members| == 1 then "}" else "," + MembersText(members[1..])
  }

  /** The tree says the value, at a depth: an array its items in their order, an object its fields in the order of their
      keys, of which none is named twice. */
  ghost predicate Says(t: Tree, v: Value, depth: nat)
    decreases t
  {
    && depth <= 64
    && match t
       case Word(w) => v == w && (w.Null? || w.Bool?)
       case Digits(n) => IsNumber(n) && InRange(Mantissa(n), Scale(n)) && v == Num(NumberSaid(n))
       case Quote(bits) => AreBits(bits) && v == Str(BitsBytes(bits))
       case List(inside, items) => AllBlank(inside) && v.Array? && SayItems(items, v.items, depth + 1)
       case Record(gap, members) => AllBlank(gap) && v.Object? && InOrder(v.fields) && SayObject(members, v.fields, depth + 1)
  }

  ghost predicate SaysSpaced(sp: Spaced, v: Value, depth: nat)
    decreases sp
  {
    AllBlank(sp.before) && AllBlank(sp.behind) && Says(sp.tree, v, depth)
  }

  ghost predicate SayItems(items: seq<Spaced>, values: seq<Value>, depth: nat)
    decreases items
  {
    && |items| == |values|
    && (items == [] || (SaysSpaced(items[0], values[0], depth) && SayItems(items[1..], values[1..], depth)))
  }

  ghost predicate SaysMember(m: Member, field: Field, depth: nat)
    decreases m
  {
    && AllBlank(m.front) && AllBlank(m.middle) && AreBits(m.key) && field.key == BitsBytes(m.key)
    && SaysSpaced(m.said, field.value, depth)
  }

  ghost predicate SayFields(members: seq<Member>, fields: seq<Field>, depth: nat)
    decreases members, 0
  {
    && |members| == |fields|
    && (members == [] || (SaysMember(members[0], fields[0], depth) && SayFields(members[1..], fields[1..], depth)))
  }

  predicate KeysApart(fields: seq<Field>) {
    forall i, j :: 0 <= i < j < |fields| ==> fields[i].key != fields[j].key
  }

  ghost predicate SayObject(members: seq<Member>, fields: seq<Field>, depth: nat)
    decreases members, 1
  {
    exists said :: SayFields(members, said, depth) && KeysApart(said) && forall f :: f in fields <==> f in said
  }

  // ----- fields in order -----

  /** The fields of an object as the parser gathers them. */
  function Gathered(read: seq<Field>, said: seq<Field>): seq<Field>
    decreases |said|
  {
    if said == [] then read else Gathered(Placed(read, said[0]), said[1..])
  }

  lemma {:induction false} PlacedKeys(fields: seq<Field>, field: Field, key: string)
    ensures HasKey(Placed(fields, field), key) <==> HasKey(fields, key) || key == field.key
  {
    if HasKey(Placed(fields, field), key) {
      var i :| 0 <= i < |Placed(fields, field)| && Placed(fields, field)[i].key == key;
      JsonRoundTrip.PlacedHolds(fields, field, Placed(fields, field)[i]);
    }
    if HasKey(fields, key) {
      var i :| 0 <= i < |fields| && fields[i].key == key;
      JsonRoundTrip.PlacedHolds(fields, field, fields[i]);
    }
    JsonRoundTrip.PlacedHolds(fields, field, field);
  }

  lemma {:induction false} GatheredExact(read: seq<Field>, said: seq<Field>)
    requires InOrder(read) && KeysApart(said) && forall f :: f in said ==> !HasKey(read, f.key)
    ensures InOrder(Gathered(read, said)) && forall f :: f in Gathered(read, said) <==> f in read || f in said
    decreases |said|
  {
    hide Placed, InOrder;
    if said != [] {
      var first, more := said[0], said[1..];
      JsonRoundTrip.PlacedInOrder(read, first);
      forall f | f in more
        ensures !HasKey(Placed(read, first), f.key)
      {
        PlacedKeys(read, first, f.key);
      }
      hide HasKey;
      GatheredExact(Placed(read, first), more);
      forall f
        ensures f in Placed(read, first) <==> f in read || f == first
      {
        JsonRoundTrip.PlacedHolds(read, first, f);
      }
      assert forall f :: f in said <==> f == first || f in more;
    }
  }

  lemma BelowApart(a: string, b: string)
    requires Below(a, b)
    ensures a != b && !Below(b, a)
  {
    JsonRoundTrip.BelowOrders(a, b);
  }

  /** Fields in order are told by what they are. */
  lemma {:induction false} OrderedSame(a: seq<Field>, b: seq<Field>)
    requires InOrder(a) && InOrder(b) && forall f :: f in a <==> f in b
    ensures a == b
    decreases |a|
  {
    EmptySame(b, a);
    if a != [] {
      EmptySame(a, b);
      FirstSame(a, b);
      RestSame(a, b);
      OrderedSame(a[1..], b[1..]);
      assert a == [a[0]] + a[1..] && b == [b[0]] + b[1..];
    }
  }

  lemma EmptySame(a: seq<Field>, b: seq<Field>)
    requires forall f :: f in a <==> f in b
    ensures a != [] ==> b != []
  {
    if a != [] {
      assert a[0] in a;
    }
  }

  lemma FirstSame(a: seq<Field>, b: seq<Field>)
    requires InOrder(a) && InOrder(b) && a != [] && b != [] && forall f :: f in a <==> f in b
    ensures a[0] == b[0]
  {
    assert a[0] in a && b[0] in b;
    var i :| 0 <= i < |b| && b[i] == a[0];
    var j :| 0 <= j < |a| && a[j] == b[0];
    if i > 0 && j > 0 {
      BelowApart(b[0].key, b[i].key);
    }
  }

  lemma RestSame(a: seq<Field>, b: seq<Field>)
    requires InOrder(a) && InOrder(b) && a != [] && b != [] && a[0] == b[0] && forall f :: f in a <==> f in b
    ensures forall f :: f in a[1..] <==> f in b[1..]
  {
    forall f
      ensures f in a[1..] <==> f in b[1..]
    {
      TailHolds(a, f);
      TailHolds(b, f);
    }
  }

  lemma TailHolds(a: seq<Field>, f: Field)
    requires InOrder(a) && a != []
    ensures f in a[1..] <==> f in a && f != a[0]
  {
    if f in a[1..] {
      var i :| 0 <= i < |a[1..]| && a[1..][i] == f;
      assert a[i + 1] == f;
      BelowApart(a[0].key, a[i + 1].key);
    }
    assert a == [a[0]] + a[1..];
  }

  // ----- what a tree derives is read as what it says -----

  /** What stands behind an item or a member's value. */
  predicate Closes(rest: string) {
    rest == "" || rest[0] == ',' || rest[0] == ']' || rest[0] == '}'
  }

  lemma BlanksEnd(blanks: string, rest: string)
    requires AllBlank(blanks) && Closes(rest)
    ensures Ends(blanks + rest)
  {
    if blanks != "" {
      assert blanks[0] in blanks;
    }
  }

  lemma WordReads(w: Value, depth: nat, rest: string)
    requires (w.Null? || w.Bool?) && depth <= 64
    ensures ReadValue(WordText(w) + rest, depth) == Got(w, rest)
  {
    JsonRoundTrip.LiteralReads(WordText(w) + rest, WordText(w), w, rest);
    hide ReadItems, ReadFields, ReadString, ReadNumber;
  }

  lemma NumberStarts(n: Spelling, rest: string)
    requires IsNumber(n)
    ensures
      var s := NumberText(n) + rest;
      s != "" && !IsBlank(s[0]) && (s[0] == '-' || IsDigit(s[0]))
  {
    assert n.whole[0] in n.whole;
    hide FractionText, ExponentText;
  }

  lemma ReadsNumber(s: string, depth: nat)
    requires s != "" && !IsBlank(s[0]) && (s[0] == '-' || IsDigit(s[0])) && depth <= 64
    ensures ReadValue(s, depth) == if ReadNumber(s).Bad? then Bad(ReadNumber(s).fault) else Got(Num(ReadNumber(s).value), ReadNumber(s).rest)
  {
    hide ReadItems, ReadFields, ReadString, ReadNumber, ReadLiteral;
  }

  lemma DigitsReads(n: Spelling, depth: nat, rest: string)
    requires IsNumber(n) && InRange(Mantissa(n), Scale(n)) && depth <= 64 && Ends(rest)
    ensures ReadValue(NumberText(n) + rest, depth) == Got(Num(NumberSaid(n)), rest)
  {
    SpellingReads(n, rest);
    NumberStarts(n, rest);
    hide *;
    ReadsNumber(NumberText(n) + rest, depth);
  }

  lemma StringReads(bits: seq<Bit>, depth: nat, rest: string)
    requires AreBits(bits) && depth <= 64
    ensures ReadValue(QuoteText(bits) + rest, depth) == Got(Str(BitsBytes(bits)), rest)
  {
    var s := QuoteText(bits) + rest;
    assert "" + s == s;
    QuoteReads("", bits, rest);
    assert s[0] == '"';
    hide ReadItems, ReadFields, ReadString, ReadNumber, QuoteText, AreBits, BitsBytes, ReadLiteral, Next;
  }

  lemma EmptyReads(inside: string, depth: nat, rest: string)
    requires AllBlank(inside) && depth <= 64
    ensures ReadValue("[" + (inside + "]") + rest, depth) == Got(Array([]), rest)
    ensures ReadValue("{" + (inside + "}") + rest, depth) == Got(Object([]), rest)
  {
    hide ReadItems, ReadFields, ReadValue, SkipBlanks, AllBlank;
    assert "[" + (inside + "]") + rest == "[" + (inside + ("]" + rest));
    assert "{" + (inside + "}") + rest == "{" + (inside + ("}" + rest));
    Meets(inside, ']', rest);
    Meets(inside, '}', rest);
    JsonRoundTrip.ArrayOpens("[" + (inside + ("]" + rest)), depth, inside + ("]" + rest));
    JsonRoundTrip.ObjectOpens("{" + (inside + ("}" + rest)), depth, inside + ("}" + rest));
  }

  lemma TreeStarts(t: Tree, v: Value, depth: nat)
    requires Says(t, v, depth)
    ensures TreeText(t) != "" && !IsBlank(TreeText(t)[0]) && TreeText(t)[0] != ']'
  {
    if t.Digits? {
      NumberStarts(t.n, "");
      assert NumberText(t.n) + "" == NumberText(t.n);
    }
    hide NumberText, BitsText, ItemsText, MembersText, SayItems, SayObject, AreBits, InRange, IsNumber;
  }

  lemma ItemsStart(items: seq<Spaced>, values: seq<Value>, depth: nat, rest: string)
    requires items != [] && SayItems(items, values, depth)
    ensures !Next(ItemsText(items) + rest, ']')
  {
    var first := items[0];
    TreeStarts(first.tree, values[0], depth);
    var c, more := TreeText(first.tree)[0], TreeText(first.tree)[1..];
    var others := if |items| == 1 then "]" else "," + ItemsText(items[1..]);
    assert TreeText(first.tree) == [c] + more;
    assert ItemsText(items) + rest == first.before + ([c] + (more + first.behind + others + rest));
    Meets(first.before, c, more + first.behind + others + rest);
  }

  lemma {:induction false} SpacedReads(sp: Spaced, v: Value, depth: nat, rest: string)
    requires SaysSpaced(sp, v, depth) && Closes(rest)
    ensures ReadValue(SpacedText(sp) + rest, depth) == Got(v, sp.behind + rest)
    decreases sp, 1
  {
    hide ReadValue, Says, TreeText, AllBlank, Ends, Closes;
    BlanksEnd(sp.behind, rest);
    ValueReads(sp.tree, v, depth, sp.behind + rest);
    assert SpacedText(sp) + rest == sp.before + (TreeText(sp.tree) + (sp.behind + rest));
    BlanksIgnored(sp.before, TreeText(sp.tree) + (sp.behind + rest), depth, [], []);
  }

  /** One turn of the parser's loop over the items of an array. */
  lemma ItemRead(s: string, depth: nat, read: seq<Value>, v: Value, behind: string)
    requires ReadValue(s, depth + 1) == Got(v, behind)
    ensures Next(behind, ']') ==> ReadItems(s, depth, read) == Got(Array(read + [v]), After(behind, ']'))
    ensures !Next(behind, ']') && Next(behind, ',') ==> ReadItems(s, depth, read) == ReadItems(After(behind, ','), depth, read + [v])
  {
    hide ReadValue, Next, After;
  }

  lemma BlankBehind(sp: Spaced, v: Value, depth: nat)
    requires SaysSpaced(sp, v, depth)
    ensures AllBlank(sp.behind)
  {
  }

  lemma {:induction false} ItemReads(sp: Spaced, v: Value, depth: nat, read: seq<Value>, tail: string)
    requires SaysSpaced(sp, v, depth + 1) && Closes(tail) && tail != ""
    ensures
      var s, behind := SpacedText(sp) + tail, sp.behind + tail;
      && (Next(behind, ']') ==> ReadItems(s, depth, read) == Got(Array(read + [v]), After(behind, ']')))
      && (!Next(behind, ']') && Next(behind, ',') ==> ReadItems(s, depth, read) == ReadItems(After(behind, ','), depth, read + [v]))
    decreases sp, 2
  {
    hide ReadItems, ReadValue, SpacedText, SaysSpaced, Next, After, Closes;
    SpacedReads(sp, v, depth + 1, tail);
    ItemRead(SpacedText(sp) + tail, depth, read, v, sp.behind + tail);
  }

  lemma ItemsSplit(items: seq<Spaced>, rest: string)
    requires items != []
    ensures ItemsText(items) + rest == SpacedText(items[0]) + if |items| == 1 then "]" + rest else "," + (ItemsText(items[1..]) + rest)
  {
    hide SpacedText;
    if |items| > 1 {
      Grouped(",", ItemsText(items[1..]), rest);
      Grouped(SpacedText(items[0]), "," + ItemsText(items[1..]), rest);
    } else {
      Grouped(SpacedText(items[0]), "]", rest);
    }
  }

  lemma {:induction false} ItemsRead(items: seq<Spaced>, values: seq<Value>, depth: nat, read: seq<Value>, rest: string)
    requires items != [] && SayItems(items, values, depth + 1)
    ensures ReadItems(ItemsText(items) + rest, depth, read) == Got(Array(read + values), rest)
    decreases items, 3
  {
    hide ReadItems, SpacedText, ItemsText, SaysSpaced, AllBlank, SkipBlanks, Next, After;
    var first, more := items[0], items[1..];
    ItemsSplit(items, rest);
    BlankBehind(first, values[0], depth + 1);
    if |items| == 1 {
      ItemReads(first, values[0], depth, read, "]" + rest);
      Meets(first.behind, ']', rest);
      assert read + values == read + [values[0]];
    } else {
      ItemReads(first, values[0], depth, read, "," + (ItemsText(more) + rest));
      Meets(first.behind, ',', ItemsText(more) + rest);
      ItemsRead(more, values[1..], depth, read + [values[0]], rest);
      assert read + values == read + [values[0]] + values[1..];
    }
  }

  /** One turn of the parser's loop over the fields of an object. */
  lemma FieldRead(s: string, depth: nat, read: seq<Field>, key: string, middle: string, v: Value, behind: string)
    requires Next(s, '"') && ReadString(s) == Got(key, middle) && Next(middle, ':')
    requires ReadValue(After(middle, ':'), depth + 1) == Got(v, behind) && !HasKey(read, key)
    ensures
      var more := Placed(read, Field(key, v));
      && (Next(behind, '}') ==> ReadFields(s, depth, read) == Got(Object(more), After(behind, '}')))
      && (!Next(behind, '}') && Next(behind, ',') ==> ReadFields(s, depth, read) == ReadFields(After(behind, ','), depth, more))
  {
    hide ReadString, ReadValue, Next, After, HasKey, Placed;
  }

  lemma MemberJoins(m: Member, tail: string)
    ensures MemberText(m) + tail == m.front + (QuoteText(m.key) + (m.middle + ([':'] + (SpacedText(m.said) + tail))))
  {
    hide QuoteText, SpacedText;
    var text, value := QuoteText(m.key), SpacedText(m.said);
    Grouped([':'], value, tail);
    Grouped(m.middle, [':'] + value, tail);
    Grouped(text, m.middle + ([':'] + value), tail);
    Grouped(m.front, text + (m.middle + ([':'] + value)), tail);
  }

  lemma {:induction false} MemberReads(m: Member, field: Field, depth: nat, read: seq<Field>, tail: string)
    requires SaysMember(m, field, depth + 1) && Closes(tail) && tail != "" && !HasKey(read, field.key)
    ensures
      var s, behind, more := MemberText(m) + tail, m.said.behind + tail, Placed(read, field);
      && (Next(behind, '}') ==> ReadFields(s, depth, read) == Got(Object(more), After(behind, '}')))
      && (!Next(behind, '}') && Next(behind, ',') ==> ReadFields(s, depth, read) == ReadFields(After(behind, ','), depth, more))
    decreases m, 2
  {
    hide ReadFields, ReadString, ReadValue, SpacedText, QuoteText, SaysSpaced, HasKey, Placed, AllBlank, AreBits, BitsBytes, SkipBlanks, Closes;
    MemberJoins(m, tail);
    var value := SpacedText(m.said) + tail;
    var middle := m.middle + ([':'] + value);
    QuoteReads(m.front, m.key, middle);
    Meets(m.middle, ':', value);
    SpacedReads(m.said, field.value, depth + 1, tail);
    FieldRead(MemberText(m) + tail, depth, read, field.key, middle, field.value, m.said.behind + tail);
  }

  lemma MembersSplit(members: seq<Member>, rest: string)
    requires members != []
    ensures MembersText(members) + rest ==
            MemberText(members[0]) + if |members| == 1 then "}" + rest else "," + (MembersText(members[1..]) + rest)
  {
    hide MemberText;
    if |members| > 1 {
      Grouped(",", MembersText(members[1..]), rest);
      Grouped(MemberText(members[0]), "," + MembersText(members[1..]), rest);
    } else {
      Grouped(MemberText(members[0]), "}", rest);
    }
  }

  lemma NoneTwice(read: seq<Field>, said: seq<Field>)
    requires said != [] && KeysApart(said) && forall f :: f in said ==> !HasKey(read, f.key)
    ensures !HasKey(read, said[0].key) && KeysApart(said[1..])
    ensures forall f :: f in said[1..] ==> !HasKey(Placed(read, said[0]), f.key)
  {
    hide HasKey, Placed;
    assert said[0] in said;
    forall f | f in said[1..]
      ensures !HasKey(Placed(read, said[0]), f.key)
    {
      PlacedKeys(read, said[0], f.key);
    }
  }

  lemma MemberBlank(m: Member, field: Field, depth: nat)
    requires SaysMember(m, field, depth)
    ensures AllBlank(m.said.behind)
  {
    BlankBehind(m.said, field.value, depth);
  }

  lemma {:induction false} MembersRead(members: seq<Member>, said: seq<Field>, depth: nat, read: seq<Field>, rest: string)
    requires members != [] && SayFields(members, said, depth + 1) && KeysApart(said) && forall f :: f in said ==> !HasKey(read, f.key)
    ensures ReadFields(MembersText(members) + rest, depth, read) == Got(Object(Gathered(read, said)), rest)
    decreases members, 3
  {
    hide ReadFields, MemberText, MembersText, SaysMember, AllBlank, SkipBlanks, Next, After, HasKey, Placed, KeysApart;
    var first, others := members[0], members[1..];
    var more := Placed(read, said[0]);
    MembersSplit(members, rest);
    NoneTwice(read, said);
    MemberBlank(first, said[0], depth + 1);
    if |members| == 1 {
      MemberReads(first, said[0], depth, read, "}" + rest);
      Meets(first.said.behind, '}', rest);
      assert said[1..] == [];
      assert Gathered(more, []) == more;
    } else {
      MemberReads(first, said[0], depth, read, "," + (MembersText(others) + rest));
      Meets(first.said.behind, ',', MembersText(others) + rest);
      MembersRead(others, said[1..], depth, more, rest);
    }
  }

  lemma MembersStart(members: seq<Member>, said: seq<Field>, depth: nat, rest: string)
    requires members != [] && SayFields(members, said, depth)
    ensures !Next(MembersText(members) + rest, '}')
  {
    var first := members[0];
    var others := if |members| == 1 then "}" else "," + MembersText(members[1..]);
    var more := BitsText(first.key) + "\"" + (first.middle + (":" + SpacedText(first.said))) + others + rest;
    hide SpacedText, BitsText;
    assert MembersText(members) + rest == first.front + (['"'] + more);
    Meets(first.front, '"', more);
  }

  lemma {:induction false} ObjectReads(gap: string, members: seq<Member>, said: seq<Field>, fields: seq<Field>, depth: nat, rest: string)
    requires AllBlank(gap) && depth <= 64 && SayFields(members, said, depth + 1) && KeysApart(said)
    requires InOrder(fields) && forall f :: f in fields <==> f in said
    ensures ReadValue(TreeText(Record(gap, members)) + rest, depth) == Got(Object(fields), rest)
    decreases members, 4
  {
    hide ReadValue, ReadItems, ReadFields;
    if members == [] {
      EmptySame(fields, said);
      EmptyReads(gap, depth, rest);
    } else {
      var tail := MembersText(members) + rest;
      assert TreeText(Record(gap, members)) + rest == "{" + tail;
      JsonRoundTrip.ObjectOpens("{" + tail, depth, tail);
      MembersStart(members, said, depth + 1, rest);
      MembersRead(members, said, depth, [], rest);
      GatheredExact([], said);
      OrderedSame(Gathered([], said), fields);
    }
  }

  lemma {:induction false} ValueReads(t: Tree, v: Value, depth: nat, rest: string)
    requires Says(t, v, depth) && Ends(rest)
    ensures ReadValue(TreeText(t) + rest, depth) == Got(v, rest)
    decreases t, 1
  {
    match t
    case Word(w) => WordReads(w, depth, rest);
    case Digits(n) => DigitsReads(n, depth, rest);
    case Quote(bits) => StringReads(bits, depth, rest);
    case List(inside, items) =>
      hide ReadItems, ReadFields, ReadValue;
      if items == [] {
        EmptyReads(inside, depth, rest);
      } else {
        var tail := ItemsText(items) + rest;
        assert TreeText(t) + rest == "[" + tail;
        JsonRoundTrip.ArrayOpens("[" + tail, depth, tail);
        ItemsStart(items, v.items, depth + 1, rest);
        ItemsRead(items, v.items, depth, [], rest);
        assert [] + v.items == v.items;
      }
    case Record(gap, members) =>
      hide ReadItems, ReadFields, ReadValue;
      var said :| SayFields(members, said, depth + 1) && KeysApart(said) && forall f :: f in v.fields <==> f in said;
      ObjectReads(gap, members, said, v.fields, depth, rest);
  }

  // ----- what is read is derived by a tree -----

  lemma NextSplit(r: string, c: char) returns (behind: string)
    requires Next(r, c)
    ensures AllBlank(behind) && r == behind + ([c] + After(r, c))
    ensures c == ',' || c == ']' || c == '}' ==> Ends(r)
  {
    behind := BlanksOf(r);
    assert SkipBlanks(r) == [c] + After(r, c);
    BlanksEnd(behind, if c == ',' || c == ']' || c == '}' then [c] + After(r, c) else "");
  }

  lemma WordDerives(u: string, depth: nat) returns (t: Tree)
    requires u != "" && (u[0] == 'n' || u[0] == 't' || u[0] == 'f') && ReadValue(u, depth).Got?
    ensures Says(t, ReadValue(u, depth).value, depth) && u == TreeText(t) + ReadValue(u, depth).rest
  {
    hide ReadItems, ReadFields, ReadString, ReadNumber;
    var v := if u[0] == 'n' then Null else Bool(u[0] == 't');
    t := Word(v);
    assert SkipBlanks(u) == u;
    assert ReadLiteral(u, WordText(v), v).Got?;
    assert u == u[..|WordText(v)|] + u[|WordText(v)|..];
  }

  lemma StringDerives(u: string, depth: nat) returns (blanks: string, t: Tree)
    requires u != "" && u[0] == '"' && ReadValue(u, depth).Got?
    ensures Says(t, ReadValue(u, depth).value, depth) && AllBlank(blanks) && u == blanks + (TreeText(t) + ReadValue(u, depth).rest)
  {
    hide ReadItems, ReadFields, ReadString, ReadNumber, ReadLiteral, BitsBytes, QuoteText;
    var bits;
    blanks, bits := QuoteDerives(u);
    t := Quote(bits);
  }

  lemma DigitsSaid(u: string, n: Spelling, rest: string, depth: nat)
    requires IsNumber(n) && depth <= 64 && u == NumberText(n) + rest && Ends(rest) && ReadNumber(u).Got?
    ensures Says(Digits(n), Num(ReadNumber(u).value), depth) && u == TreeText(Digits(n)) + rest
  {
    hide ReadNumber, NumberText, InRange, NumberSaid, IsNumber, Mantissa, Scale, Ends;
    SpellingReads(n, rest);
  }

  lemma DigitsDerives(u: string, depth: nat) returns (t: Tree)
    requires u != "" && !IsBlank(u[0]) && (u[0] == '-' || IsDigit(u[0])) && ReadValue(u, depth).Got? && Ends(ReadValue(u, depth).rest)
    ensures Says(t, ReadValue(u, depth).value, depth) && u == TreeText(t) + ReadValue(u, depth).rest
  {
    hide ReadValue, ReadNumber, IsNumber, Ends, Says, TreeText, NumberText;
    DepthKept(u, depth);
    ReadsNumber(u, depth);
    var n := NumberDerives(u);
    DigitsSaid(u, n, ReadNumber(u).rest, depth);
    t := Digits(n);
  }

  lemma DepthKept(u: string, depth: nat)
    requires ReadValue(u, depth).Got?
    ensures depth <= 64
  {
    hide ReadItems, ReadFields, ReadString, ReadNumber, ReadLiteral;
  }

  lemma ListIs(u: string, depth: nat)
    requires u != "" && (u[0] == '[' || u[0] == '{') && ReadValue(u, depth).Got?
    ensures depth <= 64
    ensures ReadValue(u, depth) ==
            if u[0] == '[' then if Next(u[1..], ']') then Got(Array([]), After(u[1..], ']')) else ReadItems(u[1..], depth, [])
            else if Next(u[1..], '}') then Got(Object([]), After(u[1..], '}')) else ReadFields(u[1..], depth, [])
  {
    DepthKept(u, depth);
    hide ReadValue, ReadItems, ReadFields;
    assert u == [u[0]] + u[1..];
    if u[0] == '[' {
      JsonRoundTrip.ArrayOpens(u, depth, u[1..]);
    } else {
      JsonRoundTrip.ObjectOpens(u, depth, u[1..]);
    }
  }

  lemma {:induction false} ArrayDerives(u: string, depth: nat) returns (t: Tree)
    requires u != "" && u[0] == '[' && ReadValue(u, depth).Got?
    ensures Says(t, ReadValue(u, depth).value, depth) && u == TreeText(t) + ReadValue(u, depth).rest
    decreases |u|, 1
  {
    ListIs(u, depth);
    hide ReadValue, ReadItems, ReadFields;
    if Next(u[1..], ']') {
      var inside := NextSplit(u[1..], ']');
      t := List(inside, []);
      Grouped(inside, "]", After(u[1..], ']'));
      assert u == "[" + u[1..];
    } else {
      var items, values := ItemsDerive(u[1..], depth, []);
      assert [] + values == values;
      t := List("", items);
      assert u == "[" + u[1..];
      ListPut(items, values, depth, u, u[1..], ReadValue(u, depth).rest);
      hide Says, TreeText;
    }
  }

  lemma ListPut(items: seq<Spaced>, values: seq<Value>, depth: nat, u: string, tail: string, rest: string)
    requires items != [] && SayItems(items, values, depth + 1) && depth <= 64 && u == "[" + tail && tail == ItemsText(items) + rest
    ensures Says(List("", items), Array(values), depth) && u == TreeText(List("", items)) + rest
  {
    hide ItemsText, SayItems;
    Grouped("[", ItemsText(items), rest);
  }

  lemma RecordEmpty(gap: string, depth: nat)
    requires AllBlank(gap) && depth <= 64
    ensures Says(Record(gap, []), Object([]), depth) && TreeText(Record(gap, [])) == "{" + (gap + "}")
  {
    hide AllBlank;
    assert SayFields([], [], depth + 1) && KeysApart([]);
  }

  lemma RecordPut(members: seq<Member>, said: seq<Field>, depth: nat, u: string, tail: string, rest: string)
    requires members != [] && SayFields(members, said, depth + 1) && KeysApart(said) && depth <= 64
    requires u == "{" + tail && tail == MembersText(members) + rest
    ensures Says(Record("", members), Object(Gathered([], said)), depth) && u == TreeText(Record("", members)) + rest
  {
    GatheredExact([], said);
    hide MembersText, SayFields, KeysApart, Gathered;
    Grouped("{", MembersText(members), rest);
    assert SayFields(members, said, depth + 1);
  }

  lemma {:induction false} ObjectDerives(u: string, depth: nat) returns (t: Tree)
    requires u != "" && u[0] == '{' && ReadValue(u, depth).Got?
    ensures Says(t, ReadValue(u, depth).value, depth) && u == TreeText(t) + ReadValue(u, depth).rest
    decreases |u|, 1
  {
    ListIs(u, depth);
    hide ReadValue, ReadItems, ReadFields, Says, TreeText, SayFields, MembersText, KeysApart, Gathered, AllBlank, Next, After;
    assert u == "{" + u[1..];
    var rest := ReadValue(u, depth).rest;
    if Next(u[1..], '}') {
      var gap := NextSplit(u[1..], '}');
      t := Record(gap, []);
      RecordEmpty(gap, depth);
      Grouped(gap, "}", rest);
      Grouped("{", gap + "}", rest);
    } else {
      var members, said := FieldsDerive(u[1..], depth, []);
      t := Record("", members);
      RecordPut(members, said, depth, u, u[1..], rest);
    }
  }

  lemma {:induction false} ValueDerives(s: string, depth: nat) returns (blanks: string, t: Tree)
    requires ReadValue(s, depth).Got? && Ends(ReadValue(s, depth).rest)
    ensures
      AllBlank(blanks) && s == blanks + (TreeText(t) + ReadValue(s, depth).rest) && Says(t, ReadValue(s, depth).value, depth)
    decreases |s|, 2
  {
    blanks := BlanksOf(s);
    var u := SkipBlanks(s);
    NothingElseSkipped(s);
    NothingElseSkipped(u);
    ValueBlind(s, u, depth);
    FirstIs(u, depth);
    hide ReadValue;
    if u[0] == 'n' || u[0] == 't' || u[0] == 'f' {
      t := WordDerives(u, depth);
    } else if u[0] == '"' {
      var more;
      more, t := StringDerives(u, depth);
      Grouped(blanks, more, TreeText(t) + ReadValue(u, depth).rest);
      blanks := blanks + more;
    } else if u[0] == '[' {
      t := ArrayDerives(u, depth);
    } else if u[0] == '{' {
      t := ObjectDerives(u, depth);
    } else {
      t := DigitsDerives(u, depth);
    }
  }

  lemma FirstIs(u: string, depth: nat)
    requires ReadValue(u, depth).Got? && SkipBlanks(u) == u
    ensures u != ""
    ensures u[0] != 'n' && u[0] != 't' && u[0] != 'f' && u[0] != '"' && u[0] != '[' && u[0] != '{' ==> u[0] == '-' || IsDigit(u[0])
  {
    hide ReadItems, ReadFields, ReadString, ReadNumber, ReadLiteral;
  }

  lemma ItemsMore(s: string, depth: nat, read: seq<Value>)
    requires ReadItems(s, depth, read).Got?
    ensures ReadValue(s, depth + 1).Got?
    ensures
      var item := ReadValue(s, depth + 1);
      var more := read + [item.value];
      if Next(item.rest, ']') then ReadItems(s, depth, read) == Got(Array(more), After(item.rest, ']'))
      else Next(item.rest, ',') && ReadItems(s, depth, read) == ReadItems(After(item.rest, ','), depth, more)
  {
    hide ReadValue, Next, After;
  }

  lemma ItemAlone(sp: Spaced, v: Value, depth: nat, s: string, rest: string)
    requires SaysSpaced(sp, v, depth) && s == SpacedText(sp) + ("]" + rest)
    ensures SayItems([sp], [v], depth) && s == ItemsText([sp]) + rest
  {
    hide SpacedText, SaysSpaced;
    ItemsSplit([sp], rest);
  }

  lemma ItemsPut(sp: Spaced, v: Value, items: seq<Spaced>, values: seq<Value>, depth: nat, s: string, tail: string, rest: string)
    requires SaysSpaced(sp, v, depth) && s == SpacedText(sp) + ("," + tail)
    requires items != [] && SayItems(items, values, depth) && tail == ItemsText(items) + rest
    ensures SayItems([sp] + items, [v] + values, depth) && s == ItemsText([sp] + items) + rest
  {
    hide SpacedText, SaysSpaced;
    assert ([sp] + items)[1..] == items && ([v] + values)[1..] == values;
    ItemsSplit([sp] + items, rest);
  }

  lemma {:induction false} ItemsDerive(s: string, depth: nat, read: seq<Value>) returns (items: seq<Spaced>, values: seq<Value>)
    requires ReadItems(s, depth, read).Got?
    ensures items != [] && SayItems(items, values, depth + 1)
    ensures ReadItems(s, depth, read).value == Array(read + values) && s == ItemsText(items) + ReadItems(s, depth, read).rest
    decreases |s|, 3
  {
    hide ReadItems, ReadValue, Next, After, Says, TreeText, Ends, SayItems, ItemsText, AllBlank, SpacedText;
    ItemsMore(s, depth, read);
    var item := ReadValue(s, depth + 1);
    var rest := ReadItems(s, depth, read).rest;
    var c := if Next(item.rest, ']') then ']' else ',';
    var behind := NextSplit(item.rest, c);
    var tail := After(item.rest, c);
    var blanks, t := ValueDerives(s, depth + 1);
    var sp := Spaced(blanks, t, behind);
    SpacedJoins(sp, s, item.rest, [c] + tail);
    if c == ']' {
      items, values := [sp], [item.value];
      ItemAlone(sp, item.value, depth + 1, s, rest);
    } else {
      var more, others := ItemsDerive(tail, depth, read + [item.value]);
      items, values := [sp] + more, [item.value] + others;
      ItemsPut(sp, item.value, more, others, depth + 1, s, tail, rest);
      assert read + [item.value] + others == read + values;
    }
  }

  lemma SpacedJoins(sp: Spaced, s: string, behind: string, tail: string)
    requires s == sp.before + (TreeText(sp.tree) + behind) && behind == sp.behind + tail
    ensures s == SpacedText(sp) + tail
  {
    hide TreeText;
    Grouped(TreeText(sp.tree), sp.behind, tail);
    Grouped(sp.before, TreeText(sp.tree) + sp.behind, tail);
  }

  lemma FieldsMore(s: string, depth: nat, read: seq<Field>)
    requires ReadFields(s, depth, read).Got?
    ensures ReadString(s).Got? && Next(ReadString(s).rest, ':')
    ensures
      var key := ReadString(s);
      var value := ReadValue(After(key.rest, ':'), depth + 1);
      && value.Got? && !HasKey(read, key.value)
      && var more := Placed(read, Field(key.value, value.value));
         if Next(value.rest, '}') then ReadFields(s, depth, read) == Got(Object(more), After(value.rest, '}'))
         else Next(value.rest, ',') && ReadFields(s, depth, read) == ReadFields(After(value.rest, ','), depth, more)
  {
    hide ReadValue, ReadString, Next, After, HasKey, Placed;
  }

  /** The member that the text of a field starts with, up to what stands behind its value. */
  lemma {:induction false} MemberDerives(s: string, depth: nat, behind: string, tail: string) returns (m: Member)
    requires ReadString(s).Got? && Next(ReadString(s).rest, ':') && AllBlank(behind)
    requires
      var value := ReadValue(After(ReadString(s).rest, ':'), depth);
      value.Got? && Ends(value.rest) && value.rest == behind + tail
    ensures s == MemberText(m) + tail
    ensures SaysMember(m, Field(ReadString(s).value, ReadValue(After(ReadString(s).rest, ':'), depth).value), depth)
    decreases |s|, 2
  {
    hide ReadValue, Next, Says, TreeText, Ends;
    var front, key := QuoteDerives(s);
    var r := ReadString(s).rest;
    var middle := NextSplit(r, ':');
    var blanks, t := ValueDerives(After(r, ':'), depth);
    hide ReadString, AreBits, BitsBytes, AllBlank, QuoteText;
    var said := Spaced(blanks, t, behind);
    SpacedJoins(said, After(r, ':'), behind + tail, tail);
    m := Member(front, key, middle, said);
    MemberJoins(m, tail);
  }

  lemma MemberAlone(m: Member, field: Field, depth: nat, s: string, rest: string)
    requires SaysMember(m, field, depth) && s == MemberText(m) + ("}" + rest)
    ensures SayFields([m], [field], depth) && s == MembersText([m]) + rest
  {
    hide MemberText, SaysMember;
    MembersSplit([m], rest);
  }

  lemma MembersPut(m: Member, field: Field, members: seq<Member>, fields: seq<Field>, depth: nat, s: string, tail: string, rest: string)
    requires SaysMember(m, field, depth) && s == MemberText(m) + ("," + tail)
    requires members != [] && SayFields(members, fields, depth) && tail == MembersText(members) + rest
    ensures SayFields([m] + members, [field] + fields, depth) && s == MembersText([m] + members) + rest
  {
    hide MemberText, SaysMember;
    assert ([m] + members)[1..] == members && ([field] + fields)[1..] == fields;
    MembersSplit([m] + members, rest);
  }

  lemma GatheredFirst(read: seq<Field>, field: Field, fields: seq<Field>)
    ensures Gathered(read, [field] + fields) == Gathered(Placed(read, field), fields)
    ensures Gathered(read, []) == read
  {
    hide Placed;
    assert ([field] + fields)[1..] == fields;
  }

  lemma {:induction false} FieldsDerive(s: string, depth: nat, read: seq<Field>) returns (members: seq<Member>, said: seq<Field>)
    requires ReadFields(s, depth, read).Got?
    ensures members != [] && SayFields(members, said, depth + 1) && KeysApart(said) && forall f :: f in said ==> !HasKey(read, f.key)
    ensures ReadFields(s, depth, read).value == Object(Gathered(read, said)) && s == MembersText(members) + ReadFields(s, depth, read).rest
    decreases |s|, 3
  {
    hide ReadFields, ReadValue, ReadString, Next, After, Ends, SaysMember, MemberText, SayFields, MembersText, HasKey, Placed, AllBlank, Gathered;
    FieldsMore(s, depth, read);
    var value := ReadValue(After(ReadString(s).rest, ':'), depth + 1);
    var field := Field(ReadString(s).value, value.value);
    var rest := ReadFields(s, depth, read).rest;
    var more := Placed(read, field);
    var c := if Next(value.rest, '}') then '}' else ',';
    var behind := NextSplit(value.rest, c);
    var tail := After(value.rest, c);
    var m := MemberDerives(s, depth + 1, behind, [c] + tail);
    if c == '}' {
      members, said := [m], [field];
      assert forall f :: f in said ==> !HasKey(read, f.key);
      MemberAlone(m, field, depth + 1, s, rest);
      assert said == said + [];
      GatheredFirst(read, field, []);
      GatheredFirst(more, field, []);
    } else {
      var others, fields := FieldsDerive(tail, depth, more);
      members, said := [m] + others, [field] + fields;
      MembersPut(m, field, others, fields, depth + 1, s, tail, rest);
      GatheredFirst(read, field, fields);
      SaidApart(read, field, fields);
    }
  }

  lemma SaidApart(read: seq<Field>, field: Field, fields: seq<Field>)
    requires KeysApart(fields) && !HasKey(read, field.key) && forall f :: f in fields ==> !HasKey(Placed(read, field), f.key)
    ensures KeysApart([field] + fields) && forall f :: f in [field] + fields ==> !HasKey(read, f.key)
  {
    hide HasKey, Placed;
    forall f | f in fields
      ensures f.key != field.key && !HasKey(read, f.key)
    {
      PlacedKeys(read, field, f.key);
    }
    assert forall i :: 0 <= i < |fields| ==> fields[i] in fields;
  }

  /** A text is read as a value exactly if a tree with blanks around it derives the text and says the value. */
  lemma ParseExact(s: string, v: Value)
    ensures Parse(s) == Got(v, "") <==> exists sp :: SpacedText(sp) == s && SaysSpaced(sp, v, 0)
  {
    hide ReadValue, SpacedText, SaysSpaced;
    if Parse(s) == Got(v, "") {
      var sp := ParseDerives(s);
      assert SpacedText(sp) == s && SaysSpaced(sp, v, 0);
    }
    if sp :| SpacedText(sp) == s && SaysSpaced(sp, v, 0) {
      assert s + "" == s;
      SpacedReads(sp, v, 0, "");
      BlankBehind(sp, v, 0);
      BlanksSkipped(sp.behind, "");
    }
  }

  lemma ParseDerives(s: string) returns (sp: Spaced)
    requires Parse(s).Got?
    ensures SpacedText(sp) == s && SaysSpaced(sp, Parse(s).value, 0)
  {
    hide ReadValue, Says, TreeText;
    var behind := ReadValue(s, 0).rest;
    var blanks := BlanksOf(behind);
    assert blanks + "" == blanks;
    BlanksEnd(blanks, "");
    var before, t := ValueDerives(s, 0);
    sp := Spaced(before, t, behind);
  }
}
