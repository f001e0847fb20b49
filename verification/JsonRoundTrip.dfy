/** Reading back what was written: every value of bounded depth, and any bytes in its strings. */
module JsonRoundTrip {
  import opened Text
  import opened Json

  // ----- keys -----

  lemma {:induction false} BelowOrders(a: string, b: string)
    ensures !Below(a, a) && !(Below(a, b) && Below(b, a)) && (a == b || Below(a, b) || Below(b, a))
  {
    if a != "" {
      BelowOrders(a[1..], if b != "" then b[1..] else "");
      if b != "" && a[0] == b[0] && a[1..] == b[1..] {
        assert a == [a[0]] + a[1..] && b == [b[0]] + b[1..];
      }
    }
  }

  lemma {:induction false} BelowTransitive(a: string, b: string, c: string)
    requires Below(a, b) && Below(b, c)
    ensures Below(a, c)
  {
    if a != "" && a[0] == b[0] && b[0] == c[0] {
      BelowTransitive(a[1..], b[1..], c[1..]);
    }
  }

  /** A field whose key is above all the others goes last. */
  lemma {:induction false} PlacedLast(fields: seq<Field>, field: Field)
    requires forall i :: 0 <= i < |fields| ==> Below(fields[i].key, field.key)
    ensures Placed(fields, field) == fields + [field] && !HasKey(fields, field.key)
  {
    if fields != [] {
      BelowOrders(fields[0].key, field.key);
      PlacedLast(fields[1..], field);
      assert fields == [fields[0]] + fields[1..];
      if i :| 0 <= i < |fields| && fields[i].key == field.key {
        BelowOrders(fields[i].key, field.key);
      }
    }
  }

  lemma {:induction false} PlacedHolds(fields: seq<Field>, field: Field, f: Field)
    ensures f in Placed(fields, field) <==> f in fields || f == field
  {
    if fields != [] && !Below(field.key, fields[0].key) {
      PlacedHolds(fields[1..], field, f);
      assert f in fields <==> f == fields[0] || f in fields[1..];
    }
  }

  /** Fields stay in order when one with a new key is put in its place. */
  lemma {:induction false} PlacedInOrder(fields: seq<Field>, field: Field)
    requires InOrder(fields) && !HasKey(fields, field.key)
    ensures InOrder(Placed(fields, field))
  {
    if fields == [] {
    } else if Below(field.key, fields[0].key) {
      forall j | 0 <= j < |fields|
        ensures Below(field.key, fields[j].key)
      {
        if j > 0 {
          BelowTransitive(field.key, fields[0].key, fields[j].key);
        }
      }
    } else {
      var rest := Placed(fields[1..], field);
      forall i | 0 <= i < |fields[1..]|
        ensures fields[1..][i].key != field.key
      {
        assert fields[1..][i] == fields[i + 1];
      }
      PlacedInOrder(fields[1..], field);
      BelowOrders(fields[0].key, field.key);
      forall j | 0 <= j < |rest|
        ensures Below(fields[0].key, rest[j].key)
      {
        PlacedHolds(fields[1..], field, rest[j]);
        if rest[j] != field {
          var i :| 0 <= i < |fields[1..]| && fields[1..][i] == rest[j];
          assert fields[i + 1] == rest[j];
        }
      }
    }
  }

  // ----- strings -----

  lemma HexDigitReads(n: nat)
    requires n < 16
    ensures HexValue(HexDigit(n)) == n
  {
  }

  lemma ControlEscape(c: char, tail: string)
    requires c as int < 0x20
    ensures var digits := "00" + [HexDigit(c as int / 16), HexDigit(c as int % 16)];
            ReadHex(digits + tail, 0, 4) == Got(c as int, tail)
  {
    var high, low := c as int / 16, c as int % 16;
    HexDigitReads(high);
    HexDigitReads(low);
    hide HexValue, HexDigit;
    var digits := "00" + [HexDigit(high), HexDigit(low)];
    assert HexValue('0') == 0 by {
      HexDigitReads(0);
      ZeroDigit();
    }
    assert (digits + tail)[1..] == "0" + [HexDigit(high), HexDigit(low)] + tail;
    assert ("0" + [HexDigit(high), HexDigit(low)] + tail)[1..] == [HexDigit(high), HexDigit(low)] + tail;
    assert ([HexDigit(high), HexDigit(low)] + tail)[1..] == [HexDigit(low)] + tail;
    assert ([HexDigit(low)] + tail)[1..] == tail;
    assert ReadHex(tail, c as int, 0) == Got(c as int, tail);
    assert ReadHex([HexDigit(low)] + tail, high, 1) == Got(c as int, tail);
    assert ReadHex([HexDigit(high), HexDigit(low)] + tail, 0, 2) == Got(c as int, tail);
    assert ReadHex("0" + [HexDigit(high), HexDigit(low)] + tail, 0, 3) == Got(c as int, tail);
  }

  lemma ZeroDigit()
    ensures HexDigit(0) == '0'
  {
  }

  /** An escaped character is read back as itself, whatever byte it is. */
  lemma EscapeReads(c: char, tail: string)
    ensures var s := EscapedChar(c) + tail;
            s != "" && s[0] != '"' && ReadPiece(s) == Got([c], tail)
  {
    hide HexDigit, ReadHex;
    var s := EscapedChar(c) + tail;
    if |EscapedChar(c)| == 1 {
      assert s[1..] == tail;
    } else if |EscapedChar(c)| == 2 {
      assert s[2..] == tail;
    } else {
      ControlEscape(c, tail);
      assert s[2..] == "00" + [HexDigit(c as int / 16), HexDigit(c as int % 16)] + tail;
    }
  }

  lemma {:induction false} BodyReads(text: string, rest: string, read: string)
    ensures ReadBody(Escaped(text) + ("\"" + rest), read) == Got(read + text, rest)
  {
    hide ReadPiece, EscapedChar;
    if text == "" {
      assert Escaped(text) + ("\"" + rest) == "\"" + rest && ("\"" + rest)[1..] == rest;
      assert read + text == read;
    } else {
      var tail := Escaped(text[1..]) + ("\"" + rest);
      assert Escaped(text) + ("\"" + rest) == EscapedChar(text[0]) + tail;
      EscapeReads(text[0], tail);
      BodyReads(text[1..], rest, read + [text[0]]);
      assert read + [text[0]] + text[1..] == read + text;
    }
  }

  /** Every string, of any bytes, is read back. */
  lemma StringReads(text: string, rest: string)
    ensures ReadString(Quoted(text) + rest) == Got(text, rest)
  {
    hide ReadBody, Escaped;
    var s := Quoted(text) + rest;
    assert s == "\"" + (Escaped(text) + ("\"" + rest));
    assert s[0] == '"' && s[1..] == Escaped(text) + ("\"" + rest);
    assert SkipBlanks(s) == s && "" + text == text;
    BodyReads(text, rest, "");
  }

  // ----- numbers -----

  /** What may follow a value: its end, or the punctuation around it. */
  predicate Ends(rest: string) {
    rest == "" || rest[0] == ',' || rest[0] == ']' || rest[0] == '}'
  }

  lemma {:induction false} PowerGrows(a: nat, b: nat)
    requires a <= b
    ensures 0 < Power(2, a) <= Power(2, b)
    decreases b
  {
    if a < b {
      PowerGrows(a, b - 1);
    } else if a > 0 {
      PowerGrows(a - 1, b - 1);
    }
  }

  lemma {:induction false} PowerAdds(a: nat, b: nat)
    ensures Power(2, a + b) == Power(2, a) * Power(2, b)
  {
    if a > 0 {
      PowerAdds(a - 1, b);
      assert Power(2, a + b) == 2 * (Power(2, a - 1) * Power(2, b));
    }
  }

  lemma MaxExactPower()
    ensures MAX_EXACT < Power(2, 53)
  {
    assert Power(2, 5) == 32 && Power(2, 3) == 8;
    hide Power;
    PowerAdds(5, 5);
    PowerAdds(10, 10);
    PowerAdds(20, 20);
    PowerAdds(10, 40);
    PowerAdds(3, 50);
  }

  lemma {:induction false} PowersApart(n: nat, low: nat, high: nat)
    requires n <= MAX_EXACT && 53 <= low < high
    ensures n * Power(10, 0) + Power(2, low) < Power(2, high)
  {
    PowerGrows(low + 1, high);
    PowerGrows(53, low);
    MaxExactPower();
    assert Power(2, low + 1) == 2 * Power(2, low);
    assert n * Power(10, 0) == n;
  }

  lemma ExactInRange(n: nat)
    requires n <= MAX_EXACT
    ensures InRange(n, 0)
  {
    hide Power;
    PowersApart(n, 970, 1024);
  }

  lemma {:induction false} NoLeadingZero(n: nat)
    ensures NatText(n)[0] == '0' ==> n == 0 && NatText(n) == "0"
  {
    if n >= 10 {
      NoLeadingZero(n / 10);
    }
  }

  lemma {:induction false} DigitsCounted(digits: string, rest: string)
    requires (forall c :: c in digits ==> IsDigit(c)) && (rest == "" || !IsDigit(rest[0]))
    ensures DigitCount(digits + rest) == |digits|
  {
    if digits == "" {
      assert digits + rest == rest;
    } else {
      assert (digits + rest)[1..] == digits[1..] + rest && (digits + rest)[0] == digits[0] && digits[0] in digits;
      DigitsCounted(digits[1..], rest);
    }
  }

  lemma WholeReads(n: nat, rest: string)
    requires Ends(rest)
    ensures ReadWhole(NatText(n) + rest) == Got(NatText(n), rest)
  {
    var digits := NatText(n);
    var s := digits + rest;
    NoLeadingZero(n);
    DigitsCounted(digits, rest);
    assert s[0] == digits[0] && digits[0] in digits;
    assert s[..|digits|] == digits && s[|digits|..] == rest;
    hide NatText, DigitCount;
  }

  lemma NothingMore(rest: string)
    requires Ends(rest)
    ensures ReadFraction(rest) == Got("", rest) && ReadExponent(rest) == Got(0 as int, rest)
  {
  }

  function SignedNumber(negative: bool, n: int): Number
    requires 0 <= n <= MAX_EXACT
  {
    if !negative then Integer(n) else if n == 0 then MinusZero else Integer(-n)
  }

  /** An exact integer is read back, and minus zero. */
  lemma IntegerReads(negative: bool, n: nat, rest: string)
    requires n <= MAX_EXACT && Ends(rest)
    ensures ReadNumber((if negative then "-" else "") + NatText(n) + rest) == Got(SignedNumber(negative, n), rest)
  {
    hide ReadWhole, ReadFraction, ReadExponent, NatText, NatValue, InRange, DigitCount;
    var digits := NatText(n);
    var s := (if negative then "-" else "") + digits + rest;
    assert digits[0] in digits && s[0] == if negative then '-' else digits[0];
    assert s[if negative then 1 else 0..] == digits + rest;
    WholeReads(n, rest);
    NothingMore(rest);
    NatRoundTrip(n);
    ExactInRange(n);
    assert digits + "" == digits;
  }

  // ----- values -----

  function Larger(a: nat, b: nat): nat {
    if a < b then b else a
  }

  /** How deep a value nests: an item lies one deeper than its array. */
  function Depth(v: Value): nat {
    match v
    case Array(items) => ItemsDepth(items)
    case Object(fields) => FieldsDepth(fields)
    case _ => 0
  }

  function ItemsDepth(items: seq<Value>): nat {
    if items == [] then 0 else Larger(1 + Depth(items[0]), ItemsDepth(items[1..]))
  }

  function FieldsDepth(fields: seq<Field>): nat {
    if fields == [] then 0 else Larger(1 + Depth(fields[0].value), FieldsDepth(fields[1..]))
  }

  /** Every object within has its fields in the order of their keys, no key twice. */
  predicate KeysInOrder(v: Value) {
    match v
    case Array(items) => forall i :: 0 <= i < |items| ==> KeysInOrder(items[i])
    case Object(fields) => InOrder(fields) && forall i :: 0 <= i < |fields| ==> KeysInOrder(fields[i].value)
    case _ => true
  }

  lemma NoBlank(s: string, c: char, rest: string)
    requires s == [c] + rest && !IsBlank(c)
    ensures SkipBlanks(s) == s && s[0] == c && s[1..] == rest
    ensures Next(s, c) && After(s, c) == rest
    ensures forall d :: d != c ==> !Next(s, d)
  {
  }

  lemma LiteralReads(s: string, word: string, v: Value, rest: string)
    requires s == word + rest && word != ""
    ensures ReadLiteral(s, word, v) == Got(v, rest)
  {
    assert s[..|word|] == word && s[|word|..] == rest;
  }

  lemma ScalarReadsBack(v: Value, depth: nat, rest: string)
    requires Writable(v) && !v.Array? && !v.Object? && Ends(rest) && depth <= MAX_DEPTH
    ensures ReadValue(Dump(v) + rest, depth) == Got(v, rest)
  {
    hide ReadString, ReadNumber, Quoted, NatText;
    var s := Dump(v) + rest;
    match v
    case Null => LiteralReads(s, "null", v, rest);
    case Bool(b) => LiteralReads(s, if b then "true" else "false", v, rest);
    case Str(text) =>
      StringReads(text, rest);
      QuotedFirst(text);
    case Num(number) =>
      var negative := number.MinusZero? || number.n < 0;
      var n: nat := if number.MinusZero? then 0 else if number.n < 0 then -number.n else number.n;
      IntegerReads(negative, n, rest);
      assert NatText(n)[0] in NatText(n);
      ZeroText();
      assert s == (if negative then "-" else "") + NatText(n) + rest;
      assert s[0] == if negative then '-' else NatText(n)[0];
  }

  lemma ZeroText()
    ensures NatText(0) == "0"
  {
  }

  lemma QuotedFirst(text: string)
    ensures Quoted(text) != "" && Quoted(text)[0] == '"'
  {
  }

  lemma TooDeepReads(s: string, depth: nat)
    requires s != "" && !IsBlank(s[0]) && depth > MAX_DEPTH
    ensures ReadValue(s, depth) == Bad(TooDeep)
  {
  }

  lemma ArrayOpens(s: string, depth: nat, tail: string)
    requires s == "[" + tail && depth <= MAX_DEPTH
    ensures ReadValue(s, depth) == if Next(tail, ']') then Got(Array([]), After(tail, ']')) else ReadItems(tail, depth, [])
  {
    hide ReadItems, ReadFields;
    NoBlank(s, '[', tail);
  }

  lemma ObjectOpens(s: string, depth: nat, tail: string)
    requires s == "{" + tail && depth <= MAX_DEPTH
    ensures ReadValue(s, depth) == if Next(tail, '}') then Got(Object([]), After(tail, '}')) else ReadFields(tail, depth, [])
  {
    hide ReadItems, ReadFields;
    NoBlank(s, '{', tail);
  }

  /** A written value is read back wherever its depth leaves room for it, and is refused as too deep
      everywhere else. */
  lemma {:induction false} ValueReadsBack(v: Value, depth: nat, rest: string)
    requires Writable(v) && KeysInOrder(v) && Ends(rest)
    ensures ReadValue(Dump(v) + rest, depth) == if depth + Depth(v) <= MAX_DEPTH then Got(v, rest) else Bad(TooDeep)
    decreases v, 0
  {
    hide ReadValue, ReadItems, ReadFields, DumpItems, DumpFields, InOrder;
    if depth > MAX_DEPTH {
      DumpStarts(v);
      assert (Dump(v) + rest)[0] == Dump(v)[0];
      TooDeepReads(Dump(v) + rest, depth);
    } else if v.Array? {
      ArrayReadsBack(v.items, depth, rest);
    } else if v.Object? {
      ObjectReadsBack(v.fields, depth, rest);
    } else {
      ScalarReadsBack(v, depth, rest);
    }
  }

  lemma {:induction false} ArrayReadsBack(items: seq<Value>, depth: nat, rest: string)
    requires Writable(Array(items)) && KeysInOrder(Array(items)) && Ends(rest) && depth <= MAX_DEPTH
    ensures ReadValue(Dump(Array(items)) + rest, depth) ==
            if depth + ItemsDepth(items) <= MAX_DEPTH then Got(Array(items), rest) else Bad(TooDeep)
    decreases items, 2
  {
    hide ReadValue, ReadItems, DumpItems;
    var tail := DumpItems(items, true) + ("]" + rest);
    assert Dump(Array(items)) + rest == "[" + tail;
    ArrayOpens("[" + tail, depth, tail);
    if items == [] {
      NoItems();
      NoBlank(tail, ']', rest);
    } else {
      ItemsStart(items, rest);
      ItemsReadBack(items, depth, [], rest);
      assert [] + items == items;
    }
  }

  lemma {:induction false} ObjectReadsBack(fields: seq<Field>, depth: nat, rest: string)
    requires Writable(Object(fields)) && KeysInOrder(Object(fields)) && Ends(rest) && depth <= MAX_DEPTH
    ensures ReadValue(Dump(Object(fields)) + rest, depth) ==
            if depth + FieldsDepth(fields) <= MAX_DEPTH then Got(Object(fields), rest) else Bad(TooDeep)
    decreases fields, 2
  {
    hide ReadValue, ReadFields, DumpFields, InOrder;
    var tail := DumpFields(fields, true) + ("}" + rest);
    assert Dump(Object(fields)) + rest == "{" + tail;
    ObjectOpens("{" + tail, depth, tail);
    if fields == [] {
      NoFields();
      NoBlank(tail, '}', rest);
    } else {
      FieldsStart(fields, rest);
      assert [] + fields == fields;
      FieldsReadBack(fields, depth, [], rest);
    }
  }

  /** A written value begins with a character that is neither blank nor closing punctuation. */
  lemma DumpStarts(v: Value)
    requires Writable(v)
    ensures Dump(v) != "" && !IsBlank(Dump(v)[0]) && Dump(v)[0] != ']' && Dump(v)[0] != '}'
  {
    hide NatText, Quoted, DumpItems, DumpFields;
    match v
    case Str(text) => QuotedFirst(text);
    case Num(number) =>
      if number.Integer? {
        var n := if number.n < 0 then -number.n else number.n;
        assert NatText(n)[0] in NatText(n);
      }
    case _ =>
  }

  lemma NoItems()
    ensures DumpItems([], true) == ""
  {
  }

  lemma NoFields()
    ensures DumpFields([], true) == ""
  {
  }

  lemma ItemsStart(items: seq<Value>, rest: string)
    requires items != [] && forall i :: 0 <= i < |items| ==> Writable(items[i])
    ensures !Next(DumpItems(items, true) + ("]" + rest), ']')
  {
    hide Dump, Next, Writable;
    DumpStarts(items[0]);
    var s := DumpItems(items, true) + ("]" + rest);
    assert DumpItems(items, true) == Dump(items[0]) + DumpItems(items[1..], false);
    hide DumpItems;
    assert s[0] == Dump(items[0])[0];
    NoBlank(s, s[0], s[1..]);
  }

  lemma {:induction false} ItemsReadBack(items: seq<Value>, depth: nat, read: seq<Value>, rest: string)
    requires items != [] && forall i :: 0 <= i < |items| ==> Writable(items[i]) && KeysInOrder(items[i])
    ensures ReadItems(DumpItems(items, true) + ("]" + rest), depth, read) ==
            if depth + ItemsDepth(items) <= MAX_DEPTH then Got(Array(read + items), rest) else Bad(TooDeep)
    decreases items, 1
  {
    hide ReadValue, Dump, Depth;
    var s := DumpItems(items, true) + ("]" + rest);
    var tail := DumpItems(items[1..], false) + ("]" + rest);
    assert s == Dump(items[0]) + tail;
    if items[1..] == [] {
      NoBlank(tail, ']', rest);
      ValueReadsBack(items[0], depth + 1, tail);
      assert read + items == read + [items[0]];
    } else {
      var others := DumpItems(items[1..], true) + ("]" + rest);
      assert DumpItems(items[1..], false) == "," + DumpItems(items[1..], true);
      NoBlank(tail, ',', others);
      ValueReadsBack(items[0], depth + 1, tail);
      ItemsReadBack(items[1..], depth, read + [items[0]], rest);
      assert read + [items[0]] + items[1..] == read + items;
    }
  }

  /** Reading one field: its key, the colon and its value. */
  lemma FieldReads(s: string, depth: nat, read: seq<Field>, field: Field, tail: string)
    requires Writable(field.value) && KeysInOrder(field.value) && Ends(tail)
    requires s == Quoted(field.key) + (":" + (Dump(field.value) + tail))
    requires ReadValue(Dump(field.value) + tail, depth + 1) ==
             if depth + 1 + Depth(field.value) <= MAX_DEPTH then Got(field.value, tail) else Bad(TooDeep)
    requires forall i :: 0 <= i < |read| ==> Below(read[i].key, field.key)
    ensures ReadFields(s, depth, read) ==
            if depth + 1 + Depth(field.value) > MAX_DEPTH then Bad(TooDeep)
            else if Next(tail, '}') then Got(Object(read + [field]), After(tail, '}'))
            else if Next(tail, ',') then ReadFields(After(tail, ','), depth, read + [field])
            else Bad(ExpectedComma)
  {
    hide ReadValue, ReadString, Dump, Depth, Quoted, Below, Placed, HasKey, Next, After, SkipBlanks;
    QuotedFirst(field.key);
    NoBlank(s, '"', s[1..]);
    StringReads(field.key, ":" + (Dump(field.value) + tail));
    NoBlank(":" + (Dump(field.value) + tail), ':', Dump(field.value) + tail);
    PlacedLast(read, field);
  }

  lemma Regrouped(key: string, value: string, others: string, end: string)
    ensures "" + (key + (":" + value) + others) + end == key + (":" + (value + (others + end)))
  {
  }

  /** The text of an object's fields: the first, then its end or a comma and the others. */
  lemma FieldsText(fields: seq<Field>, rest: string)
    requires fields != [] && forall i :: 0 <= i < |fields| ==> Writable(fields[i].value)
    ensures var tail := DumpFields(fields[1..], false) + ("}" + rest);
            && DumpFields(fields, true) + ("}" + rest) == Quoted(fields[0].key) + (":" + (Dump(fields[0].value) + tail))
            && Ends(tail)
            && if fields[1..] == [] then tail == "}" + rest
               else tail == "," + (DumpFields(fields[1..], true) + ("}" + rest))
  {
    hide Dump, Quoted, DumpFields;
    FirstFieldText(fields, "}" + rest);
    FieldsTail(fields[1..], "}" + rest);
  }

  lemma FirstFieldText(fields: seq<Field>, end: string)
    requires fields != [] && forall i :: 0 <= i < |fields| ==> Writable(fields[i].value)
    ensures DumpFields(fields, true) + end ==
            Quoted(fields[0].key) + (":" + (Dump(fields[0].value) + (DumpFields(fields[1..], false) + end)))
  {
    hide Dump, Quoted;
    var others := DumpFields(fields[1..], false);
    assert DumpFields(fields, true) == "" + (DumpField(fields[0]) + others);
    hide DumpFields;
    Regrouped(Quoted(fields[0].key), Dump(fields[0].value), others, end);
  }

  lemma FieldsTail(fields: seq<Field>, end: string)
    requires forall i :: 0 <= i < |fields| ==> Writable(fields[i].value)
    requires end != "" && end[0] == '}'
    ensures Ends(DumpFields(fields, false) + end)
    ensures DumpFields(fields, false) + end == if fields == [] then end else "," + (DumpFields(fields, true) + end)
  {
    hide Dump, Quoted, DumpField;
    if fields == [] {
      assert "" + end == end;
    } else {
      CommaJoins(DumpField(fields[0]) + DumpFields(fields[1..], false), end);
    }
  }

  lemma CommaJoins(others: string, end: string)
    ensures "," + others + end == "," + ("" + others + end) && ("," + others + end)[0] == ','
  {
  }

  lemma FieldsStart(fields: seq<Field>, rest: string)
    requires fields != [] && forall i :: 0 <= i < |fields| ==> Writable(fields[i].value)
    ensures !Next(DumpFields(fields, true) + ("}" + rest), '}')
  {
    hide Dump, Quoted, Next, DumpFields;
    QuotedFirst(fields[0].key);
    FieldsText(fields, rest);
    var s := DumpFields(fields, true) + ("}" + rest);
    NoBlank(s, '"', s[1..]);
  }

  lemma {:induction false} FieldsReadBack(fields: seq<Field>, depth: nat, read: seq<Field>, rest: string)
    requires fields != [] && forall i :: 0 <= i < |fields| ==> Writable(fields[i].value) && KeysInOrder(fields[i].value)
    requires InOrder(read + fields)
    ensures ReadFields(DumpFields(fields, true) + ("}" + rest), depth, read) ==
            if depth + FieldsDepth(fields) <= MAX_DEPTH then Got(Object(read + fields), rest) else Bad(TooDeep)
    decreases fields, 1
  {
    hide ReadValue, ReadFields, Dump, DumpFields, Depth, Quoted, Below, Next, After, Writable, KeysInOrder, Ends;
    var field := fields[0];
    var s := DumpFields(fields, true) + ("}" + rest);
    var tail := DumpFields(fields[1..], false) + ("}" + rest);
    FieldsText(fields, rest);
    forall i | 0 <= i < |read|
      ensures Below(read[i].key, field.key)
    {
      assert (read + fields)[i] == read[i] && (read + fields)[|read|] == field;
    }
    ValueReadsBack(field.value, depth + 1, tail);
    FieldReads(s, depth, read, field, tail);
    if fields[1..] == [] {
      NoBlank(tail, '}', rest);
      assert read + fields == read + [field];
    } else {
      NoBlank(tail, ',', DumpFields(fields[1..], true) + ("}" + rest));
      assert read + [field] + fields[1..] == read + fields;
      FieldsReadBack(fields[1..], depth, read + [field], rest);
    }
  }

  // ----- the round trip -----

  /** Parsing what was written gives the value back exactly when it nests at most 64 deep; a deeper one is
      refused. */
  lemma DumpParses(v: Value)
    requires Writable(v) && KeysInOrder(v)
    ensures Parse(Dump(v)) == if Depth(v) <= 64 then Got(v, "") else Bad(TooDeep)
  {
    hide ReadValue, Dump;
    assert Dump(v) + "" == Dump(v);
    ValueReadsBack(v, 0, "");
  }

  /** Values written alike are the same value. */
  lemma DumpInjective(a: Value, b: Value)
    requires Writable(a) && KeysInOrder(a) && Depth(a) <= MAX_DEPTH
    requires Writable(b) && KeysInOrder(b) && Depth(b) <= MAX_DEPTH
    requires Dump(a) == Dump(b)
    ensures a == b
  {
    hide Dump, Parse;
    DumpParses(a);
    DumpParses(b);
  }

  // ----- what parsing gives -----

  predicate Sound(v: Value, depth: nat) {
    KeysInOrder(v) && depth + Depth(v) <= MAX_DEPTH
  }

  lemma {:induction false} ItemsDepthGrows(items: seq<Value>, v: Value)
    ensures ItemsDepth(items + [v]) == Larger(ItemsDepth(items), 1 + Depth(v))
  {
    hide Depth;
    if items == [] {
      assert items + [v] == [v];
    } else {
      assert (items + [v])[1..] == items[1..] + [v];
      ItemsDepthGrows(items[1..], v);
    }
  }

  lemma {:induction false} FieldsDepthGrows(fields: seq<Field>, field: Field)
    ensures FieldsDepth(Placed(fields, field)) == Larger(FieldsDepth(fields), 1 + Depth(field.value))
  {
    hide Depth, Below;
    if fields == [] || Below(field.key, fields[0].key) {
      assert ([field] + fields)[1..] == fields;
    } else {
      FieldsDepthGrows(fields[1..], field);
      assert Placed(fields, field)[1..] == Placed(fields[1..], field);
    }
  }

  lemma ItemAdded(items: seq<Value>, v: Value, depth: nat)
    requires Sound(Array(items), depth) && Sound(v, depth + 1)
    ensures Sound(Array(items + [v]), depth)
  {
    ItemsDepthGrows(items, v);
  }

  lemma FieldAdded(fields: seq<Field>, field: Field, depth: nat)
    requires Sound(Object(fields), depth) && Sound(field.value, depth + 1) && !HasKey(fields, field.key)
    ensures Sound(Object(Placed(fields, field)), depth)
  {
    hide HasKey, Below, Placed;
    FieldsDepthGrows(fields, field);
    PlacedInOrder(fields, field);
    forall f | f in Placed(fields, field)
      ensures KeysInOrder(f.value)
    {
      PlacedHolds(fields, field, f);
    }
    assert forall i :: 0 <= i < |Placed(fields, field)| ==> Placed(fields, field)[i] in Placed(fields, field);
  }

  /** Whatever the text, a value read from it keeps its keys in order and nests no deeper than allowed. */
  lemma {:induction false} ValueSound(s: string, depth: nat)
    ensures ReadValue(s, depth).Got? ==> Sound(ReadValue(s, depth).value, depth)
    decreases |s|, 1
  {
    hide ReadItems, ReadFields, ReadString, ReadNumber, ReadLiteral;
    var t := SkipBlanks(s);
    if t != "" && depth <= MAX_DEPTH {
      ItemsSound(t[1..], depth, []);
      FieldsSound(t[1..], depth, []);
      LiteralSound(t);
    }
  }

  lemma LiteralSound(s: string)
    ensures ReadLiteral(s, "null", Null).Got? ==> ReadLiteral(s, "null", Null).value == Null
    ensures ReadLiteral(s, "true", Bool(true)).Got? ==> ReadLiteral(s, "true", Bool(true)).value == Bool(true)
    ensures ReadLiteral(s, "false", Bool(false)).Got? ==> ReadLiteral(s, "false", Bool(false)).value == Bool(false)
  {
  }

  lemma {:induction false} ItemsSound(s: string, depth: nat, items: seq<Value>)
    requires Sound(Array(items), depth)
    ensures ReadItems(s, depth, items).Got? ==> Sound(ReadItems(s, depth, items).value, depth)
    decreases |s|, 2
  {
    hide ReadValue, Sound, Next, After;
    ValueSound(s, depth + 1);
    var item := ReadValue(s, depth + 1);
    if item.Got? {
      ItemAdded(items, item.value, depth);
      if Next(item.rest, ',') {
        ItemsSound(After(item.rest, ','), depth, items + [item.value]);
      }
    }
  }

  lemma {:induction false} FieldsSound(s: string, depth: nat, fields: seq<Field>)
    requires Sound(Object(fields), depth)
    ensures ReadFields(s, depth, fields).Got? ==> Sound(ReadFields(s, depth, fields).value, depth)
    decreases |s|, 2
  {
    hide ReadValue, ReadString, Sound, Next, After, Placed, HasKey;
    if Next(s, '"') && ReadString(s).Got? && Next(ReadString(s).rest, ':') {
      var key := ReadString(s);
      var text := After(key.rest, ':');
      ValueSound(text, depth + 1);
      var value := ReadValue(text, depth + 1);
      if value.Got? && !HasKey(fields, key.value) {
        var field := Field(key.value, value.value);
        FieldAdded(fields, field, depth);
        if Next(value.rest, ',') {
          FieldsSound(After(value.rest, ','), depth, Placed(fields, field));
        }
      }
    }
  }

  /** The canonical text of any text that parses to exact numbers parses to the same value, and is its own
      canonical text. */
  lemma CanonicalFixed(s: string)
    requires Parse(s).Got? && Writable(Parse(s).value)
    ensures Parse(Dump(Parse(s).value)) == Parse(s)
  {
    hide ReadValue, Dump, SkipBlanks;
    ValueSound(s, 0);
    DumpParses(Parse(s).value);
  }
}
