/** The JSON parser's methods, advancing an offset over its input, and the writer's loops. */
module JsonText {
  import opened Text
  import opened Json

  datatype Outcome<+T> = Done(value: T) | Failed(fault: JsonFault)

  /** A method's outcome and what its parser has left, against what the grammar reads. */
  ghost predicate Agrees<T>(outcome: Outcome<T>, rest: string, read: Read<T>) {
    match read
    case Got(value, after) => outcome == Done(value) && rest == after
    case Bad(fault) => outcome == Failed(fault)
  }

  class Parser {
    const input: string
    var offset: nat

    ghost predicate Valid()
      reads this
    {
      offset <= |input|
    }

    ghost function Rest(): string
      requires Valid()
      reads this
    {
      input[offset..]
    }

    constructor (text: string)
      ensures Valid() && Rest() == text && input == text
    {
      input, offset := text, 0;
    }

    // ----- space and punctuation -----

    method SkipSpace()
      requires Valid()
      modifies this
      ensures Valid() && offset >= old(offset) && Rest() == SkipBlanks(old(Rest()))
    {
      while offset < |input| && IsBlank(input[offset])
        invariant Valid() && offset >= old(offset) && SkipBlanks(Rest()) == SkipBlanks(old(Rest()))
      {
        assert Rest()[1..] == input[offset + 1..];
        offset := offset + 1;
      }
    }

    method Consume(expected: char) returns (found: bool)
      requires Valid()
      modifies this
      ensures Valid() && offset >= old(offset) && found == Next(old(Rest()), expected)
      ensures Rest() == if found then After(old(Rest()), expected) else SkipBlanks(old(Rest()))
      ensures found ==> offset > old(offset)
    {
      SkipSpace();
      found := false;
      if offset < |input| && input[offset] == expected {
        assert Rest()[1..] == input[offset + 1..];
        offset := offset + 1;
        found := true;
      }
    }

    // ----- strings -----

    method ParseHex() returns (outcome: Outcome<nat>)
      requires Valid() && offset + 4 <= |input|
      modifies this
      ensures Valid() && offset >= old(offset)
      ensures Agrees(outcome, Rest(), ReadHex(old(Rest()), 0, 4))
      ensures outcome.Done? ==> outcome.value < 0x10000
    {
      var codepoint: nat := 0;
      ReadHexBounded(Rest(), 0, 4, 1);
      for index := 0 to 4
        invariant Valid() && offset == old(offset) + index && offset + (4 - index) <= |input|
        invariant ReadHex(Rest(), codepoint, 4 - index) == ReadHex(old(Rest()), 0, 4)
      {
        var digit := HexValue(input[offset]);
        assert Rest()[1..] == input[offset + 1..];
        offset := offset + 1;
        if digit < 0 {
          return Failed(InvalidUnicode);
        }
        codepoint := codepoint * 16 + digit;
      }
      return Done(codepoint);
    }

    /** What follows a backslash. */
    method ParseEscape() returns (outcome: Outcome<string>)
      requires Valid() && 0 < offset && input[offset - 1] == '\\'
      modifies this
      ensures Valid() && offset >= old(offset)
      ensures Agrees(outcome, Rest(), ReadPiece(old(input[offset - 1..])))
    {
      hide ReadHex, Utf8;
      ghost var from := input[offset - 1..];
      if offset >= |input| {
        return Failed(UnterminatedEscape);
      }
      var letter := input[offset];
      assert from[1] == letter && from[2..] == input[offset + 1..];
      offset := offset + 1;
      if letter == 'u' {
        if offset + 4 > |input| {
          return Failed(ShortUnicode);
        }
        var codepoint := ParseHex();
        return if codepoint.Failed? then Failed(codepoint.fault) else Done(Utf8(codepoint.value));
      }
      if Unescaped(letter) == "" {
        return Failed(InvalidEscape);
      }
      return Done(Unescaped(letter));
    }

    method ParseString() returns (outcome: Outcome<string>)
      requires Valid()
      modifies this
      ensures Valid() && offset >= old(offset) && (outcome.Done? ==> offset > old(offset))
      ensures Agrees(outcome, Rest(), ReadString(old(Rest())))
    {
      hide ReadPiece;
      var started := Consume('"');
      if !started {
        return Failed(ExpectedString);
      }
      var result := "";
      ghost var body := Rest();
      while offset < |input|
        invariant Valid() && offset > old(offset)
        invariant ReadBody(Rest(), result) == ReadBody(body, "")
        decreases |input| - offset
      {
        ghost var rest := Rest();
        var character := input[offset];
        assert rest[0] == character && rest[1..] == input[offset + 1..];
        offset := offset + 1;
        if character == '"' {
          return Done(result);
        }
        PieceIs(rest);
        if character as int < 0x20 {
          return Failed(ControlCharacter);
        }
        if character != '\\' {
          result := result + [character];
        } else {
          var piece := ParseEscape();
          if piece.Failed? {
            return Failed(piece.fault);
          }
          result := result + piece.value;
        }
      }
      return Failed(UnterminatedString);
    }

    // ----- numbers -----

    method SkipDigits()
      requires Valid()
      modifies this
      ensures Valid() && offset == old(offset) + DigitCount(old(Rest()))
    {
      while offset < |input| && IsDigit(input[offset])
        invariant Valid() && offset + DigitCount(Rest()) == old(offset) + DigitCount(old(Rest()))
      {
        assert Rest()[1..] == input[offset + 1..];
        offset := offset + 1;
      }
    }

    method ParseWhole() returns (outcome: Outcome<string>)
      requires Valid()
      modifies this
      ensures Valid() && offset >= old(offset) && Agrees(outcome, Rest(), ReadWhole(old(Rest())))
    {
      var start := offset;
      if offset >= |input| {
        return Failed(ShortNumber);
      }
      if input[offset] == '0' {
        offset := offset + 1;
      } else {
        if !('1' <= input[offset] <= '9') {
          return Failed(InvalidNumber);
        }
        SkipDigits();
      }
      assert old(Rest())[..offset - start] == input[start..offset] && old(Rest())[offset - start..] == Rest();
      return Done(input[start..offset]);
    }

    method ParseDigits(fault: JsonFault) returns (outcome: Outcome<string>)
      requires Valid()
      modifies this
      ensures Valid() && offset >= old(offset) && Agrees(outcome, Rest(), ReadDigits(old(Rest()), fault))
    {
      var start := offset;
      if offset >= |input| || !IsDigit(input[offset]) {
        return Failed(fault);
      }
      SkipDigits();
      assert old(Rest())[..offset - start] == input[start..offset] && old(Rest())[offset - start..] == Rest();
      return Done(input[start..offset]);
    }

    method ParseFraction() returns (outcome: Outcome<string>)
      requires Valid()
      modifies this
      ensures Valid() && offset >= old(offset) && Agrees(outcome, Rest(), ReadFraction(old(Rest())))
    {
      if offset < |input| && input[offset] == '.' {
        assert Rest()[1..] == input[offset + 1..];
        offset := offset + 1;
        outcome := ParseDigits(InvalidFraction);
        return;
      }
      return Done("");
    }

    method ParseExponent() returns (outcome: Outcome<int>)
      requires Valid()
      modifies this
      ensures Valid() && offset >= old(offset) && Agrees(outcome, Rest(), ReadExponent(old(Rest())))
    {
      var exponent: int := 0;
      if offset < |input| && (input[offset] == 'e' || input[offset] == 'E') {
        assert Rest()[1..] == input[offset + 1..];
        offset := offset + 1;
        var negative := false;
        if offset < |input| && (input[offset] == '+' || input[offset] == '-') {
          assert Rest()[1..] == input[offset + 1..];
          negative := input[offset] == '-';
          offset := offset + 1;
        }
        var digits := ParseDigits(InvalidExponent);
        if digits.Failed? {
          return Failed(digits.fault);
        }
        exponent := NatValue(digits.value);
        if negative {
          exponent := -exponent;
        }
      }
      return Done(exponent);
    }

    method ParseNumber() returns (outcome: Outcome<Number>)
      requires Valid()
      modifies this
      ensures Valid() && offset >= old(offset) && (outcome.Done? ==> offset > old(offset))
      ensures Agrees(outcome, Rest(), ReadNumber(old(Rest())))
    {
      hide ReadWhole, ReadFraction, ReadExponent, InRange, NatValue;
      var start := offset;
      var negative := false;
      if offset < |input| && input[offset] == '-' {
        assert Rest()[1..] == input[offset + 1..];
        negative := true;
        offset := offset + 1;
      }
      var whole := ParseWhole();
      if whole.Failed? {
        return Failed(whole.fault);
      }
      var wholeEnd := offset;
      var fraction := ParseFraction();
      if fraction.Failed? {
        return Failed(fraction.fault);
      }
      var exponent := ParseExponent();
      if exponent.Failed? {
        return Failed(exponent.fault);
      }
      var text := input[start..offset];
      assert text == old(Rest())[..|old(Rest())| - |Rest()|];
      assert offset == wholeEnd <==> Rest() == input[wholeEnd..] by {
        assert |Rest()| == |input| - offset && |input[wholeEnd..]| == |input| - wholeEnd;
      }
      if !InRange(NatValue(whole.value + fraction.value), exponent.value - |fraction.value|) {
        return Failed(OutOfRange);
      }
      return Done(NumberOf(negative, whole.value, offset == wholeEnd, text));
    }

    // ----- values -----

    method ParseLiteral(word: string, v: Value) returns (outcome: Outcome<Value>)
      requires Valid() && word != ""
      modifies this
      ensures Valid() && offset >= old(offset) && (outcome.Done? ==> offset > old(offset))
      ensures Agrees(outcome, Rest(), ReadLiteral(old(Rest()), word, v))
    {
      var end := if offset + |word| < |input| then offset + |word| else |input|;
      assert |word| <= |Rest()| ==> Rest()[..|word|] == input[offset..end] && Rest()[|word|..] == input[offset + |word|..];
      if input[offset..end] != word {
        return Failed(InvalidLiteral);
      }
      offset := offset + |word|;
      return Done(v);
    }

    method ParseValue(depth: nat) returns (outcome: Outcome<Value>)
      requires Valid()
      modifies this
      ensures Valid() && offset >= old(offset) && (outcome.Done? ==> offset > old(offset))
      ensures Agrees(outcome, Rest(), ReadValue(old(Rest()), depth))
      decreases |input| - offset, 1
    {
      hide ReadItems, ReadFields, ReadString, ReadNumber, ReadLiteral;
      BlanksTwice(Rest());
      SkipSpace();
      if offset >= |input| {
        return Failed(ExpectedValue);
      }
      if depth > MAX_DEPTH {
        return Failed(TooDeep);
      }
      var c := input[offset];
      assert Rest()[0] == c && SkipBlanks(Rest()) == Rest();
      if c == 'n' {
        outcome := ParseLiteral("null", Null);
      } else if c == 't' {
        outcome := ParseLiteral("true", Bool(true));
      } else if c == 'f' {
        outcome := ParseLiteral("false", Bool(false));
      } else if c == '"' {
        var text := ParseString();
        return if text.Failed? then Failed(text.fault) else Done(Str(text.value));
      } else if c == '[' {
        outcome := ParseArray(depth);
      } else if c == '{' {
        outcome := ParseObject(depth);
      } else if c == '-' || IsDigit(c) {
        var number := ParseNumber();
        return if number.Failed? then Failed(number.fault) else Done(Num(number.value));
      } else {
        return Failed(UnexpectedCharacter);
      }
    }

    method ParseArray(depth: nat) returns (outcome: Outcome<Value>)
      requires Valid() && offset < |input| && input[offset] == '[' && depth <= MAX_DEPTH
      modifies this
      ensures Valid() && offset > old(offset) && Agrees(outcome, Rest(), ReadValue(old(Rest()), depth))
      decreases |input| - offset, 0
    {
      ghost var body := input[offset + 1..];
      assert Rest()[1..] == body;
      ArrayBegins(Rest(), depth);
      hide ReadValue, ReadItems;
      var found := Consume('[');
      var values: seq<Value> := [];
      found := Consume(']');
      if found {
        return Done(Array(values));
      }
      ItemsAfterBlanks(body, depth, values);
      while true
        invariant Valid() && offset > old(offset) && ReadItems(Rest(), depth, values) == ReadItems(body, depth, [])
        decreases |input| - offset
      {
        ItemsStep(Rest(), depth, values);
        var item := ParseValue(depth + 1);
        if item.Failed? {
          return Failed(item.fault);
        }
        values := values + [item.value];
        BlanksTwice(Rest());
        found := Consume(']');
        if found {
          return Done(Array(values));
        }
        found := Consume(',');
        if !found {
          return Failed(ExpectedComma);
        }
      }
    }

    method ParseObject(depth: nat) returns (outcome: Outcome<Value>)
      requires Valid() && offset < |input| && input[offset] == '{' && depth <= MAX_DEPTH
      modifies this
      ensures Valid() && offset > old(offset) && Agrees(outcome, Rest(), ReadValue(old(Rest()), depth))
      decreases |input| - offset, 0
    {
      ghost var body := input[offset + 1..];
      assert Rest()[1..] == body;
      ObjectBegins(Rest(), depth);
      hide ReadValue, ReadFields, ReadString, Placed, HasKey;
      var found := Consume('{');
      var values: seq<Field> := [];
      found := Consume('}');
      if found {
        return Done(Object(values));
      }
      FieldsAfterBlanks(body, depth, values);
      while true
        invariant Valid() && offset > old(offset) && ReadFields(Rest(), depth, values) == ReadFields(body, depth, [])
        decreases |input| - offset
      {
        FieldsStep(Rest(), depth, values);
        FieldsAfterBlanks(Rest(), depth, values);
        StringAfterBlanks(Rest());
        SkipSpace();
        if offset >= |input| || input[offset] != '"' {
          return Failed(ExpectedKey);
        }
        var key := ParseString();
        if key.Failed? {
          return Failed(key.fault);
        }
        found := Consume(':');
        if !found {
          return Failed(ExpectedColon);
        }
        var value := ParseValue(depth + 1);
        if value.Failed? {
          return Failed(value.fault);
        }
        if HasKey(values, key.value) {
          return Failed(DuplicateKey);
        }
        values := Placed(values, Field(key.value, value.value));
        BlanksTwice(Rest());
        found := Consume('}');
        if found {
          return Done(Object(values));
        }
        found := Consume(',');
        if !found {
          return Failed(ExpectedComma);
        }
      }
    }

    /** The whole input as one value. */
    method ParseDocument() returns (outcome: Outcome<Value>)
      requires Valid() && offset == 0
      modifies this
      ensures Agrees(outcome, "", Parse(input))
    {
      hide ReadValue;
      assert Rest() == input;
      ValueAfterBlanks(input, 0);
      SkipSpace();
      outcome := ParseValue(0);
      if outcome.Failed? {
        return;
      }
      SkipSpace();
      if offset != |input| {
        return Failed(TrailingData);
      }
    }
  }

  // ----- the grammar, step by step -----

  lemma {:induction false} BlanksTwice(s: string)
    ensures SkipBlanks(SkipBlanks(s)) == SkipBlanks(s)
    ensures forall c :: Next(SkipBlanks(s), c) == Next(s, c)
    ensures forall c :: Next(s, c) ==> After(SkipBlanks(s), c) == After(s, c)
  {
    if s != "" && IsBlank(s[0]) {
      BlanksTwice(s[1..]);
    }
  }

  lemma ValueAfterBlanks(s: string, depth: nat)
    ensures ReadValue(SkipBlanks(s), depth) == ReadValue(s, depth)
  {
    hide ReadItems, ReadFields, ReadString, ReadNumber, ReadLiteral;
    BlanksTwice(s);
  }

  lemma ItemsAfterBlanks(s: string, depth: nat, items: seq<Value>)
    ensures ReadItems(SkipBlanks(s), depth, items) == ReadItems(s, depth, items)
  {
    hide ReadValue;
    ValueAfterBlanks(s, depth + 1);
    ItemsStep(s, depth, items);
    ItemsStep(SkipBlanks(s), depth, items);
    hide ReadItems;
  }

  lemma StringAfterBlanks(s: string)
    ensures ReadString(SkipBlanks(s)) == ReadString(s)
  {
    hide ReadBody;
    BlanksTwice(s);
  }

  lemma FieldsAfterBlanks(s: string, depth: nat, fields: seq<Field>)
    ensures ReadFields(SkipBlanks(s), depth, fields) == ReadFields(s, depth, fields)
  {
    hide ReadValue, ReadString, ReadFields;
    BlanksTwice(s);
    StringAfterBlanks(s);
    FieldsStep(s, depth, fields);
    FieldsStep(SkipBlanks(s), depth, fields);
  }

  lemma ArrayBegins(s: string, depth: nat)
    requires s != "" && s[0] == '[' && depth <= MAX_DEPTH
    ensures ReadValue(s, depth) ==
            if Next(s[1..], ']') then Got(Array([]), After(s[1..], ']')) else ReadItems(s[1..], depth, [])
    ensures Next(s, '[') && After(s, '[') == s[1..]
  {
    hide ReadItems;
  }

  lemma ObjectBegins(s: string, depth: nat)
    requires s != "" && s[0] == '{' && depth <= MAX_DEPTH
    ensures ReadValue(s, depth) ==
            if Next(s[1..], '}') then Got(Object([]), After(s[1..], '}')) else ReadFields(s[1..], depth, [])
    ensures Next(s, '{') && After(s, '{') == s[1..]
  {
    hide ReadFields;
  }

  lemma ItemsStep(s: string, depth: nat, items: seq<Value>)
    ensures ReadItems(s, depth, items) ==
            var item := ReadValue(s, depth + 1);
            if item.Bad? then item
            else if Next(item.rest, ']') then Got(Array(items + [item.value]), After(item.rest, ']'))
            else if Next(item.rest, ',') then ReadItems(After(item.rest, ','), depth, items + [item.value])
            else Bad(ExpectedComma)
  {
    hide ReadValue;
  }

  lemma FieldsStep(s: string, depth: nat, fields: seq<Field>)
    ensures ReadFields(s, depth, fields) ==
            if !Next(s, '"') then Bad(ExpectedKey)
            else
              var key := ReadString(s);
              if key.Bad? then Bad(key.fault)
              else if !Next(key.rest, ':') then Bad(ExpectedColon)
              else
                var value := ReadValue(After(key.rest, ':'), depth + 1);
                if value.Bad? then value
                else if HasKey(fields, key.value) then Bad(DuplicateKey)
                else
                  var more := Placed(fields, Field(key.value, value.value));
                  if Next(value.rest, '}') then Got(Object(more), After(value.rest, '}'))
                  else if Next(value.rest, ',') then ReadFields(After(value.rest, ','), depth, more)
                  else Bad(ExpectedComma)
  {
    hide ReadValue, ReadString, Placed, HasKey;
  }

  lemma PieceIs(s: string)
    requires s != "" && s[0] != '"'
    ensures s[0] as int < 0x20 ==> ReadPiece(s) == Bad(ControlCharacter)
    ensures s[0] as int >= 0x20 && s[0] != '\\' ==> ReadPiece(s) == Got([s[0]], s[1..])
  {
  }

  // ----- writing -----

  lemma EscapedStep(text: string, i: nat)
    requires i < |text|
    ensures Escaped(text[i..]) == EscapedChar(text[i]) + Escaped(text[i + 1..])
  {
    hide EscapedChar;
    assert text[i..][1..] == text[i + 1..];
  }

  method DumpString(text: string) returns (output: string)
    ensures output == Quoted(text)
  {
    hide EscapedChar;
    output := "\"";
    assert text[0..] == text;
    for i := 0 to |text|
      invariant output + Escaped(text[i..]) == "\"" + Escaped(text)
    {
      EscapedStep(text, i);
      assert output + (EscapedChar(text[i]) + Escaped(text[i + 1..])) ==
             (output + EscapedChar(text[i])) + Escaped(text[i + 1..]);
      output := output + EscapedChar(text[i]);
    }
    output := output + "\"";
  }

  method DumpValue(v: Value) returns (output: string)
    requires Writable(v)
    ensures output == Dump(v)
    decreases v
  {
    hide DumpItems, DumpFields, Quoted, IntegerText;
    match v
    case Null => output := "null";
    case Bool(b) => output := if b then "true" else "false";
    case Num(number) => output := if number.MinusZero? then "-0" else IntegerText(number.n);
    case Str(text) => output := DumpString(text);
    case Array(items) =>
      output := "[";
      var first := true;
      assert items[0..] == items;
      for i := 0 to |items|
        invariant output + DumpItems(items[i..], first) == "[" + DumpItems(items, true)
      {
        ItemsTextStep(items, i, first);
        var item := DumpValue(items[i]);
        output := output + Comma(first) + item;
        first := false;
      }
      NothingToDump();
      output := output + "]";
    case Object(fields) =>
      output := "{";
      var first := true;
      assert fields[0..] == fields;
      for i := 0 to |fields|
        invariant output + DumpFields(fields[i..], first) == "{" + DumpFields(fields, true)
      {
        FieldsTextStep(fields, i, first);
        var key := DumpString(fields[i].key);
        var value := DumpValue(fields[i].value);
        output := output + Comma(first) + key + ":" + value;
        first := false;
      }
      NothingToDump();
      output := output + "}";
  }

  lemma NothingToDump()
    ensures forall first :: DumpItems([], first) == "" && DumpFields([], first) == ""
  {
  }

  lemma ItemsTextStep(items: seq<Value>, i: nat, first: bool)
    requires i < |items| && forall j :: 0 <= j < |items| ==> Writable(items[j])
    ensures DumpItems(items[i..], first) == Comma(first) + (Dump(items[i]) + DumpItems(items[i + 1..], false))
  {
    hide Dump, Writable;
    assert items[i..][1..] == items[i + 1..];
  }

  lemma FieldsTextStep(fields: seq<Field>, i: nat, first: bool)
    requires i < |fields| && forall j :: 0 <= j < |fields| ==> Writable(fields[j].value)
    ensures DumpFields(fields[i..], first) ==
            Comma(first) + (Quoted(fields[i].key) + (":" + Dump(fields[i].value)) + DumpFields(fields[i + 1..], false))
  {
    hide Dump, Writable, Quoted;
    assert fields[i..][1..] == fields[i + 1..];
  }
}
