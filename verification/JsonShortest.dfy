/** The text written for a value is a shortest one: whatever text is read as the value is no shorter. */
module JsonShortest {
  import opened Positions
  import opened Text
  import opened Json
  import opened JsonSpelling
  import opened Utf8Escapes
  import opened JsonGrammar

  // ----- strings -----

  lemma {:induction false} EscapedJoins(a: string, b: string)
    ensures Escaped(a + b) == Escaped(a) + Escaped(b)
  {
    if a == "" {
      assert a + b == b;
    } else {
      assert (a + b)[0] == a[0] && (a + b)[1..] == a[1..] + b;
      EscapedJoins(a[1..], b);
      Grouped(EscapedChar(a[0]), Escaped(a[1..]), Escaped(b));
      hide EscapedChar;
    }
  }

  lemma EscapedOne(c: char)
    ensures Escaped([c]) == EscapedChar(c)
  {
    assert [c][1..] == "" && EscapedChar(c) + "" == EscapedChar(c);
    hide EscapedChar;
  }

  lemma {:induction false} EscapedHigh(text: string)
    requires forall c :: c in text ==> c as int >= 0x80
    ensures |Escaped(text)| == |text|
  {
    if text != "" {
      assert text[0] in text;
      assert forall c :: c in text[1..] ==> c in text;
      EscapedHigh(text[1..]);
    }
  }

  lemma BitShort(bit: Bit)
    requires IsBit(bit)
    ensures |Escaped(BitBytes(bit))| <= |BitText(bit)|
  {
    match bit
    case Plain(c) => EscapedOne(c);
    case Short(letter) => EscapedOne(Named(letter).value as char);
    case Long(digits, codepoint) =>
      if codepoint < 0x80 {
        EscapedOne(codepoint as char);
      } else {
        EscapedHigh(Utf8(codepoint));
      }
  }

  lemma {:induction false} BitsShort(bits: seq<Bit>)
    requires AreBits(bits)
    ensures |Escaped(BitsBytes(bits))| <= |BitsText(bits)|
  {
    if bits != [] {
      BitShort(bits[0]);
      BitsShort(bits[1..]);
      EscapedJoins(BitBytes(bits[0]), BitsBytes(bits[1..]));
      hide IsBit, BitBytes, BitText, Escaped;
    }
  }

  lemma QuoteShort(bits: seq<Bit>)
    requires AreBits(bits)
    ensures |Quoted(BitsBytes(bits))| <= |QuoteText(bits)|
  {
    BitsShort(bits);
    hide Escaped, BitsText, BitsBytes;
  }

  // ----- numbers -----

  lemma NatTextOf(digits: string)
    requires AllDigits(digits) && |digits| > 1
    ensures
      var front, last := digits[..|digits| - 1], digits[|digits| - 1];
      AllDigits(front) && NatValue(digits) == NatValue(front) * 10 + DigitOf(last) && DigitOf(last) < 10
  {
    assert digits[|digits| - 1] in digits;
    var front := digits[..|digits| - 1];
    assert forall c :: c in front ==> c in digits;
    assert AllDigits(front);
  }

  function DigitOf(c: char): nat {
    if '0' <= c <= '9' then c as int - '0' as int else 0
  }

  lemma {:induction false} NatShort(digits: string)
    requires AllDigits(digits)
    ensures |NatText(NatValue(digits))| <= |digits|
    decreases |digits|
  {
    if |digits| == 1 {
      assert digits[0] in digits && digits[..0] == "";
      assert NatValue(digits) < 10;
    } else {
      NatTextOf(digits);
      var front, last := digits[..|digits| - 1], digits[|digits| - 1];
      NatShort(front);
      var n, value := NatValue(front), NatValue(digits);
      hide NatValue;
      if value >= 10 {
        assert value / 10 == n;
      }
    }
  }

  lemma NumberShort(n: Spelling)
    requires IsNumber(n) && !NumberSaid(n).Other?
    ensures |Dump(Num(NumberSaid(n)))| <= |NumberText(n)|
  {
    NatShort(n.whole);
    assert NatText(0) == "0";
    hide NatValue, NatText;
  }

  // ----- values -----

  /** The size of fields each written behind a comma. */
  function FieldsSize(fields: seq<Field>): nat
    requires forall i :: 0 <= i < |fields| ==> Writable(fields[i].value)
  {
    if fields == [] then 0 else 1 + |DumpField(fields[0])| + FieldsSize(fields[1..])
  }

  predicate AllWritable(fields: seq<Field>) {
    forall i :: 0 <= i < |fields| ==> Writable(fields[i].value)
  }

  lemma {:induction false} PlacedSize(fields: seq<Field>, field: Field)
    requires AllWritable(fields) && Writable(field.value)
    ensures AllWritable(Placed(fields, field)) && FieldsSize(Placed(fields, field)) == FieldsSize(fields) + 1 + |DumpField(field)|
  {
    hide DumpField, Writable, Below;
    if fields == [] || Below(field.key, fields[0].key) {
      assert ([field] + fields)[1..] == fields;
    } else {
      PlacedSize(fields[1..], field);
      assert ([fields[0]] + Placed(fields[1..], field))[1..] == Placed(fields[1..], field);
    }
  }

  lemma {:induction false} GatheredSize(read: seq<Field>, said: seq<Field>)
    requires AllWritable(read) && AllWritable(said)
    ensures AllWritable(Gathered(read, said)) && FieldsSize(Gathered(read, said)) == FieldsSize(read) + FieldsSize(said)
    decreases |said|
  {
    hide DumpField, Writable, Placed;
    if said != [] {
      PlacedSize(read, said[0]);
      GatheredSize(Placed(read, said[0]), said[1..]);
    }
  }

  lemma {:induction false} FieldsDumped(fields: seq<Field>)
    requires AllWritable(fields)
    ensures |DumpFields(fields, false)| == FieldsSize(fields)
    ensures fields != [] ==> |DumpFields(fields, true)| + 1 == FieldsSize(fields)
  {
    hide DumpField, Writable;
    if fields != [] {
      FieldsDumped(fields[1..]);
    }
  }

  lemma {:induction false} TreeShort(t: Tree, v: Value, depth: nat)
    requires Says(t, v, depth) && Writable(v)
    ensures |Dump(v)| <= |TreeText(t)|
    decreases t
  {
    match t
    case Word(_) =>
    case Digits(n) => NumberShort(n);
    case Quote(bits) => QuoteShort(bits);
    case List(_, items) =>
      if items != [] {
        ItemsShort(items, v.items, depth + 1);
      }
    case Record(_, members) =>
      var said :| SayFields(members, said, depth + 1) && KeysApart(said) && forall f :: f in v.fields <==> f in said;
      ObjectShort(members, said, v.fields, depth + 1);
  }

  lemma {:induction false} SpacedShort(sp: Spaced, v: Value, depth: nat)
    requires SaysSpaced(sp, v, depth) && Writable(v)
    ensures |Dump(v)| <= |SpacedText(sp)|
    decreases sp
  {
    TreeShort(sp.tree, v, depth);
    hide Dump, TreeText, Says, Writable;
  }

  lemma {:induction false} ItemsShort(items: seq<Spaced>, values: seq<Value>, depth: nat)
    requires items != [] && SayItems(items, values, depth) && forall i :: 0 <= i < |values| ==> Writable(values[i])
    ensures |DumpItems(values, true)| + 1 <= |ItemsText(items)| && |DumpItems(values, false)| <= |ItemsText(items)|
    decreases items
  {
    SpacedShort(items[0], values[0], depth);
    hide Dump, SpacedText, SaysSpaced, Writable;
    if |items| > 1 {
      ItemsShort(items[1..], values[1..], depth);
    }
  }

  lemma {:induction false} MemberShort(m: Member, field: Field, depth: nat)
    requires SaysMember(m, field, depth) && Writable(field.value)
    ensures |DumpField(field)| <= |MemberText(m)|
    decreases m
  {
    QuoteShort(m.key);
    SpacedShort(m.said, field.value, depth);
    hide Dump, Quoted, QuoteText, SpacedText, Writable;
  }

  lemma {:induction false} MembersShort(members: seq<Member>, said: seq<Field>, depth: nat)
    requires members != [] && SayFields(members, said, depth) && AllWritable(said)
    ensures FieldsSize(said) <= |MembersText(members)|
    decreases members, 0
  {
    MemberShort(members[0], said[0], depth);
    hide DumpField, MemberText, SaysMember, Writable;
    if |members| > 1 {
      MembersShort(members[1..], said[1..], depth);
    }
  }

  lemma {:induction false} ObjectShort(members: seq<Member>, said: seq<Field>, fields: seq<Field>, depth: nat)
    requires SayFields(members, said, depth) && KeysApart(said) && InOrder(fields) && forall f :: f in fields <==> f in said
    requires Writable(Object(fields))
    ensures |Dump(Object(fields))| <= |TreeText(Record("", members))|
    ensures forall gap :: |Dump(Object(fields))| <= |TreeText(Record(gap, members))|
    decreases members, 1
  {
    EmptySame(fields, said);
    EmptySame(said, fields);
    if members != [] {
      forall i | 0 <= i < |said|
        ensures Writable(said[i].value)
      {
        assert said[i] in said;
      }
      GatheredExact([], said);
      OrderedSame(Gathered([], said), fields);
      MembersShort(members, said, depth);
      GatheredSize([], said);
      FieldsDumped(fields);
    }
    hide DumpFields, MembersText, FieldsSize;
  }

  /** Whatever is read as a value with integers alone is no shorter than the text written for it. */
  lemma DumpShortest(s: string, v: Value)
    requires Parse(s) == Got(v, "") && Writable(v)
    ensures |Dump(v)| <= |s|
  {
    ParseExact(s, v);
    hide Dump, Parse, SaysSpaced, SpacedText;
    var sp :| SpacedText(sp) == s && SaysSpaced(sp, v, 0);
    SpacedShort(sp, v, 0);
  }
}
