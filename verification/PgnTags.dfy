/** What a tag section says, told by how it is put together: of each key the value of the first tag that names it. */
module PgnTags {
  import opened Positions
  import opened Text
  import opened Pgn

  /** White space and a tag in brackets: its key, what stands before the value's opening quote, the value, and what stands
      behind its closing one. */
  datatype TagText = TagText(gap: string, key: string, middle: string, value: string, tail: string)

  predicate AllSpace(s: string) {
    forall c :: c in s ==> IsSpace(c)
  }

  predicate IsTag(t: TagText) {
    && AllSpace(t.gap) && (forall c :: c in t.key ==> c != ' ' && c != '\t')
    && t.middle != "" && (t.middle[0] == ' ' || t.middle[0] == '\t') && '"' !in t.middle && '"' !in t.tail
    && ']' !in t.key && ']' !in t.middle && ']' !in t.value && ']' !in t.tail
  }

  function Inside(t: TagText): string {
    t.key + (t.middle + ("\"" + (t.value + ("\"" + t.tail))))
  }

  function TagSpelled(t: TagText): string {
    t.gap + ("[" + (Inside(t) + "]"))
  }

  predicate AreTags(tags: seq<TagText>) {
    forall i :: 0 <= i < |tags| ==> IsTag(tags[i])
  }

  function Section(tags: seq<TagText>, rest: string): string {
    if tags == [] then rest else TagSpelled(tags[0]) + Section(tags[1..], rest)
  }

  /** The value of the first tag with a key. */
  function FirstValue(tags: seq<TagText>, key: string): Option<string> {
    if tags == [] then None else if tags[0].key == key then Some(tags[0].value) else FirstValue(tags[1..], key)
  }

  ghost predicate Holds(read: map<string, string>, tags: seq<TagText>) {
    forall key :: if key in read then FirstValue(tags, key) == Some(read[key]) else FirstValue(tags, key) == None
  }

  /** Where the tags end. */
  predicate NoTag(moves: string) {
    moves == "" || (!IsSpace(moves[0]) && moves[0] != '[')
  }

  // ----- places in a line -----

  lemma {:induction false} FindsFirst(before: string, c: char, after: string, start: nat)
    requires start <= |before| && c !in before[start..]
    ensures Find(before + ([c] + after), c, start) == |before|
    decreases |before| - start
  {
    var text := before + ([c] + after);
    if start < |before| {
      assert before[start] in before[start..];
      assert before[start + 1..] == before[start..][1..];
      FindsFirst(before, c, after, start + 1);
    }
  }

  lemma {:induction false} FindsBlank(before: string, after: string, start: nat)
    requires start <= |before| && (forall c :: c in before ==> c != ' ' && c != '\t') && after != "" && (after[0] == ' ' || after[0] == '\t')
    ensures FindBlank(before + after, start) == |before|
    decreases |before| - start
  {
    var text := before + after;
    if start < |before| {
      assert text[start] == before[start] && before[start] in before;
      FindsBlank(before, after, start + 1);
    } else {
      assert text[start] == after[0];
    }
  }

  lemma LastIs(text: string, c: char, k: nat)
    requires k < |text| && text[k] == c && forall j :: k < j < |text| ==> text[j] != c
    ensures FindLast(text, c) == k
  {
    hide FindLast;
    assert text[k] in text;
    var last := FindLast(text, c);
    assert last < |text|;
  }

  lemma NoneAfter(before: string, c: char, after: string, j: nat)
    requires c !in after && |before| < j < |before| + 1 + |after|
    ensures (before + ([c] + after))[j] != c
  {
    assert (before + ([c] + after))[j] == after[j - |before| - 1];
  }

  lemma FindsLast(before: string, c: char, after: string)
    requires c !in after
    ensures FindLast(before + ([c] + after), c) == |before|
  {
    var text := before + ([c] + after);
    forall j | |before| < j < |text|
      ensures text[j] != c
    {
      NoneAfter(before, c, after, j);
    }
    hide FindLast;
    LastIs(text, c, |before|);
  }

  lemma Joined(a: string, b: string, c: string)
    ensures a + (b + c) == a + b + c
  {
  }

  lemma Between(a: string, b: string, c: string)
    ensures (a + b + c)[|a|..|a| + |b|] == b && (a + b + c)[..|a|] == a && (a + b + c)[|a| + |b|..] == c
  {
  }

  /** The quotes of a line. */
  lemma LineSplits(key: string, middle: string, value: string, tail: string)
    ensures
      var line := key + (middle + ("\"" + (value + ("\"" + tail))));
      var front := key + middle;
      && line == key + (middle + ("\"" + (value + ("\"" + tail)))) && line == front + (['"'] + (value + ("\"" + tail)))
      && line == (front + ['"'] + value) + (['"'] + tail)
      && line[..|key|] == key && line[|front| + 1..|front| + 1 + |value|] == value
  {
    var line := key + (middle + ("\"" + (value + ("\"" + tail))));
    var rest, front := "\"" + (value + ("\"" + tail)), key + middle;
    Joined(key, middle, rest);
    Joined("\"", value, "\"" + tail);
    Joined(front, "\"" + value, "\"" + tail);
    Joined(front, "\"", value);
    Between("", key, middle + rest);
    Between(front + "\"", value, "\"" + tail);
  }

  lemma KeyEnds(t: TagText)
    requires IsTag(t)
    ensures FindBlank(Inside(t), 0) == |t.key|
  {
    var after := t.middle + ("\"" + (t.value + ("\"" + t.tail)));
    FindsBlank(t.key, after, 0);
  }

  lemma QuoteFound(t: TagText)
    requires IsTag(t)
    ensures |t.key| <= |Inside(t)| && Find(Inside(t), '"', |t.key|) == |t.key| + |t.middle|
  {
    var front := t.key + t.middle;
    LineSplits(t.key, t.middle, t.value, t.tail);
    assert front[|t.key|..] == t.middle;
    FindsFirst(front, '"', t.value + ("\"" + t.tail), |t.key|);
    hide Find;
  }

  lemma LastFound(t: TagText)
    requires IsTag(t)
    ensures FindLast(Inside(t), '"') == |t.key| + |t.middle| + 1 + |t.value|
  {
    LineSplits(t.key, t.middle, t.value, t.tail);
    FindsLast(t.key + t.middle + ['"'] + t.value, '"', t.tail);
    hide FindLast;
  }

  lemma NoBracket(t: TagText)
    requires IsTag(t)
    ensures ']' !in Inside(t)
  {
  }

  lemma TagPlaces(t: TagText)
    ensures |Inside(t)| == |t.key| + |t.middle| + 1 + |t.value| + 1 + |t.tail| && Inside(t)[..|t.key|] == t.key
    ensures Inside(t)[|t.key| + |t.middle| + 1..|t.key| + |t.middle| + 1 + |t.value|] == t.value
  {
    LineSplits(t.key, t.middle, t.value, t.tail);
  }

  lemma TagRead(t: TagText)
    requires IsTag(t)
    ensures ReadTag(Inside(t)) == Ok((t.key, t.value))
  {
    KeyEnds(t);
    QuoteFound(t);
    LastFound(t);
    TagPlaces(t);
    hide Find, FindLast, FindBlank, IsTag, Inside;
  }

  // ----- every such section is read -----

  lemma {:induction false} SpaceSkipped(gap: string, rest: string)
    requires AllSpace(gap)
    ensures SkipSpace(gap + rest) == SkipSpace(rest)
  {
    if gap == "" {
      assert gap + rest == rest;
    } else {
      assert gap[0] in gap && (gap + rest)[0] == gap[0] && (gap + rest)[1..] == gap[1..] + rest;
      assert AllSpace(gap[1..]) by {
        assert forall c :: c in gap[1..] ==> c in gap;
      }
      SpaceSkipped(gap[1..], rest);
    }
  }

  lemma SpaceEnds(rest: string)
    requires rest == "" || !IsSpace(rest[0])
    ensures SkipSpace(rest) == rest
  {
  }

  lemma BracketFound(line: string, rest: string)
    requires ']' !in line
    ensures
      var t := "[" + (line + ("]" + rest));
      var end := Find(t, ']', 0);
      end == |line| + 1 && end < |t| && t[1..end] == line && t[end + 1..] == rest
  {
    var t := "[" + (line + ("]" + rest));
    assert t == ("[" + line) + ([']'] + rest);
    assert ']' !in "[" + line;
    FindsFirst("[" + line, ']', rest, 0);
    hide Find;
  }

  lemma TagSplits(t: TagText, rest: string)
    ensures TagSpelled(t) + rest == t.gap + ("[" + (Inside(t) + ("]" + rest)))
  {
    hide Inside;
    Joined(Inside(t), "]", rest);
    Joined("[", Inside(t) + "]", rest);
    Joined(t.gap, "[" + (Inside(t) + "]"), rest);
  }

  lemma BracketRead(text: string, line: string, rest: string, read: map<string, string>)
    requires SkipSpace(text) == "[" + (line + ("]" + rest)) && ']' !in line && ReadTag(line).Ok?
    ensures ReadTags(text, read) == ReadTags(rest, AddTag(read, ReadTag(line).value.0, ReadTag(line).value.1))
  {
    BracketFound(line, rest);
    hide SkipSpace, Find, ReadTag, AddTag;
  }

  lemma TagTaken(t: TagText, rest: string, read: map<string, string>)
    requires IsTag(t)
    ensures ReadTags(TagSpelled(t) + rest, read) == ReadTags(rest, AddTag(read, t.key, t.value))
  {
    TagRead(t);
    NoBracket(t);
    TagSplits(t, rest);
    var text := "[" + (Inside(t) + ("]" + rest));
    SpaceSkipped(t.gap, text);
    SpaceEnds(text);
    hide SkipSpace, ReadTag, ReadTags, AddTag, Inside, TagSpelled;
    BracketRead(t.gap + text, Inside(t), rest, read);
  }

  /** What is kept of tags read one by one. */
  function Kept(read: map<string, string>, tags: seq<TagText>): map<string, string>
    decreases |tags|
  {
    if tags == [] then read else Kept(AddTag(read, tags[0].key, tags[0].value), tags[1..])
  }

  lemma {:induction false} KeptExact(read: map<string, string>, tags: seq<TagText>, key: string)
    ensures key in Kept(read, tags) <==> key in read || FirstValue(tags, key).Some?
    ensures key in Kept(read, tags) ==> Kept(read, tags)[key] == if key in read then read[key] else FirstValue(tags, key).value
    decreases |tags|
  {
    if tags != [] {
      KeptExact(AddTag(read, tags[0].key, tags[0].value), tags[1..], key);
    }
  }

  lemma KeptHolds(tags: seq<TagText>, read: map<string, string>)
    ensures Holds(read, tags) <==> read == Kept(map[], tags)
  {
    forall key
      ensures key in Kept(map[], tags) <==> FirstValue(tags, key).Some?
      ensures key in Kept(map[], tags) ==> Some(Kept(map[], tags)[key]) == FirstValue(tags, key)
    {
      KeptExact(map[], tags, key);
    }
    hide Kept, FirstValue;
    if Holds(read, tags) {
      assert forall key :: key in read <==> key in Kept(map[], tags);
      assert read == Kept(map[], tags);
    }
  }

  lemma {:induction false} SectionRead(tags: seq<TagText>, gap: string, moves: string, read: map<string, string>)
    requires AreTags(tags) && AllSpace(gap) && NoTag(moves)
    ensures ReadTags(Section(tags, gap + moves), read) == Ok((Kept(read, tags), moves))
    decreases |tags|
  {
    if tags == [] {
      SpaceSkipped(gap, moves);
      SpaceEnds(moves);
    } else {
      TagTaken(tags[0], Section(tags[1..], gap + moves), read);
      hide IsTag, TagSpelled, ReadTags, AddTag;
      SectionRead(tags[1..], gap, moves, AddTag(read, tags[0].key, tags[0].value));
    }
  }

  // ----- whatever is read is such a section -----

  lemma {:induction false} SpaceOf(s: string) returns (gap: string)
    ensures AllSpace(gap) && s == gap + SkipSpace(s) && (SkipSpace(s) == "" || !IsSpace(SkipSpace(s)[0]))
  {
    if s != "" && IsSpace(s[0]) {
      var more := SpaceOf(s[1..]);
      gap := [s[0]] + more;
    } else {
      gap := "";
    }
  }

  lemma {:induction false} BlankFound(line: string, start: nat)
    requires start <= |line|
    ensures
      var blank := FindBlank(line, start);
      && (forall i :: start <= i < blank ==> line[i] != ' ' && line[i] != '\t')
      && (blank < |line| ==> line[blank] == ' ' || line[blank] == '\t')
    decreases |line| - start
  {
    if start < |line| && line[start] != ' ' && line[start] != '\t' {
      BlankFound(line, start + 1);
    }
  }

  lemma CutThrice(line: string, a: nat, b: nat, c: nat, q: char)
    requires a <= b < c < |line| && line[b] == q && line[c] == q
    ensures line == line[..a] + (line[a..b] + ([q] + (line[b + 1..c] + ([q] + line[c + 1..]))))
  {
    assert line[c..] == [q] + line[c + 1..];
    assert line[b + 1..] == line[b + 1..c] + line[c..];
    assert line[b..] == [q] + line[b + 1..];
    assert line[a..] == line[a..b] + line[b..];
    assert line == line[..a] + line[a..];
  }

  lemma TagCut(line: string) returns (blank: nat, quote: nat, last: nat)
    requires ReadTag(line).Ok?
    ensures blank < quote < last < |line| && line[quote] == '"' && line[last] == '"'
    ensures ReadTag(line) == Ok((line[..blank], line[quote + 1..last]))
    ensures (forall i :: 0 <= i < blank ==> line[i] != ' ' && line[i] != '\t') && (line[blank] == ' ' || line[blank] == '\t')
    ensures '"' !in line[blank..quote] && forall k :: last < k < |line| ==> line[k] != '"'
  {
    BlankFound(line, 0);
    hide FindBlank;
    blank, last := FindBlank(line, 0), FindLast(line, '"');
    hide FindLast;
    quote := Find(line, '"', blank);
    hide Find;
    assert line[quote] == '"';
  }

  lemma TagDerives(line: string, gap: string) returns (t: TagText)
    requires ReadTag(line).Ok? && ']' !in line && AllSpace(gap)
    ensures IsTag(t) && t.gap == gap && Inside(t) == line && ReadTag(line) == Ok((t.key, t.value))
  {
    var blank, quote, last := TagCut(line);
    hide ReadTag, AllSpace;
    t := TagText(gap, line[..blank], line[blank..quote], line[quote + 1..last], line[last + 1..]);
    CutThrice(line, blank, quote, last, '"');
    assert forall i :: 0 <= i < |t.tail| ==> t.tail[i] == line[last + 1 + i];
    assert t.middle[0] == line[blank];
  }

  lemma SectionOpens(text: string, read: map<string, string>) returns (line: string, rest: string)
    requires ReadTags(text, read).Ok? && SkipSpace(text) != "" && SkipSpace(text)[0] == '['
    ensures ']' !in line && SkipSpace(text) == "[" + (line + ("]" + rest)) && ReadTag(line).Ok? && |rest| < |text|
    ensures ReadTags(text, read) == ReadTags(rest, AddTag(read, ReadTag(line).value.0, ReadTag(line).value.1))
  {
    var t := SkipSpace(text);
    var end := Find(t, ']', 0);
    hide SkipSpace, ReadTag, AddTag, Find;
    assert end < |t| && t[end] == ']';
    line, rest := t[1..end], t[end + 1..];
    assert ']' !in line by {
      assert forall c :: c in line ==> c in t[0..end];
    }
    assert t == "[" + (line + ("]" + rest));
  }

  lemma {:induction false} SectionDerives(text: string, read: map<string, string>) returns (tags: seq<TagText>, gap: string)
    requires ReadTags(text, read).Ok?
    ensures
      var moves := ReadTags(text, read).value.1;
      && AreTags(tags) && AllSpace(gap) && NoTag(moves) && text == Section(tags, gap + moves)
      && ReadTags(text, read).value.0 == Kept(read, tags)
    decreases |text|
  {
    hide ReadTags, SkipSpace, IsTag, TagSpelled, AddTag, Inside, AllSpace, NoTag, ReadTag;
    gap := SpaceOf(text);
    if SkipSpace(text) == "" || SkipSpace(text)[0] != '[' {
      tags := [];
      SectionEnds(text, read);
    } else {
      var line, rest := SectionOpens(text, read);
      var tag := TagDerives(line, gap);
      TagSplits(tag, rest);
      var more;
      more, gap := SectionDerives(rest, AddTag(read, tag.key, tag.value));
      tags := [tag] + more;
      assert tags[1..] == more;
    }
  }

  lemma SectionEnds(text: string, read: map<string, string>)
    requires SkipSpace(text) == "" || (SkipSpace(text)[0] != '[' && !IsSpace(SkipSpace(text)[0]))
    ensures ReadTags(text, read) == Ok((read, SkipSpace(text))) && NoTag(SkipSpace(text))
  {
    hide SkipSpace, IsSpace;
  }

  /** A section is read exactly if it is put together from tags, and says of each key what its first tag says. */
  lemma TagsExact(text: string, read: map<string, string>, moves: string)
    ensures ReadTags(text, map[]) == Ok((read, moves)) <==>
            exists tags, gap :: text == Section(tags, gap + moves) && AreTags(tags) && AllSpace(gap) && NoTag(moves) && Holds(read, tags)
  {
    hide ReadTags, Section, AreTags, AllSpace, NoTag, Holds;
    if ReadTags(text, map[]) == Ok((read, moves)) {
      var tags, gap := SectionDerives(text, map[]);
      KeptHolds(tags, read);
    }
    if tags, gap :| text == Section(tags, gap + moves) && AreTags(tags) && AllSpace(gap) && NoTag(moves) && Holds(read, tags) {
      SectionRead(tags, gap, moves, map[]);
      KeptHolds(tags, read);
    }
  }
}
