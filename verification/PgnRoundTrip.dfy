/** Writing a parsed game canonically and parsing it again gives the same moves, notation, positions
    and identity; the canonical text is a fixed point. */
module PgnRoundTrip {
  import opened Positions
  import opened MoveGen
  import opened MakeMove
  import opened Legality
  import opened Text
  import opened Fen
  import opened San
  import opened Pgn
  import InitialPosition
  import PerftSpec

  // ----- searching -----

  lemma {:induction false} FindIs(text: string, c: char, start: nat, index: nat)
    requires start <= index < |text| && text[index] == c && c !in text[start..index]
    ensures Find(text, c, start) == index
  {
    var found := Find(text, c, start);
    forall k | start <= k < index
      ensures text[k] != c
    {
      assert text[start..index][k - start] == text[k];
    }
    forall k | start <= k < found
      ensures text[k] != c
    {
      assert text[start..found][k - start] == text[k];
    }
  }

  lemma {:induction false} FindLastIs(text: string, c: char, index: nat)
    requires index < |text| && text[index] == c && c !in text[index + 1..]
    ensures FindLast(text, c) == index
  {
    forall k | index < k < |text|
      ensures text[k] != c
    {
      assert text[index + 1..][k - index - 1] == text[k];
    }
  }

  lemma {:induction false} FindBlankIs(text: string, start: nat, index: nat)
    requires start <= index < |text| && (text[index] == ' ' || text[index] == '\t')
    requires ' ' !in text[start..index] && '\t' !in text[start..index]
    ensures FindBlank(text, start) == index
    decreases index - start
  {
    if start < index {
      assert text[start] == text[start..index][0];
      assert text[start + 1..index] == text[start..index][1..];
      FindBlankIs(text, start + 1, index);
    }
  }

  // ----- tags -----

  predicate IsKey(key: string) {
    ' ' !in key && '\t' !in key && '"' !in key && ']' !in key
  }

  lemma KeysAreKeys(i: nat)
    requires i < |KEYS|
    ensures IsKey(KEYS[i])
  {
  }

  lemma TagReads(key: string, value: string)
    requires IsKey(key)
    ensures ReadTag(key + " \"" + value + "\"") == Ok((key, value))
  {
    var line := key + " \"" + value + "\"";
    assert line[..|key|] == key;
    FindBlankIs(line, 0, |key|);
    assert line[|key|..|key| + 1] == " ";
    FindIs(line, '"', |key|, |key| + 1);
    FindLastIs(line, '"', |line| - 1);
    assert line[|key| + 2..|line| - 1] == value;
  }

  /** One written tag reads back as itself. */
  lemma {:induction false} TagLineReads(key: string, value: string, rest: string, tags: map<string, string>)
    requires IsKey(key) && ']' !in value
    ensures ReadTags(TagLine(key, value) + rest, tags) == ReadTags(rest, AddTag(tags, key, value))
  {
    hide ReadTag, FindBlank, FindLast, AddTag;
    var line := key + " \"" + value + "\"";
    var text := TagLine(key, value) + rest;
    assert text == "[" + line + ("]\n" + rest);
    assert text[1..|line| + 1] == line && text[0] == '[' && text[|line| + 1] == ']';
    assert text[..|line| + 1] == "[" + line;
    assert ']' !in text[0..|line| + 1];
    FindIs(text, ']', 0, |line| + 1);
    TagReads(key, value);
    assert text[|line| + 2..] == "\n" + rest;
    assert ReadTags(text, tags) == ReadTags("\n" + rest, AddTag(tags, key, value));
    NewlineSkipped(rest, AddTag(tags, key, value));
  }

  lemma {:induction false} NewlineSkipped(rest: string, tags: map<string, string>)
    ensures ReadTags("\n" + rest, tags) == ReadTags(rest, tags)
  {
    assert ("\n" + rest)[1..] == rest;
  }

  function Kept(tags: map<string, string>, i: nat, found: map<string, string>): map<string, string>
    requires i <= |KEYS|
    decreases |KEYS| - i
  {
    if i == |KEYS| then found
    else Kept(tags, i + 1, if Tag(tags, KEYS[i]) == "" then found else AddTag(found, KEYS[i], Tag(tags, KEYS[i])))
  }

  ghost predicate Closable(tags: map<string, string>) {
    forall key :: key in tags ==> ']' !in tags[key]
  }

  lemma {:induction false} TagLinesRead(tags: map<string, string>, i: nat, rest: string, found: map<string, string>)
    requires i <= |KEYS| && Closable(tags)
    ensures ReadTags(TagLines(tags, i) + rest, found) == ReadTags(rest, Kept(tags, i, found))
    decreases |KEYS| - i
  {
    hide ReadTags, AddTag, TagLine, IsKey;
    if i == |KEYS| {
      assert TagLines(tags, i) + rest == rest;
    } else {
      var value, others := Tag(tags, KEYS[i]), TagLines(tags, i + 1);
      if value == "" {
        assert TagLines(tags, i) == others;
        TagLinesRead(tags, i + 1, rest, found);
      } else {
        KeysAreKeys(i);
        assert TagLines(tags, i) + rest == TagLine(KEYS[i], value) + (others + rest);
        TagLineReads(KEYS[i], value, others + rest, found);
        TagLinesRead(tags, i + 1, rest, AddTag(found, KEYS[i], value));
      }
    }
  }

  /** A mark that tells the canonical keys apart. */
  function KeyMark(key: string): (int, char, char)
    requires key != ""
  {
    (|key|, key[0], key[if |key| > 3 then 3 else 0])
  }

  lemma KeysApart(i: nat, j: nat)
    requires i < j < |KEYS|
    ensures KEYS[i] != KEYS[j]
  {
    var marks := [(4, 'S', 'e'), (4, 'D', 'e'), (7, 'U', 'D'), (7, 'U', 'T'), (5, 'R', 'n'), (5, 'W', 't'),
                  (5, 'B', 'c'), (8, 'W', 't'), (8, 'B', 'c'), (6, 'R', 'u'), (11, 'T', 'e'), (3, 'E', 'E'),
                  (11, 'T', 'm'), (5, 'S', 'U'), (3, 'F', 'F')];
    assert forall k :: 0 <= k < |KEYS| ==> KEYS[k] != "" && KeyMark(KEYS[k]) == marks[k];
    assert marks[i] != marks[j];
  }

  lemma {:induction false} KeptTag(tags: map<string, string>, i: nat, found: map<string, string>, j: nat)
    requires i <= |KEYS| && j < |KEYS|
    requires forall k :: i <= k < |KEYS| ==> KEYS[k] !in found
    ensures Tag(Kept(tags, i, found), KEYS[j]) == if j < i then Tag(found, KEYS[j]) else Tag(tags, KEYS[j])
    decreases |KEYS| - i
  {
    if i < |KEYS| {
      var more := if Tag(tags, KEYS[i]) == "" then found else AddTag(found, KEYS[i], Tag(tags, KEYS[i]));
      forall k | i + 1 <= k < |KEYS|
        ensures KEYS[k] !in more
      {
        KeysApart(i, k);
      }
      if j < i {
        KeysApart(j, i);
      }
      KeptTag(tags, i + 1, more, j);
    }
  }

  lemma {:induction false} KeptAll(tags: map<string, string>)
    ensures forall j :: 0 <= j < |KEYS| ==> Tag(Kept(tags, 0, map[]), KEYS[j]) == Tag(tags, KEYS[j])
  {
    forall j | 0 <= j < |KEYS|
      ensures Tag(Kept(tags, 0, map[]), KEYS[j]) == Tag(tags, KEYS[j])
    {
      KeptTag(tags, 0, map[], j);
    }
  }

  /** Reading a written tag section gives every canonical key its value back, and stops where the moves
      start. */
  lemma {:induction false} KeptTags(tags: map<string, string>, moves: string)
    requires Closable(tags) && (moves == "" || (!IsSpace(moves[0]) && moves[0] != '['))
    ensures
      var head := ReadTags(TagLines(tags, 0) + ("\n" + moves), map[]);
      head.Ok? && head.value.1 == moves && forall j :: 0 <= j < |KEYS| ==> Tag(head.value.0, KEYS[j]) == Tag(tags, KEYS[j])
  {
    hide TagLines, Kept, Closable;
    var kept := Kept(tags, 0, map[]);
    TagLinesRead(tags, 0, "\n" + moves, map[]);
    NewlineSkipped(moves, kept);
    assert ReadTags(moves, kept) == Ok((kept, moves));
    KeptAll(tags);
    hide ReadTags;
  }

  lemma {:induction false} ParsedTagsClosable(text: string, tags: map<string, string>)
    requires Closable(tags)
    ensures ReadTags(text, tags).Ok? ==> Closable(ReadTags(text, tags).value.0)
    decreases |text|
  {
    hide FindBlank, FindLast, SkipSpace;
    var t := SkipSpace(text);
    if t != "" && t[0] == '[' {
      var end := Find(t, ']', 0);
      if end < |t| {
        var tag := ReadTag(t[1..end]);
        if tag.Ok? {
          assert ']' !in t[0..end];
          assert ']' !in tag.value.1;
          ParsedTagsClosable(t[end + 1..], AddTag(tags, tag.value.0, tag.value.1));
        }
      }
    }
  }

  // ----- the main line passes the comment filter unchanged -----

  predicate Mainline(text: string) {
    forall c :: c in text ==> c != ';' && c != '{' && c != '(' && c != ')'
  }

  lemma {:induction false} StripKeeps(text: string)
    requires Mainline(text)
    ensures Strip(text, 0, false, false) == Ok(text)
  {
    if text != "" {
      forall c | c in text[1..]
        ensures c in text
      {
      }
      assert text[0] in text;
      StripKeeps(text[1..]);
      assert [text[0]] + text[1..] == text;
    }
  }

  // ----- tokens -----

  lemma AlphabetMainline(c: char)
    requires c in ALPHABET || IsMark(c)
    ensures c != ';' && c != '{' && c != '(' && c != ')' && c != '.' && !IsSpace(c)
  {
    if c in ALPHABET {
      AlphabetPlain(c);
    }
  }

  lemma Marks(next: Position)
    ensures CheckMark(next) in {"", "+", "#"}
  {
    hide InCheck, PerftSpec.LegalMovesOf;
  }

  lemma MarkedMainline(body: string, mark: string)
    requires Plain(body) && mark in {"", "+", "#"}
    ensures NoSpace(body + mark) && Mainline(body + mark) && '.' !in body + mark
  {
    forall c | c in body + mark
      ensures c != ';' && c != '{' && c != '(' && c != ')' && c != '.' && !IsSpace(c)
    {
      assert c in body || c in mark;
      AlphabetMainline(c);
    }
  }

  /** The notation of a legal move is one plain token that starts with a letter. */
  lemma SanToken(p: Position, m: Move)
    requires IsLegal(p, m)
    ensures ToSan(p, m) != "" && ToSan(p, m)[0] >= 'A'
    ensures NoSpace(ToSan(p, m)) && Mainline(ToSan(p, m)) && '.' !in ToSan(p, m)
  {
    hide Body, CheckMark, IsPseudoLegal, InCheck, Play, Plain, SquaresAfter, NoSpace, Mainline;
    FirstCharacter(p, m);
    BodyPlain(p, m);
    Marks(Play(p, m));
    MarkedMainline(Body(p, m), CheckMark(Play(p, m)));
  }

  lemma MoveNumberHasStop(token: string)
    ensures IsMoveNumber(token) ==> '.' in token
  {
    if IsMoveNumber(token) {
      assert token[|token| - 1] == '.';
    }
  }

  lemma StopFreeToken(token: string)
    requires token != "" && token[0] != '$' && '.' !in token
    ensures !IsSkipped(token) && Unnumbered(token) == token
  {
    MoveNumberHasStop(token);
    hide IsMoveNumber;
    assert FindLast(token, '.') == |token| by {
      forall k | 0 <= k < |token|
        ensures token[k] != '.'
      {
        assert token[k] in token;
      }
    }
  }

  lemma LetterToken(token: string)
    requires token != "" && token[0] >= 'A' && '.' !in token
    ensures !IsSkipped(token) && Unnumbered(token) == token && !IsResult(token)
  {
    StopFreeToken(token);
  }

  lemma {:induction false} DigitsRun(digits: string, rest: string)
    requires forall c :: c in digits ==> IsDigit(c)
    requires rest != "" && !IsDigit(rest[0])
    ensures DigitRun(digits + rest) == |digits|
  {
    if digits == "" {
      assert digits + rest == rest;
    } else {
      assert (digits + rest)[1..] == digits[1..] + rest;
      DigitsRun(digits[1..], rest);
    }
  }

  lemma {:induction false} NumberToken(number: nat, dots: string)
    requires dots == "." || dots == "..."
    ensures IsSkipped(NatText(number) + dots) && NoSpace(NatText(number) + dots) && Mainline(NatText(number) + dots)
  {
    DigitsRun(NatText(number), dots);
    NatTextIsWord(number);
  }

  lemma ResultIsToken(result: string)
    requires IsResult(result)
    ensures NoSpace(result) && result != "" && Mainline(result) && !IsSkipped(result) && Unnumbered(result) == result
  {
    hide IsSkipped, Unnumbered;
    StopFreeToken(result);
  }

  // ----- replaying -----

  /** A ply that records a legal move of the position. */
  ghost predicate IsRecord(p: Position, ply: Ply) {
    IsLegal(p, ply.move) && ply == Ply(ply.move, ToSan(p, ply.move), ToFen(p), ToFen(Play(p, ply.move)))
  }

  ghost function After(p: Position, ply: Ply): Position
    requires IsRecord(p, ply)
  {
    Play(p, ply.move)
  }

  /** The plies record a legal run from the position. */
  ghost predicate Records(p: Position, plies: seq<Ply>)
    decreases |plies|
  {
    plies == [] || (IsRecord(p, plies[0]) && Records(After(p, plies[0]), plies[1..]))
  }

  lemma ReadMoveLegal(p: Position, token: string)
    requires ReadMove(p, token).Ok?
    ensures
      var step := ReadMove(p, token).value;
      IsRecord(p, step.0) && step.1 == After(p, step.0)
  {
    hide IsPseudoLegal, InCheck, ToSan, ToFen, Normalize, ParseSan, SquaresAfter;
    FoundPlayable(p, token);
    ParseSanExact(p, token, ParseSan(p, token).value);
    var step := ReadMove(p, token).value;
    assert step.0.move == ParseSan(p, token).value;
    assert IsLegal(p, step.0.move);
    assert step.0.san == ToSan(p, step.0.move);
    assert step.1 == Play(p, step.0.move);
    assert step.0.before == ToFen(p);
    assert step.0.after == ToFen(step.1);
  }

  lemma {:induction false} PlayedRecords(p: Position, tokens: seq<string>)
    ensures PlayTokens(p, tokens).Ok? ==> Records(p, PlayTokens(p, tokens).value)
    decreases |tokens|
  {
    hide IsRecord, After, ReadMove, IsSkipped, IsResult, Unnumbered;
    if tokens != [] {
      if IsSkipped(tokens[0]) {
        PlayedRecords(p, tokens[1..]);
      } else if !IsResult(Unnumbered(tokens[0])) {
        var step := ReadMove(p, Unnumbered(tokens[0]));
        if step.Ok? {
          ReadMoveLegal(p, Unnumbered(tokens[0]));
          PlayedRecords(step.value.1, tokens[1..]);
          var plies := PlayTokens(p, tokens);
          if plies.Ok? {
            assert plies.value[1..] == PlayTokens(step.value.1, tokens[1..]).value;
          }
        }
      }
    }
  }

  lemma RereadMove(p: Position, ply: Ply)
    requires IsRecord(p, ply)
    ensures ReadMove(p, ply.san) == Ok((ply, After(p, ply)))
  {
    hide IsPseudoLegal, InCheck, ToSan, ToFen, ParseSan;
    SanRoundTrip(p, ply.move);
  }

  lemma {:induction false} SkipToken(p: Position, token: string, rest: seq<string>)
    requires IsSkipped(token)
    ensures PlayTokens(p, [token] + rest) == PlayTokens(p, rest)
  {
    assert ([token] + rest)[1..] == rest;
  }

  lemma {:induction false} MoveToken(p: Position, token: string, rest: seq<string>)
    requires !IsSkipped(token) && Unnumbered(token) == token && !IsResult(token) && ReadMove(p, token).Ok?
    ensures
      var step := ReadMove(p, token).value;
      PlayTokens(p, [token] + rest) ==
        match PlayTokens(step.1, rest)
        case Ok(plies) => Ok([step.0] + plies)
        case Err(fault) => Err(fault)
  {
    hide ReadMove, IsSkipped, Unnumbered, IsResult;
    assert ([token] + rest)[1..] == rest;
  }

  lemma {:induction false} NumberSkipped(p: Position, side: Color, number: nat, first: bool, rest: string)
    ensures PlayTokens(p, Words(MoveNumberText(side, number, first) + rest)) == PlayTokens(p, Words(rest))
    ensures Mainline(MoveNumberText(side, number, first))
  {
    hide Words, PlayTokens, IsSkipped, NatText;
    if side.White? || first {
      var token := NatText(number) + if side.White? then "." else "...";
      NumberToken(number, if side.White? then "." else "...");
      assert MoveNumberText(side, number, first) == token + " ";
      WordThenSpace(token, ' ', rest);
      SkipToken(p, token, Words(rest));
    } else {
      assert "" + rest == rest;
    }
  }

  lemma RecordToken(p: Position, ply: Ply)
    requires IsRecord(p, ply)
    ensures !IsSkipped(ply.san) && Unnumbered(ply.san) == ply.san && !IsResult(ply.san)
    ensures ply.san != "" && NoSpace(ply.san) && Mainline(ply.san + " ")
  {
    SpaceMainline();
    hide IsLegal, ToSan, ToFen, IsSkipped, IsResult, Unnumbered, Mainline, NoSpace, Play;
    SanToken(p, ply.move);
    LetterToken(ply.san);
    MainlineConcat(ply.san, " ");
  }

  lemma {:induction false} MoveReplays(p: Position, ply: Ply, rest: string)
    requires IsRecord(p, ply)
    ensures
      PlayTokens(p, Words(ply.san + " " + rest)) ==
        match PlayTokens(After(p, ply), Words(rest))
        case Ok(plies) => Ok([ply] + plies)
        case Err(fault) => Err(fault)
    ensures Mainline(ply.san + " ")
  {
    hide IsRecord, After, ReadMove, IsSkipped, IsResult, Unnumbered, Words, PlayTokens, NoSpace, Mainline;
    RecordToken(p, ply);
    RereadMove(p, ply);
    WordThenSpace(ply.san, ' ', rest);
    MoveToken(p, ply.san, Words(rest));
  }

  lemma {:induction false} ResultStops(p: Position, result: string)
    requires IsResult(result)
    ensures PlayTokens(p, Words(result)) == Ok([])
  {
    ResultIsToken(result);
    LastWord(result);
    hide IsSkipped, IsResult, Unnumbered, Words;
  }

  /** The words of the written moves, played, are the recorded plies. */
  lemma {:induction false} MovesReplay(p: Position, plies: seq<Ply>, number: nat, first: bool, result: string)
    requires Records(p, plies) && IsResult(result)
    ensures PlayTokens(p, Words(MoveText(plies, p.side, number, first) + result)) == Ok(plies)
    ensures Mainline(MoveText(plies, p.side, number, first))
    decreases |plies|
  {
    hide IsRecord, After, ReadMove, IsResult, Words, PlayTokens, MoveNumberText, Mainline;
    if plies == [] {
      assert "" + result == result;
      ResultStops(p, result);
      assert Mainline("") by {
        SpaceMainline();
      }
    } else {
      var ply, heading := plies[0], MoveNumberText(p.side, number, first);
      var next := After(p, ply);
      NextSide(p, ply);
      var others := MoveText(plies[1..], next.side, NextNumber(p.side, number), false);
      var tail := ply.san + " " + (others + result);
      assert MoveText(plies, p.side, number, first) == heading + (ply.san + " " + others);
      assert MoveText(plies, p.side, number, first) + result == heading + tail;
      NumberSkipped(p, p.side, number, first, tail);
      MoveReplays(p, ply, others + result);
      MovesReplay(next, plies[1..], NextNumber(p.side, number), false, result);
      assert [ply] + plies[1..] == plies;
      MainlineConcat(ply.san + " ", others);
      MainlineConcat(heading, ply.san + " " + others);
    }
  }

  lemma SpaceMainline()
    ensures Mainline(" ") && Mainline("")
  {
  }

  lemma NextSide(p: Position, ply: Ply)
    requires IsRecord(p, ply)
    ensures After(p, ply).side == p.side.Opposite()
  {
  }

  lemma MainlineConcat(a: string, b: string)
    requires Mainline(a) && Mainline(b)
    ensures Mainline(a + b)
  {
  }

  /** Written moves start with a digit. */
  lemma {:induction false} MovesStart(plies: seq<Ply>, side: Color, number: nat, rest: string)
    requires plies != []
    ensures
      var text := MoveText(plies, side, number, true) + rest;
      text != "" && IsDigit(text[0]) && SkipSpace(text) == text
  {
  }

  // ----- the round trip -----

  predicate ResultWritable(tags: map<string, string>) {
    Tag(tags, "Result") == "" || IsResult(Tag(tags, "Result"))
  }

  lemma ParsedStart(text: string)
    requires ParsePgn(text).Ok?
    ensures StartOf(ParsePgn(text).value.tags).Ok?
    ensures Records(StartOf(ParsePgn(text).value.tags).value, ParsePgn(text).value.plies)
    ensures ParsePgn(text).value.plies != [] && Closable(ParsePgn(text).value.tags)
    ensures ParsePgn(text).value.identity == Identity(ParsePgn(text).value.tags, ParsePgn(text).value.plies)
  {
    hide ReadTags, StartOf, Strip, PlayTokens, Identity, Records, Words;
    var head := ReadTags(text, map[]).value;
    ParsedTagsClosable(text, map[]);
    PlayedRecords(StartOf(head.0).value, Words(Strip(head.1, 0, false, false).value));
  }

  lemma StartReads(tags: map<string, string>)
    requires StartOf(tags).Ok?
    ensures Writable(StartOf(tags).value)
  {
    hide FromFen, KingSquare, InitialPosition.HomeSquares, PositionKey;
    if Tag(tags, "SetUp") == "1" {
      ParsedWritable(Tag(tags, "FEN"));
    } else {
      InitialPosition.InitialFromText();
      ParsedWritable(InitialPosition.TEXT);
    }
  }

  lemma {:induction false} TagsAgree(a: map<string, string>, b: map<string, string>, i: nat)
    requires i <= |KEYS| && forall j :: 0 <= j < |KEYS| ==> Tag(a, KEYS[j]) == Tag(b, KEYS[j])
    ensures TagLines(a, i) == TagLines(b, i)
    decreases |KEYS| - i
  {
    if i < |KEYS| {
      TagsAgree(a, b, i + 1);
    }
  }

  ghost predicate AgreeOn(a: map<string, string>, b: map<string, string>, key: string) {
    Tag(a, key) == Tag(b, key)
  }

  lemma NamedTagsAgree(a: map<string, string>, b: map<string, string>)
    requires forall j :: 0 <= j < |KEYS| ==> Tag(a, KEYS[j]) == Tag(b, KEYS[j])
    ensures AgreeOn(a, b, "Site") && AgreeOn(a, b, "Date") && AgreeOn(a, b, "Round") && AgreeOn(a, b, "White")
    ensures AgreeOn(a, b, "Black") && AgreeOn(a, b, "Result") && AgreeOn(a, b, "SetUp") && AgreeOn(a, b, "FEN")
  {
    hide Tag;
    assert KEYS[0] == "Site" && KEYS[1] == "Date" && KEYS[4] == "Round" && KEYS[5] == "White";
    assert KEYS[6] == "Black" && KEYS[9] == "Result" && KEYS[13] == "SetUp" && KEYS[14] == "FEN";
  }

  lemma TagsDecide(a: map<string, string>, b: map<string, string>, plies: seq<Ply>)
    requires forall j :: 0 <= j < |KEYS| ==> Tag(a, KEYS[j]) == Tag(b, KEYS[j])
    ensures StartOf(a) == StartOf(b) && Identity(a, plies) == Identity(b, plies) && ResultText(a) == ResultText(b)
  {
    hide Tag, FromFen, Fnv1a, HexText, UciTexts, InitialPosition.Initial;
    NamedTagsAgree(a, b);
  }

  function Written(start: Position, tags: map<string, string>, plies: seq<Ply>): string {
    TagLines(tags, 0) + ("\n" + (MoveText(plies, start.side, start.fullmove, true) + ResultText(tags)))
  }

  /** The text written for a run from a start position parses to the same plies. */
  lemma {:induction false} WrittenParses(start: Position, tags: map<string, string>, plies: seq<Ply>)
    requires StartOf(tags) == Ok(start) && Records(start, plies) && plies != []
    requires Closable(tags) && ResultWritable(tags)
    ensures ParsePgn(Written(start, tags, plies)) == Ok(Game(Kept(tags, 0, map[]), plies, Identity(tags, plies)))
  {
    hide StartOf, Identity, Records, Words, MoveText, Closable, TagLines, Kept, PlayTokens, Strip, ResultText;
    var kept := Kept(tags, 0, map[]);
    var moves := MoveText(plies, start.side, start.fullmove, true) + ResultText(tags);
    ResultWritten(tags);
    TagLinesRead(tags, 0, "\n" + moves, map[]);
    NewlineSkipped(moves, kept);
    MovesStart(plies, start.side, start.fullmove, ResultText(tags));
    assert ReadTags(moves, kept) == Ok((kept, moves));
    KeptAll(tags);
    TagsDecide(kept, tags, plies);
    MovesReplay(start, plies, start.fullmove, true, ResultText(tags));
    MainlineConcat(MoveText(plies, start.side, start.fullmove, true), ResultText(tags));
    StripKeeps(moves);
    hide ReadTags;
  }

  lemma ResultWritten(tags: map<string, string>)
    requires ResultWritable(tags)
    ensures IsResult(ResultText(tags)) && Mainline(ResultText(tags))
  {
    ResultIsToken(ResultText(tags));
  }

  lemma {:induction false} CanonicalWritten(start: Position, game: Game)
    requires Writable(start) && Records(start, game.plies) && game.plies != []
    ensures CanonicalPgn(game) == Ok(Written(start, game.tags, game.plies))
  {
    hide Writable, FromFen, ToFen, TagLines, MoveText, ResultText, PositionKey, IsLegal;
    FenRoundTrip(start);
    assert game.plies[0].before == ToFen(start);
  }

  /** Any parsed game, written canonically and parsed again, has the same plies (moves, notation and
      positions before and after) and identity, and its canonical text is unchanged. */
  lemma ParsedGameRoundTrip(text: string)
    requires ParsePgn(text).Ok? && ResultWritable(ParsePgn(text).value.tags)
    ensures
      var game := ParsePgn(text).value;
      && game.plies != []
      && CanonicalPgn(game).Ok?
      && ParsePgn(CanonicalPgn(game).value).Ok?
      && var again := ParsePgn(CanonicalPgn(game).value).value;
         && again.plies == game.plies && again.identity == game.identity
         && CanonicalPgn(again) == CanonicalPgn(game)
  {
    hide ParsePgn, CanonicalPgn, Identity, Writable, Records, Kept, Closable, StartOf, ResultWritable, TagLines,
         MoveText, ResultText;
    var game := ParsePgn(text).value;
    ParsedStart(text);
    var start := StartOf(game.tags).value;
    StartReads(game.tags);
    CanonicalWritten(start, game);
    WrittenParses(start, game.tags, game.plies);
    var kept := Kept(game.tags, 0, map[]);
    KeptAll(game.tags);
    TagsAgree(kept, game.tags, 0);
    TagsDecide(kept, game.tags, game.plies);
    CanonicalWritten(start, Game(kept, game.plies, game.identity));
  }
}
