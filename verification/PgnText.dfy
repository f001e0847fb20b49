/** Reading and writing games with the program's loops: character flags, tag offsets, a token loop that
    plays moves on a board. */
module PgnText {
  import opened Positions
  import opened MakeMove
  import opened Legality
  import opened Boards
  import opened PerftSpec
  import opened Text
  import opened Fen
  import opened FenText
  import opened San
  import opened SanText
  import opened Pgn
  import opened PgnRoundTrip
  import InitialPosition
  import MoveGen

  // ----- comments and variations -----

  lemma {:induction false} StripStep(text: string, i: nat, depth: nat, brace: bool, line: bool)
    requires i < |text|
    ensures
      var c := text[i];
      Strip(text[i..], depth, brace, line) ==
        if line then
          if c == '\n' then Prepend(" ", Strip(text[i + 1..], depth, brace, false)) else Strip(text[i + 1..], depth, brace, true)
        else if brace then Strip(text[i + 1..], depth, c != '}', false)
        else if c == ';' && depth == 0 then Strip(text[i + 1..], depth, false, true)
        else if c == '{' && depth == 0 then Strip(text[i + 1..], depth, true, false)
        else if c == '(' then Strip(text[i + 1..], depth + 1, false, false)
        else if c == ')' then
          if depth == 0 then Err(UnbalancedVariation) else Strip(text[i + 1..], depth - 1, false, false)
        else if depth == 0 then Prepend([c], Strip(text[i + 1..], depth, false, false))
        else Strip(text[i + 1..], depth, false, false)
  {
    assert text[i..][1..] == text[i + 1..];
  }

  lemma PrependTwice(a: string, b: string, stripped: Parsed<string>)
    ensures Prepend(a, Prepend(b, stripped)) == Prepend(a + b, stripped)
  {
    if stripped.Ok? {
      assert a + (b + stripped.value) == a + b + stripped.value;
    }
  }

  lemma {:induction false} StripEnd(text: string, depth: nat, brace: bool, line: bool, output: string)
    ensures Prepend(output, Strip(text[|text|..], depth, brace, line)) ==
            if brace || depth != 0 then Err(Unterminated) else Ok(output)
  {
    assert text[|text|..] == "" && output + "" == output;
  }

  method StripNonMainline(input: string) returns (stripped: Parsed<string>)
    ensures stripped == Strip(input, 0, false, false)
  {
    hide Strip, Prepend;
    var output, depth, brace, line := "", 0, false, false;
    assert input[0..] == input;
    PrependNothing(Strip(input, 0, false, false));
    for i := 0 to |input|
      invariant 0 <= depth
      invariant Prepend(output, Strip(input[i..], depth, brace, line)) == Strip(input, 0, false, false)
    {
      var c := input[i];
      StripStep(input, i, depth, brace, line);
      ghost var rest := Strip(input[i + 1..], depth, brace, false);
      PrependTwice(output, " ", rest);
      PrependTwice(output, [c], rest);
      if line {
        if c == '\n' {
          line := false;
          output := output + " ";
        }
      } else if brace {
        if c == '}' {
          brace := false;
        }
      } else if c == ';' && depth == 0 {
        line := true;
      } else if c == '{' && depth == 0 {
        brace := true;
      } else if c == '(' {
        depth := depth + 1;
      } else if c == ')' {
        if depth == 0 {
          PrependFault(output, UnbalancedVariation);
          return Err(UnbalancedVariation);
        }
        depth := depth - 1;
      } else if depth == 0 {
        output := output + [c];
      }
    }
    StripEnd(input, depth, brace, line, output);
    return if brace || depth != 0 then Err(Unterminated) else Ok(output);
  }

  lemma PrependNothing(stripped: Parsed<string>)
    ensures Prepend("", stripped) == stripped
  {
    if stripped.Ok? {
      assert "" + stripped.value == stripped.value;
    }
  }

  lemma PrependFault(output: string, fault: Fault)
    ensures Prepend(output, Err(fault)) == Err(fault)
  {
  }

  // ----- tags -----

  lemma SkipStep(text: string, i: nat)
    requires i <= |text|
    ensures SkipSpace(text[i..]) == if i < |text| && IsSpace(text[i]) then SkipSpace(text[i + 1..]) else text[i..]
  {
    if i < |text| {
      assert text[i..][1..] == text[i + 1..];
    }
  }

  method SkipBlanks(pgn: string, start: nat) returns (offset: nat)
    requires start <= |pgn|
    ensures start <= offset <= |pgn| && pgn[offset..] == SkipSpace(pgn[start..])
  {
    hide SkipSpace, IsSpace;
    offset := start;
    while offset < |pgn| && IsSpace(pgn[offset])
      invariant start <= offset <= |pgn|
      invariant SkipSpace(pgn[offset..]) == SkipSpace(pgn[start..])
    {
      SkipStep(pgn, offset);
      offset := offset + 1;
    }
    SkipStep(pgn, offset);
  }

  lemma {:induction false} FindShifted(text: string, c: char, offset: nat)
    requires offset <= |text|
    ensures Find(text, c, offset) == offset + Find(text[offset..], c, 0)
  {
    var found := Find(text[offset..], c, 0);
    forall k | offset <= k < offset + found
      ensures text[k] != c
    {
      assert text[offset..][0..found][k - offset] == text[k];
    }
    if found < |text| - offset {
      FindIs(text, c, offset, offset + found);
    }
  }

  /** The tag section: the tags with the first value of each key, and where it ends. */
  method ReadTagSection(pgn: string) returns (fault: Option<Fault>, tags: map<string, string>, offset: nat)
    ensures offset <= |pgn|
    ensures ReadTags(pgn, map[]) == if fault.None? then Ok((tags, pgn[offset..])) else Err(fault.value)
  {
    hide SkipSpace, Find, ReadTag;
    tags, offset := map[], 0;
    assert pgn[0..] == pgn;
    while offset < |pgn|
      invariant offset <= |pgn|
      invariant ReadTags(pgn[offset..], tags) == ReadTags(pgn, map[])
      decreases |pgn| - offset
    {
      ghost var start := offset;
      offset := SkipBlanks(pgn, offset);
      if offset >= |pgn| || pgn[offset] != '[' {
        return None, tags, offset;
      }
      var end := Find(pgn, ']', offset);
      FindShifted(pgn, ']', offset);
      if end == |pgn| {
        return Some(UnterminatedTag), tags, offset;
      }
      var tag := ReadTag(pgn[offset + 1..end]);
      assert pgn[offset..][1..end - offset] == pgn[offset + 1..end];
      if tag.Err? {
        return Some(tag.fault), tags, offset;
      }
      assert pgn[offset..][end - offset + 1..] == pgn[end + 1..];
      tags := AddTag(tags, tag.value.0, tag.value.1);
      offset := end + 1;
    }
    NoTagsLeft(tags);
    assert pgn[offset..] == "";
    return None, tags, offset;
  }

  lemma {:induction false} NoTagsLeft(tags: map<string, string>)
    ensures ReadTags("", tags) == Ok((tags, ""))
  {
  }

  // ----- playing the main line on a board -----

  lemma {:induction false} TokensStep(p: Position, tokens: seq<string>, i: nat)
    requires i <= |tokens|
    ensures
      PlayTokens(p, tokens[i..]) ==
        if i == |tokens| then Ok([])
        else if IsSkipped(tokens[i]) then PlayTokens(p, tokens[i + 1..])
        else if IsResult(Unnumbered(tokens[i])) then Ok([])
        else
          match ReadMove(p, Unnumbered(tokens[i]))
          case Err(fault) => Err(fault)
          case Ok(step) =>
            (match PlayTokens(step.1, tokens[i + 1..])
             case Ok(plies) => Ok([step.0] + plies)
             case Err(fault) => Err(fault))
  {
    hide ReadMove, IsSkipped, Unnumbered, IsResult;
    if i < |tokens| {
      assert tokens[i..][1..] == tokens[i + 1..];
    }
  }

  /** One move token played on the board. */
  method PlayToken(board: Board, token: string) returns (ply: Parsed<Ply>)
    requires board.Valid() && WellFormed(board.Pos())
    modifies board, board.squares
    ensures board.Valid() && WellFormed(board.Pos())
    ensures
      ReadMove(old(board.Pos()), token) ==
        match ply
        case Ok(played) => Ok((played, board.Pos()))
        case Err(fault) => Err(fault)
  {
    hide IsLegal, WellFormed, ToSan, ToFen, ParseSan, Play;
    ghost var p := board.Pos();
    WellFormedRestorable(p);
    var before := WriteFen(board);
    var found := Parse(board, token);
    FoundPlayable(p, token);
    if found.None? {
      return Err(IllegalMove);
    }
    var move := found.value;
    ParseSanExact(p, token, move);
    LegalOnBoard(p, move);
    assert board.squares[..] == p.squares;
    var san := Write(board, move);
    LegalMoveKeepsWellFormed(p, move);
    var _ := board.MakeMove(move);
    var after := WriteFen(board);
    return Ok(Ply(move, san.value, before, after));
  }

  lemma WellFormedRestorable(p: Position)
    requires WellFormed(p)
    ensures Restorable(p)
  {
  }

  lemma LegalOnBoard(p: Position, m: Move)
    requires IsLegal(p, m)
    ensures m.from < 64 && m.to < 64 && p.squares[m.from].Man? && MoveGen.IsPseudoLegal(p, m) && Playable(p, m)
  {
    hide MoveGen.IsPseudoLegal, InCheck;
  }

  /** The main line played on the board until a result, the end, or a fault. */
  method PlayLine(board: Board, tokens: seq<string>) returns (plies: Parsed<seq<Ply>>)
    requires board.Valid() && WellFormed(board.Pos())
    modifies board, board.squares
    ensures plies == PlayTokens(old(board.Pos()), tokens)
  {
    hide WellFormed, ReadMove, PlayTokens, IsSkipped, IsResult, Unnumbered;
    ghost var goal := PlayTokens(board.Pos(), tokens);
    var played: seq<Ply> := [];
    assert tokens[0..] == tokens;
    PrependNoPlies(goal);
    for i := 0 to |tokens|
      invariant board.Valid() && WellFormed(board.Pos())
      invariant PrependPlies(played, PlayTokens(board.Pos(), tokens[i..])) == goal
    {
      ghost var p := board.Pos();
      TokensStep(p, tokens, i);
      if !IsSkipped(tokens[i]) {
        var token := Unnumbered(tokens[i]);
        if IsResult(token) {
          assert played + [] == played;
          return Ok(played);
        }
        var ply := PlayToken(board, token);
        if ply.Err? {
          return Err(ply.fault);
        }
        PrependPly(played, ply.value, PlayTokens(board.Pos(), tokens[i + 1..]));
        played := played + [ply.value];
      }
    }
    TokensStep(board.Pos(), tokens, |tokens|);
    assert played + [] == played;
    return Ok(played);
  }

  function PrependPlies(played: seq<Ply>, plies: Parsed<seq<Ply>>): Parsed<seq<Ply>> {
    match plies
    case Ok(rest) => Ok(played + rest)
    case Err(fault) => Err(fault)
  }

  lemma PrependNoPlies(plies: Parsed<seq<Ply>>)
    ensures PrependPlies([], plies) == plies
  {
    if plies.Ok? {
      assert [] + plies.value == plies.value;
    }
  }

  lemma PrependPly(played: seq<Ply>, ply: Ply, plies: Parsed<seq<Ply>>)
    ensures plies.Ok? ==> PrependPlies(played, Ok([ply] + plies.value)) == PrependPlies(played + [ply], plies)
  {
    if plies.Ok? {
      assert played + ([ply] + plies.value) == played + [ply] + plies.value;
    }
  }

  /** A game read from its text; the start position must be well formed. */
  method ReadPgn(pgn: string) returns (game: Parsed<Game>)
    requires StartWellFormed(pgn)
    ensures game == ParsePgn(pgn)
  {
    hide ReadTags, StartOf, Strip, PlayTokens, Words, Identity, WellFormed;
    var fault, tags, offset := ReadTagSection(pgn);
    if fault.Some? {
      return Err(fault.value);
    }
    var startFault, board := ReadStart(tags);
    if startFault.Some? {
      return Err(startFault.value);
    }
    var line := StripNonMainline(pgn[offset..]);
    if line.Err? {
      return Err(line.fault);
    }
    var tokens := ReadWords(line.value);
    var plies := PlayLine(board, tokens);
    if plies.Err? {
      return Err(plies.fault);
    }
    if plies.value == [] {
      return Err(NoMoves);
    }
    return Ok(Game(tags, plies.value, Identity(tags, plies.value)));
  }

  ghost predicate StartWellFormed(pgn: string) {
    var head := ReadTags(pgn, map[]);
    head.Ok? && StartOf(head.value.0).Ok? ==> WellFormed(StartOf(head.value.0).value)
  }

  method ReadStart(tags: map<string, string>) returns (fault: Option<Fault>, board: Board)
    ensures fresh(board) && fresh(board.squares) && board.Valid()
    ensures StartOf(tags) == if fault.None? then Ok(board.Pos()) else Err(fault.value)
  {
    hide FromFen;
    if Tag(tags, "SetUp") == "1" {
      fault, board := ReadFen(Tag(tags, "FEN"));
    } else {
      InitialPosition.InitialFromText();
      hide InitialPosition.Initial;
      fault, board := ReadFen(InitialPosition.TEXT);
    }
  }

  // ----- writing -----

  lemma TagLinesStep(tags: map<string, string>, i: nat, output: string)
    requires i < |KEYS|
    ensures output + TagLines(tags, i) ==
            output + (if Tag(tags, KEYS[i]) == "" then "" else TagLine(KEYS[i], Tag(tags, KEYS[i]))) + TagLines(tags, i + 1)
  {
    hide Tag, TagLine;
  }

  method WriteTags(tags: map<string, string>) returns (output: string)
    ensures output == TagLines(tags, 0)
  {
    hide Tag, TagLine, TagLines;
    output := "";
    assert "" + TagLines(tags, 0) == TagLines(tags, 0);
    for i := 0 to |KEYS|
      invariant output + TagLines(tags, i) == TagLines(tags, 0)
    {
      var value := Tag(tags, KEYS[i]);
      TagLinesStep(tags, i, output);
      if value != "" {
        output := output + TagLine(KEYS[i], value);
      } else {
        assert output + "" == output;
      }
    }
    NoTagLines(tags);
    assert output + "" == output;
  }

  lemma {:induction false} NoTagLines(tags: map<string, string>)
    ensures TagLines(tags, |KEYS|) == ""
  {
  }

  lemma {:induction false} MoveTextStep(plies: seq<Ply>, i: nat, side: Color, number: nat)
    requires i < |plies|
    ensures MoveText(plies[i..], side, number, i == 0) ==
            MoveNumberText(side, number, i == 0) + (plies[i].san + " " +
            MoveText(plies[i + 1..], side.Opposite(), NextNumber(side, number), i + 1 == 0))
  {
    assert plies[i..][1..] == plies[i + 1..];
  }

  method WriteMoves(plies: seq<Ply>, startSide: Color, startNumber: nat, text: string) returns (output: string)
    ensures output == text + MoveText(plies, startSide, startNumber, true)
  {
    hide MoveText;
    output := text;
    var side, number := startSide, startNumber;
    assert plies[0..] == plies;
    for i := 0 to |plies|
      invariant output + MoveText(plies[i..], side, number, i == 0) == text + MoveText(plies, startSide, startNumber, true)
    {
      MoveTextStep(plies, i, side, number);
      ghost var rest := MoveText(plies[i + 1..], side.Opposite(), NextNumber(side, number), i + 1 == 0);
      Concat4(output, MoveNumberText(side, number, i == 0), plies[i].san + " ", rest);
      assert output + (MoveNumberText(side, number, i == 0) + (plies[i].san + " " + rest)) ==
             output + MoveNumberText(side, number, i == 0) + (plies[i].san + " ") + rest;
      output := output + MoveNumberText(side, number, i == 0) + (plies[i].san + " ");
      number := NextNumber(side, number);
      side := side.Opposite();
    }
    NoMovesLeft(side, number, |plies| == 0);
    assert plies[|plies|..] == [] && output + "" == output;
  }

  lemma {:induction false} NoMovesLeft(side: Color, number: nat, first: bool)
    ensures MoveText([], side, number, first) == ""
  {
  }

  method WritePgn(game: Game) returns (pgn: Parsed<string>)
    requires game.plies != []
    ensures pgn == CanonicalPgn(game)
  {
    hide TagLines, MoveText, ResultText, FromFen;
    var head := WriteTags(game.tags);
    var fault, start := ReadFen(game.plies[0].before);
    if fault.Some? {
      return Err(fault.value);
    }
    var output := WriteMoves(game.plies, start.side, start.fullmove, head + "\n");
    ghost var moves := MoveText(game.plies, start.side, start.fullmove, true);
    Concat4(head, "\n", moves, ResultText(game.tags));
    assert head + ("\n" + (moves + ResultText(game.tags))) == head + "\n" + moves + ResultText(game.tags);
    return Ok(output + ResultText(game.tags));
  }
}
