/** What the numbers and marks of a movetext mean: written numbers are those of the positions, and read ones, like
    annotation marks and what stands after the result, change nothing. */
module PgnNumbers {
  import opened Positions
  import opened MoveGen
  import opened MakeMove
  import opened Legality
  import opened MoveEffects
  import opened Text
  import opened Fen
  import opened San
  import opened Pgn
  import opened PgnRoundTrip

  // ----- written numbers -----

  /** The moves of a run, each of White's after the full move number of its position, and the first one of Black's
      if it starts the text. */
  ghost function Numbered(p: Position, plies: seq<Ply>, first: bool): string
    requires Records(p, plies)
    decreases |plies|
  {
    if plies == [] then ""
    else
      (if p.side.White? then NatText(p.fullmove) + ". " else if first then NatText(p.fullmove) + "... " else "")
      + (ToSan(p, plies[0].move) + " " + Numbered(After(p, plies[0]), plies[1..], false))
  }

  lemma NextIs(p: Position, ply: Ply)
    requires IsRecord(p, ply)
    ensures
      var next := After(p, ply);
      && next.side == (if p.side.White? then Black else White)
      && next.fullmove == (if p.side.Black? then (p.fullmove + 1) % 65536 else p.fullmove)
  {
    FullmoveExact(p, ply.move);
    hide ToSan, ToFen, Play, IsPseudoLegal;
  }

  /** The text written for a run numbers every move by its own position. */
  lemma {:induction false} NumbersTell(p: Position, plies: seq<Ply>, first: bool)
    requires Records(p, plies)
    ensures MoveText(plies, p.side, p.fullmove, first) == Numbered(p, plies, first)
    decreases |plies|
  {
    hide IsLegal, ToSan, ToFen, NatText, Play;
    if plies != [] {
      NextIs(p, plies[0]);
      NumbersTell(After(p, plies[0]), plies[1..], false);
    }
  }

  // ----- numbers and marks read -----

  predicate AllStops(text: string) {
    forall c :: c in text ==> c == '.'
  }

  predicate AllDigits(text: string) {
    forall c :: c in text ==> '0' <= c <= '9'
  }

  /** A move number: digits, then full stops. */
  ghost predicate IsNumber(token: string) {
    exists digits, stops :: digits != "" && stops != "" && AllDigits(digits) && AllStops(stops) && token == digits + stops
  }

  predicate IsNag(token: string) {
    token != "" && token[0] == '$'
  }

  /** A move after a number that is written against it. */
  ghost predicate FollowsNumber(token: string, san: string) {
    exists number :: number != "" && '0' <= number[0] <= '9' && number[|number| - 1] == '.' && token == number + san
  }

  /** How a move may stand in a movetext. */
  ghost predicate Shows(token: string, san: string) {
    token == san || FollowsNumber(token, san)
  }

  /** Moves are written with letters first and without full stops. */
  predicate IsMoveWord(san: string) {
    san != "" && san[0] >= 'A' && '.' !in san
  }

  predicate IsEnding(token: string) {
    token == "1-0" || token == "0-1" || token == "1/2-1/2" || token == "*"
  }

  /** The tokens show the moves, among numbers and annotation marks, up to a result or the end. */
  ghost predicate Decorates(tokens: seq<string>, sans: seq<string>)
    decreases |tokens|
  {
    if tokens == [] then sans == []
    else if IsNag(tokens[0]) || IsNumber(tokens[0]) then Decorates(tokens[1..], sans)
    else if IsEnding(tokens[0]) then sans == []
    else sans != [] && Shows(tokens[0], sans[0]) && IsMoveWord(sans[0]) && Decorates(tokens[1..], sans[1..])
  }

  lemma {:induction false} RunOfDigits(token: string)
    ensures AllDigits(token[..DigitRun(token)]) && (DigitRun(token) < |token| ==> !IsDigit(token[DigitRun(token)]))
  {
    if token != "" && IsDigit(token[0]) {
      RunOfDigits(token[1..]);
      assert token[..DigitRun(token)] == [token[0]] + token[1..][..DigitRun(token[1..])];
    }
  }

  lemma NumberExact(token: string)
    ensures IsMoveNumber(token) <==> IsNumber(token)
  {
    if IsMoveNumber(token) {
      RunOfDigits(token);
      var n := DigitRun(token);
      var digits, stops := token[..n], token[n..];
      assert token == digits + stops;
      forall c | c in stops
        ensures c == '.'
      {
        var k :| 0 <= k < |stops| && stops[k] == c;
        assert stops[k] == token[n + k];
      }
    }
    if digits, stops :| digits != "" && stops != "" && AllDigits(digits) && AllStops(stops) && token == digits + stops {
      assert stops[0] in stops;
      DigitsRun(digits, stops);
      forall i | |digits| <= i < |token|
        ensures token[i] == '.'
      {
        assert stops[i - |digits|] in stops;
      }
    }
  }

  lemma {:induction false} NumberTakenOff(token: string, san: string)
    requires FollowsNumber(token, san) && IsMoveWord(san)
    ensures Unnumbered(token) == san
  {
    var number :| number != "" && '0' <= number[0] <= '9' && number[|number| - 1] == '.' && token == number + san;
    assert token[|number| - 1 + 1..] == san;
    FindLastIs(token, '.', |number| - 1);
  }

  lemma ShownMove(token: string, san: string)
    requires Shows(token, san) && IsMoveWord(san) && !IsNag(token) && !IsNumber(token)
    ensures !IsSkipped(token) && Unnumbered(token) == san && !IsSkipped(san) && Unnumbered(san) == san && !IsResult(san)
  {
    hide IsNumber, FollowsNumber, IsMoveNumber, Unnumbered;
    NumberExact(token);
    LetterToken(san);
    if FollowsNumber(token, san) {
      NumberTakenOff(token, san);
    }
  }

  lemma EndingIs(token: string)
    requires IsEnding(token)
    ensures !IsSkipped(token) && IsResult(Unnumbered(token))
  {
    ResultIsToken(token);
    hide IsSkipped, Unnumbered;
  }

  /** Numbers, annotation marks and whatever follows a result leave the moves played as they are. */
  lemma {:induction false} DecorationsIgnored(p: Position, tokens: seq<string>, sans: seq<string>)
    requires Decorates(tokens, sans)
    ensures PlayTokens(p, tokens) == PlayTokens(p, sans)
    decreases |tokens|
  {
    hide IsNumber, IsMoveNumber, Shows, IsMoveWord, Unnumbered, ReadMove;
    if tokens != [] {
      NumberExact(tokens[0]);
      if IsNag(tokens[0]) || IsNumber(tokens[0]) {
        DecorationsIgnored(p, tokens[1..], sans);
      } else if IsEnding(tokens[0]) {
        EndingIs(tokens[0]);
      } else {
        ShownMove(tokens[0], sans[0]);
        var step := ReadMove(p, sans[0]);
        if step.Ok? {
          DecorationsIgnored(step.value.1, tokens[1..], sans[1..]);
        }
      }
    }
  }

  /** The words name the moves of the plies, one by one. */
  predicate NameEach(words: seq<string>, plies: seq<Ply>) {
    |words| == |plies| && forall i :: 0 <= i < |plies| ==> Normalize(words[i]) == Normalize(plies[i].san)
  }

  predicate AreMoveWords(words: seq<string>) {
    forall i :: 0 <= i < |words| ==> IsMoveWord(words[i])
  }

  lemma WordPlays(p: Position, word: string, ply: Ply)
    ensures ReadMove(p, word).Ok? && ReadMove(p, word).value.0 == ply <==> IsRecord(p, ply) && Normalize(word) == Normalize(ply.san)
  {
    ParseSanExact(p, word, ply.move);
    if ReadMove(p, word).Ok? {
      ReadMoveLegal(p, word);
      ParseSanExact(p, word, ReadMove(p, word).value.0.move);
    }
    hide IsLegal, ToSan, ToFen, Normalize, ParseSan, Play;
  }

  lemma OthersRefused(p: Position, word: string)
    ensures !ReadMove(p, word).Ok? ==> ReadMove(p, word) == Err(IllegalMove)
  {
    hide ToSan, ToFen, ParseSan, Play;
  }

  lemma MoveWordIs(word: string)
    requires IsMoveWord(word)
    ensures !IsSkipped(word) && Unnumbered(word) == word && !IsResult(word)
  {
    LetterToken(word);
    hide IsSkipped, Unnumbered;
  }

  /** Words of moves are played exactly if they name a run of legal moves, and are refused otherwise. */
  lemma {:induction false} PlayedExact(p: Position, words: seq<string>, plies: seq<Ply>)
    requires AreMoveWords(words)
    ensures PlayTokens(p, words) == Ok(plies) <==> Records(p, plies) && NameEach(words, plies)
    ensures !PlayTokens(p, words).Ok? ==> PlayTokens(p, words) == Err(IllegalMove)
    decreases |words|
  {
    hide ReadMove, IsRecord, After, IsSkipped, Unnumbered, IsResult, Normalize, IsMoveWord;
    if words != [] {
      var word, more := words[0], words[1..];
      MoveWordIs(word);
      OthersRefused(p, word);
      var step := ReadMove(p, word);
      if step.Ok? {
        ReadMoveLegal(p, word);
        WordPlays(p, word, step.value.0);
        PlayedExact(step.value.1, more, if plies != [] then plies[1..] else []);
      }
      if plies != [] {
        WordPlays(p, word, plies[0]);
        FirstNamed(words, plies);
        assert plies == [plies[0]] + plies[1..];
      }
    }
  }

  lemma FirstNamed(words: seq<string>, plies: seq<Ply>)
    requires words != [] && plies != []
    ensures NameEach(words, plies) <==> Normalize(words[0]) == Normalize(plies[0].san) && NameEach(words[1..], plies[1..])
  {
    hide Normalize;
    if NameEach(words[1..], plies[1..]) {
      assert forall i :: 1 <= i < |plies| ==> words[i] == words[1..][i - 1] && plies[i] == plies[1..][i - 1];
    }
  }

  /** The text of a game ends in its result, an asterisk if its tag is missing or empty. */
  lemma ResultStands(game: Game) returns (front: string)
    requires game.plies != [] && CanonicalPgn(game).Ok?
    ensures CanonicalPgn(game).value == front + if "Result" in game.tags && game.tags["Result"] != "" then game.tags["Result"] else "*"
  {
    var start := FromFen(game.plies[0].before).value;
    var tags, moves, result := TagLines(game.tags, 0), MoveText(game.plies, start.side, start.fullmove, true), ResultText(game.tags);
    front := tags + ("\n" + moves);
    assert tags + ("\n" + (moves + result)) == front + result;
    hide TagLines, MoveText;
  }
}
