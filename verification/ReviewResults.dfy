/** What a review reports: of each position the search of one observation, its line a run of legal moves from
    there, named in coordinates. */
module ReviewResults {
  import opened Positions
  import opened MoveGen
  import opened MakeMove
  import opened Legality
  import opened PerftSpec
  import opened Observations
  import opened BrowserReviews
  import opened Rulebook
  import opened Notation
  import Fen
  import Pgn

  // ----- moves in coordinates -----

  /** The man a fifth letter names; without one, a queen. */
  function PromotionNamed(token: string): Option<Kind> {
    if |token| == 4 then Some(Queen)
    else if |token| != 5 then None
    else if token[4] == 'q' then Some(Queen)
    else if token[4] == 'r' then Some(Rook)
    else if token[4] == 'b' then Some(Bishop)
    else if token[4] == 'n' then Some(Knight)
    else None
  }

  /** The token gives the move's two squares by file and rank, and the man it promotes to, if it promotes. */
  predicate Names(token: string, m: Move) {
    && m.from < 64 && m.to < 64 && 4 <= |token| <= 5
    && token[0] == FileLetter(m.from) && token[1] == RankDigit(m.from) && token[2] == FileLetter(m.to) && token[3] == RankDigit(m.to)
    && PromotionNamed(token).Some? && (m.flags.promotion ==> m.promotion == PromotionNamed(token))
  }

  predicate ReadsAs(text: string, square: nat) {
    Fen.ParseSquare(text).Ok? && Fen.ParseSquare(text).value == square
  }

  lemma SquareRead(text: string, square: nat)
    requires square < 64 && |text| == 2
    ensures ReadsAs(text, square) <==> text[0] == FileLetter(square) && text[1] == RankDigit(square)
  {
    if 'a' <= text[0] <= 'h' && '1' <= text[1] <= '8' {
      var file, rank := text[0] as int - 'a' as int, text[1] as int - '1' as int;
      assert Fen.ParseSquare(text).value == rank * 8 + file;
      assert (rank * 8 + file) % 8 == file && (rank * 8 + file) / 8 == rank;
    }
  }

  predicate TokenIs(token: string, m: Move) {
    var read := ReadToken(token);
    read.Some? && read.value.0 == m.from && read.value.1 == m.to && (m.flags.promotion ==> m.promotion == Some(read.value.2))
  }

  lemma NamesExact(token: string, m: Move)
    requires m.from < 64 && m.to < 64
    ensures Names(token, m) <==> TokenIs(token, m)
  {
    hide FileLetter, RankDigit, Fen.ParseSquare;
    if 4 <= |token| <= 5 {
      SquareRead(token[..2], m.from);
      SquareRead(token[2..4], m.to);
      assert token[..2][0] == token[0] && token[..2][1] == token[1] && token[2..4][0] == token[2] && token[2..4][1] == token[3];
    }
  }

  lemma PawnTells(p: Position, a: Move, b: Move, color: Color)
    requires a.from < 64 && a.to < 64 && a.from == b.from && a.to == b.to && PawnRule(p, a, color) && PawnRule(p, b, color)
    ensures a.flags == b.flags
  {
    hide PawnGoes;
  }

  lemma PieceTells(p: Position, a: Move, b: Move, color: Color)
    requires a.from < 64 && a.to < 64 && a.from == b.from && a.to == b.to && p.squares[a.from].Man?
    requires PieceRule(p, a, color) && PieceRule(p, b, color)
    ensures a.flags == b.flags
  {
    hide Bears;
  }

  lemma CastleTells(p: Position, a: Move, b: Move, color: Color)
    requires a.from == b.from && a.to == b.to && CastleRule(p, a, color) && CastleRule(p, b, color)
    ensures a.flags == b.flags
  {
    hide Threatened, InCheck;
  }

  lemma CastlesFar(p: Position, m: Move, color: Color)
    requires m.from < 64 && m.to < 64 && p.squares[m.from].Man? && p.squares[m.from].kind.King?
    ensures CastleRule(p, m, color) ==> !Bears(p.squares, m.from, m.to)
  {
    hide Threatened, InCheck;
  }

  lemma KingTells(p: Position, a: Move, b: Move, color: Color)
    requires a.from < 64 && a.to < 64 && a.from == b.from && a.to == b.to && p.squares[a.from].Man? && p.squares[a.from].kind.King?
    requires (PieceRule(p, a, color) || CastleRule(p, a, color)) && (PieceRule(p, b, color) || CastleRule(p, b, color))
    ensures a.flags == b.flags
  {
    CastlesFar(p, a, color);
    CastlesFar(p, b, color);
    assert PieceRule(p, a, color) ==> Bears(p.squares, a.from, a.to);
    assert PieceRule(p, b, color) ==> Bears(p.squares, b.from, b.to);
    hide PieceRule, CastleRule, Bears;
    if PieceRule(p, a, color) {
      PieceTells(p, a, b, color);
    } else {
      CastleTells(p, a, b, color);
    }
  }

  /** Squares and promotion tell a move. */
  lemma WayTells(p: Position, a: Move, b: Move)
    requires IsPseudoLegal(p, a) && IsPseudoLegal(p, b) && a.from == b.from && a.to == b.to
    ensures a.flags == b.flags && (a.promotion == b.promotion ==> a == b)
  {
    MovesExact(p, a);
    MovesExact(p, b);
    hide IsPseudoLegal, PawnRule, PieceRule, CastleRule;
    match p.squares[a.from].kind
    case Pawn => PawnTells(p, a, b, p.side);
    case King => KingTells(p, a, b, p.side);
    case _ => PieceTells(p, a, b, p.side);
  }

  /** The text of a move in a game's identity names it, with a fifth letter exactly for promotions. */
  lemma IdentityTextNames(p: Position, m: Move)
    requires IsLegal(p, m)
    ensures Names(Pgn.UciText(m), m) && (|Pgn.UciText(m)| == 5 <==> m.flags.promotion)
  {
    PromotionSaid(p, m);
    UciNames(m);
    hide *;
  }

  lemma PromotionSaid(p: Position, m: Move)
    requires IsLegal(p, m)
    ensures m.from < 64 && m.to < 64
    ensures m.flags.promotion <==> m.promotion.Some?
    ensures m.promotion.Some? ==> m.promotion.value in {Queen, Rook, Bishop, Knight}
  {
    MoveFacts(p, m);
    hide IsPseudoLegal, PawnGoes, CastleRule, IsLegal, Across, Up;
  }

  lemma UciNames(m: Move)
    requires m.from < 64 && m.to < 64 && (m.flags.promotion <==> m.promotion.Some?)
    requires m.promotion.Some? ==> m.promotion.value in {Queen, Rook, Bishop, Knight}
    ensures Names(Pgn.UciText(m), m) && (|Pgn.UciText(m)| == 5 <==> m.flags.promotion)
  {
    NameIs(m.from);
    NameIs(m.to);
    hide FileLetter, RankDigit;
  }

  // ----- lines -----

  lemma {:induction false} FirstToFits(moves: seq<Move>, from: nat, to: nat, promotion: Kind)
    ensures
      var found := FirstTo(moves, from, to, promotion);
      && (found.Some? ==> found.value in moves && found.value.from == from && found.value.to == to
                          && (found.value.flags.promotion ==> found.value.promotion == Some(promotion)))
      && (found.None? ==> forall m :: m in moves && m.from == from && m.to == to ==>
                                       m.flags.promotion && m.promotion != Some(promotion))
  {
    if moves != [] {
      FirstToFits(moves[1..], from, to, promotion);
    }
  }

  ghost predicate LeadsTo(p: Position, token: string, m: Move, next: Position) {
    IsLegal(p, m) && Names(token, m) && Play(p, m) == next
  }

  /** A token leads on exactly if it names a legal move, and then to the position after it. */
  lemma TokenExact(p: Position, token: string, next: Position)
    ensures AfterToken(p, token) == Some(next) <==> exists m :: LeadsTo(p, token, m, next)
  {
    hide IsPseudoLegal, InCheck, Play, Names, LegalMovesOf;
    var read := ReadToken(token);
    if AfterToken(p, token) == Some(next) {
      FirstToFits(LegalMovesOf(p), read.value.0, read.value.1, read.value.2);
      var m := FirstTo(LegalMovesOf(p), read.value.0, read.value.1, read.value.2).value;
      LegalMovesExact(p, m);
      LegalOnBoard(p, m);
      NamesExact(token, m);
      assert LeadsTo(p, token, m, next);
    }
    if m :| LeadsTo(p, token, m, next) {
      NamedLeads(p, token, m);
    }
  }

  lemma LegalOnBoard(p: Position, m: Move)
    requires IsLegal(p, m)
    ensures m.from < 64 && m.to < 64
  {
    MoveFacts(p, m);
  }

  lemma NamedLeads(p: Position, token: string, m: Move)
    requires IsLegal(p, m) && Names(token, m)
    ensures AfterToken(p, token) == Some(Play(p, m))
  {
    hide IsPseudoLegal, InCheck, Play, Names, LegalMovesOf;
    LegalOnBoard(p, m);
    NamesExact(token, m);
    LegalMovesExact(p, m);
    var read := ReadToken(token).value;
    FirstToFits(LegalMovesOf(p), read.0, read.1, read.2);
    var found := FirstTo(LegalMovesOf(p), read.0, read.1, read.2);
    assert found.Some?;
    LegalMovesExact(p, found.value);
    WayTells(p, m, found.value);
    PromotionSame(p, m, found.value);
  }

  lemma PromotionSame(p: Position, a: Move, b: Move)
    requires IsLegal(p, a) && IsLegal(p, b) && a.flags == b.flags && (a.flags.promotion ==> a.promotion == b.promotion)
    ensures a.promotion == b.promotion
  {
    MoveFacts(p, a);
    MoveFacts(p, b);
    hide IsPseudoLegal, PawnGoes, CastleRule;
  }

  ghost predicate NamesAll(line: seq<string>, moves: seq<Move>) {
    |line| == |moves| && forall i :: 0 <= i < |line| ==> Names(line[i], moves[i])
  }

  /** A line plays out exactly if its tokens name a legal run. */
  lemma {:induction false} LineExact(p: Position, line: seq<string>)
    ensures PlaysOut(p, line) <==> exists moves :: IsLegalRun(p, moves) && NamesAll(line, moves)
    decreases |line|
  {
    hide IsLegal, AfterToken, Names, Play;
    if line == [] {
      assert IsLegalRun(p, []) && NamesAll([], []);
    } else {
      if PlaysOut(p, line) {
        var next := AfterToken(p, line[0]).value;
        TokenExact(p, line[0], next);
        var m :| LeadsTo(p, line[0], m, next);
        LineExact(next, line[1..]);
        var rest :| IsLegalRun(next, rest) && NamesAll(line[1..], rest);
        assert ([m] + rest)[1..] == rest;
        assert IsLegalRun(p, [m] + rest) && NamesAll(line, [m] + rest);
      }
      if moves :| IsLegalRun(p, moves) && NamesAll(line, moves) {
        LegalPlays(p, moves[0]);
        TokenExact(p, line[0], Play(p, moves[0]));
        assert LeadsTo(p, line[0], moves[0], Play(p, moves[0]));
        assert NamesAll(line[1..], moves[1..]);
        LineExact(Play(p, moves[0]), line[1..]);
      }
    }
  }

  lemma LegalPlays(p: Position, m: Move)
    requires IsLegal(p, m)
    ensures Playable(p, m)
  {
  }

  // ----- what is valid -----

  /** The depth and the time in milliseconds a profile allows. */
  predicate Allows(profile: string, depth: int, timeMs: int) {
    || (profile == "quick" && depth <= 10 && timeMs <= 15000)
    || (profile == "balanced" && depth <= 14 && timeMs <= 30000)
    || (profile == "aggressive" && depth <= 18 && timeMs <= 60000)
  }

  predicate IsId(text: string) {
    1 <= |text| <= 128
    && forall c :: c in text ==> 'a' <= c <= 'z' || 'A' <= c <= 'Z' || '0' <= c <= '9' || c == '-' || c == '_' || c == '.'
  }

  /** One score, within a million centipawns or a thousand moves to mate. */
  predicate IsScore(centipawns: Option<int>, mate: Option<int>) {
    match (centipawns, mate)
    case (Some(c), None) => -1000000 <= c <= 1000000
    case (None, Some(m)) => 1 <= m <= 1000 || -1000 <= m <= -1
    case _ => false
  }

  /** A line of at most 32 legal moves led by the best one, or none where no move is legal. */
  ghost predicate IsLine(p: Position, bestMove: string, line: seq<string>) {
    if bestMove == "0000" then line == [] && forall m :: !IsLegal(p, m)
    else 1 <= |line| <= 32 && line[0] == bestMove && exists moves :: IsLegalRun(p, moves) && NamesAll(line, moves)
  }

  /** What validation demands of an observation: a known engine and profile, fields within their bounds, and one
      line with one score that can be played from the position. */
  lemma ValidExact(o: Observation)
    ensures Valid(o) <==>
            && o.contract == "browser-observation-v1" && o.engine == Engine(ENGINE_NAME, ENGINE_VERSION, ENGINE_SOURCE, ENGINE_HASH)
            && IsId(o.gameId) && IsId(o.runId) && 1 <= |o.fen| <= 128 && o.sequence <= 4096 && o.ply <= 20000
            && Allows(o.profile, o.search.depth, o.search.timeMs) && 1 <= o.search.depth && o.search.nodes <= 100000000
            && o.search.multipv == 1 && 1 <= |o.search.bestMove| <= 5 && |o.search.lines| == 1 && o.search.lines[0].rank == 1
            && IsScore(o.search.lines[0].centipawns, o.search.lines[0].mate) && Fen.FromFen(o.fen).Ok?
            && IsLine(Fen.FromFen(o.fen).value, o.search.bestMove, o.search.lines[0].moves)
  {
    if |o.search.lines| == 1 && Fen.FromFen(o.fen).Ok? {
      LineValid(Fen.FromFen(o.fen).value, o.search.bestMove, o.search.lines[0].moves);
    }
    BoundsValid(o.search, o.profile);
    IdIs(o.gameId);
    IdIs(o.runId);
    hide IsLine, PlaysOut, LegalMovesOf, Allows, ProfileKnown, MaxDepth, MaxTime, IsScore, ScoreValid, Fen.FromFen, IsId, OpaqueId;
  }

  lemma IdIs(text: string)
    ensures IsId(text) <==> OpaqueId(text)
  {
  }

  lemma LineValid(p: Position, bestMove: string, line: seq<string>)
    ensures IsLine(p, bestMove, line) <==>
            |line| <= 32 && if bestMove == "0000" then line == [] && LegalMovesOf(p) == []
                            else line != [] && line[0] == bestMove && PlaysOut(p, line)
  {
    LineExact(p, line);
    forall m
      ensures m in LegalMovesOf(p) <==> IsLegal(p, m)
    {
      LegalMovesExact(p, m);
    }
    hide IsLegal, LegalMovesOf, NamesAll, IsLegalRun, PlaysOut;
    if LegalMovesOf(p) != [] {
      assert LegalMovesOf(p)[0] in LegalMovesOf(p);
    }
  }

  lemma BoundsValid(search: Search, profile: string)
    ensures Allows(profile, search.depth, search.timeMs) <==>
            ProfileKnown(profile) && search.depth <= MaxDepth(profile) && search.timeMs <= MaxTime(profile)
    ensures |search.lines| == 1 ==> (IsScore(search.lines[0].centipawns, search.lines[0].mate) <==> ScoreValid(search.lines[0]))
  {
  }

  // ----- reviews -----

  /** The result holds the observation's search, with its one line. */
  predicate Reports(result: EngineResult, o: Observation) {
    && |o.search.lines| == 1 && result.moves == o.search.lines[0].moves && result.bestMove == o.search.bestMove
    && result.centipawns == o.search.lines[0].centipawns && result.mate == o.search.lines[0].mate
    && result.rank == 1 && result.depth == o.search.depth && result.nodes == o.search.nodes && result.timeMs == o.search.timeMs
  }

  /** A result of a position: its best move starts a line of legal moves from there, or there is none and no move
      is legal; and its score is in centipawns or to mate, not both. */
  ghost predicate Sound(result: EngineResult, p: Position) {
    && (result.centipawns.Some? <==> result.mate.None?) && |result.moves| <= 32
    && if result.moves == [] then result.bestMove == "0000" && forall m :: !IsLegal(p, m)
       else result.moves[0] == result.bestMove && exists moves :: IsLegalRun(p, moves) && NamesAll(result.moves, moves)
  }

  lemma ValidReports(o: Observation)
    requires Valid(o)
    ensures Reports(ResultOf(o), o) && Fen.FromFen(o.fen).Ok? && Sound(ResultOf(o), Fen.FromFen(o.fen).value)
  {
    var p, result := Fen.FromFen(o.fen), ResultOf(o);
    LineExact(p.value, result.moves);
    forall m
      ensures m in LegalMovesOf(p.value) <==> IsLegal(p.value, m)
    {
      LegalMovesExact(p.value, m);
    }
    hide IsLegal, LegalMovesOf, NamesAll, IsLegalRun, PlaysOut, OpaqueId, ProfileKnown, MaxDepth, MaxTime, Fen.FromFen;
  }

  /** The review of a bundle holds at every ply, before and after its move, the search of the one observation of
      that position, sound for the position. */
  lemma ReviewReports(game: Pgn.Game, observations: seq<Observation>, ply: nat, isBefore: bool) returns (o: Observation)
    requires Assembled(game, observations).Ok? && ply < |game.plies|
    ensures
      var review := Assembled(game, observations).value;
      var fen := if isBefore then game.plies[ply].before else game.plies[ply].after;
      && |review.before| == |review.after| == |game.plies|
      && var result := if isBefore then review.before[ply] else review.after[ply];
         && o in observations && o.ply == ply && o.fen == fen && Reports(result, o)
         && Fen.FromFen(fen).Ok? && Sound(result, Fen.FromFen(fen).value)
  {
    hide Valid, Counted, Sound, Reports, ResultOf, Reviewable, Fen.FromFen;
    AssembledExact(game, observations);
    CountedExact(game, observations);
    CoverageNeverFails(game, observations);
    var t := Counted(game, observations).value;
    var bundle := multiset(observations);
    assert SlotsOf(t, isBefore)[ply].Some?;
    assert HasPosition(game, bundle, ply, isBefore);
    o :| o in bundle && o.ply == ply && IsBefore(game, o) == isBefore;
    assert o in observations && Fits(game, o);
    ValidReports(o);
  }
}
