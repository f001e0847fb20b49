/** Writing and reading notation on a mutable board, as the program does: candidates are scanned with
    flags, the move is tried on the board to find its check mark, and the board is left as found. */
module SanText {
  import opened Positions
  import opened MoveGen
  import opened MakeMove
  import opened Legality
  import opened PerftSpec
  import opened Boards
  import opened Text
  import opened San

  method NormalizeText(input: string) returns (result: string)
    ensures result == Normalize(input)
  {
    result := "";
    for i := 0 to |input|
      invariant result == Squeeze(input[..i])
    {
      if !IsSpace(input[i]) {
        result := result + [if input[i] == '0' then 'O' else input[i]];
      }
      assert input[..i + 1][..i] == input[..i];
    }
    assert input[..|input|] == input;
    while result != "" && IsMark(result[|result| - 1])
      invariant TrimMarks(result) == TrimMarks(Squeeze(input))
      decreases |result|
    {
      result := result[..|result| - 1];
    }
    var note := 0;
    while note + 4 <= |result| && result[note..note + 4] != "e.p."
      invariant note <= |result|
      invariant FindEnPassantNote(result, 0) == FindEnPassantNote(result, note)
    {
      note := note + 1;
    }
    result := if note + 4 <= |result| then result[..note] else result;
  }

  ghost predicate RivalAt(p: Position, m: Move, legal: seq<Move>, i: nat)
    requires m.from < 64
  {
    i < |legal| && IsRival(p, m, legal[i])
  }

  /** One scan over the legal moves sets the three conflict flags. */
  method ScanRivals(board: Board, m: Move, legal: seq<Move>) returns (conflict: bool, sameFile: bool, sameRank: bool)
    requires board.Valid() && m.from < 64 && legal == LegalMovesOf(board.Pos())
    ensures conflict <==> exists i: nat :: RivalAt(board.Pos(), m, legal, i)
    ensures sameFile <==> exists i: nat :: RivalAt(board.Pos(), m, legal, i) && File(legal[i].from) == File(m.from)
    ensures sameRank <==> exists i: nat :: RivalAt(board.Pos(), m, legal, i) && Rank(legal[i].from) == Rank(m.from)
  {
    hide IsLegal, LegalMovesOf, File, Rank, IsRival;
    ghost var p := board.Pos();
    conflict, sameFile, sameRank := false, false, false;
    for n := 0 to |legal|
      invariant conflict <==> exists i: nat :: i < n && RivalAt(p, m, legal, i)
      invariant sameFile <==> exists i: nat :: i < n && RivalAt(p, m, legal, i) && File(legal[i].from) == File(m.from)
      invariant sameRank <==> exists i: nat :: i < n && RivalAt(p, m, legal, i) && Rank(legal[i].from) == Rank(m.from)
    {
      var candidate := legal[n];
      RivalTest(p, m, legal, n);
      assert board.squares[..] == p.squares;
      if candidate.from != m.from && candidate.to == m.to && board.squares[candidate.from] == board.squares[m.from] {
        assert RivalAt(p, m, legal, n);
        conflict := true;
        sameFile := sameFile || File(candidate.from) == File(m.from);
        sameRank := sameRank || Rank(candidate.from) == Rank(m.from);
      }
    }
    assert board.Pos() == p;
    assert forall i: nat :: RivalAt(p, m, legal, i) ==> i < |legal|;
  }

  lemma RivalTest(p: Position, m: Move, legal: seq<Move>, i: nat)
    requires m.from < 64 && i < |legal| && legal == LegalMovesOf(p)
    ensures legal[i].from < 64
    ensures RivalAt(p, m, legal, i) <==>
            legal[i].from != m.from && legal[i].to == m.to && p.squares[legal[i].from] == p.squares[m.from]
  {
    hide IsPseudoLegal, InCheck;
    LegalSquares(p, legal[i], legal, i);
  }

  /** The disambiguation found by scanning the legal moves once. */
  method Disambiguate(board: Board, m: Move) returns (origin: string)
    requires board.Valid() && Restorable(board.Pos()) && m.from < 64
    modifies board, board.squares
    ensures board.Valid() && board.Pos() == old(board.Pos()) && origin == Disambiguation(board.Pos(), m)
  {
    hide IsLegal, IsPseudoLegal, LegalMovesOf, Restorable, SquareName, IsRival, File, Rank;
    var legal := board.LegalMoves();
    var conflict, sameFile, sameRank := ScanRivals(board, m, legal);
    RivalsAreListed(board.Pos(), m, legal);
    if !conflict {
      return "";
    } else if !sameFile {
      return [SquareName(m.from)[0]];
    } else if !sameRank {
      return [SquareName(m.from)[1]];
    }
    return SquareName(m.from);
  }

  lemma LegalSquares(p: Position, m: Move, moves: seq<Move>, i: nat)
    requires i < |moves| && moves == LegalMovesOf(p) && m == moves[i]
    ensures IsLegal(p, m) && m.from < 64
  {
    LegalMovesExact(p, m);
  }

  lemma RivalsAreListed(p: Position, m: Move, legal: seq<Move>)
    requires m.from < 64 && legal == LegalMovesOf(p)
    ensures forall rival :: IsRival(p, m, rival) ==> exists i: nat :: RivalAt(p, m, legal, i) && legal[i] == rival
  {
    forall rival | IsRival(p, m, rival)
      ensures exists i: nat :: RivalAt(p, m, legal, i) && legal[i] == rival
    {
      LegalMovesExact(p, rival);
      var i :| 0 <= i < |legal| && legal[i] == rival;
      assert RivalAt(p, m, legal, i);
    }
  }

  /** A pseudo-legal move can be played and taken back, and the board between can try replies. */
  lemma PseudoRoundTrip(p: Position, m: Move)
    requires Restorable(p) && IsPseudoLegal(p, m)
    ensures m.from < 64 && m.to < 64 && Playable(p, m) && Restorable(Play(p, m)) && UndoOf(p, m).capturedSquare < 64
    ensures Play(p, m).squares[m.to].Man? && TakeBack(Play(p, m), m, UndoOf(p, m)) == p
  {
    PseudoLegalPlayable(p, m);
    TakeBackUndoesPlay(p, m);
    EnPassantKept(p, m);
  }

  /** The check mark of a move, found by playing it and taking it back. */
  method MarkOf(board: Board, m: Move) returns (mark: string)
    requires board.Valid() && Restorable(board.Pos()) && IsPseudoLegal(board.Pos(), m) && Playable(board.Pos(), m)
    modifies board, board.squares
    ensures board.Valid() && board.Pos() == old(board.Pos()) && mark == CheckMark(Play(board.Pos(), m))
  {
    hide IsPseudoLegal, Restorable, InCheck, Play, TakeBack, LegalMovesOf, Playable, UndoOf;
    ghost var p := board.Pos();
    PseudoRoundTrip(p, m);
    mark := "";
    var undo := board.MakeMove(m);
    var check := board.IsInCheck(board.side);
    if check {
      var replies := board.LegalMoves();
      mark := if replies == [] then "#" else "+";
    }
    board.UnmakeMove(m, undo.value);
  }

  /** Writes a move in notation; a move with no man on its source is rejected. The board is unchanged. */
  method Write(board: Board, m: Move) returns (san: Option<string>)
    requires board.Valid() && Restorable(board.Pos())
    requires m.from < 64 && board.squares[m.from].Man? ==> IsPseudoLegal(board.Pos(), m)
    modifies board, board.squares
    ensures board.Valid() && board.Pos() == old(board.Pos())
    ensures m.from < 64 && board.squares[m.from].Man? ==>
              Playable(board.Pos(), m) && san == Some(ToSan(board.Pos(), m))
    ensures !(m.from < 64 && board.squares[m.from].Man?) ==> san == None
  {
    if m.from >= 64 || board.squares[m.from] == Empty {
      return None;
    }
    ghost var p := board.Pos();
    var moving := board.squares[m.from];
    PseudoLegalPlayable(p, m);
    assert board.squares[..] == p.squares && moving == p.squares[m.from];
    hide IsPseudoLegal, Restorable, Disambiguation, CheckMark, SquareName, KindLetter;
    var text;
    if m.flags.kingCastle {
      text := "O-O";
    } else if m.flags.queenCastle {
      text := "O-O-O";
    } else {
      text := KindLetter(moving.kind);
      if moving.kind != Pawn {
        var origin := Disambiguate(board, m);
        text := text + origin;
      } else if m.flags.capture {
        text := text + [SquareName(m.from)[0]];
      } else {
        text := text + "";
      }
      text := text + (if m.flags.capture then "x" else "") + SquareName(m.to) + PromotionText(m);
    }
    assert text == Body(p, m);
    var mark := MarkOf(board, m);
    assert board.squares[..] == p.squares;
    return Some(text + mark);
  }

  /** The first legal move whose notation matches the text; the board is unchanged. */
  method Parse(board: Board, text: string) returns (found: Option<Move>)
    requires board.Valid() && Restorable(board.Pos())
    modifies board, board.squares
    ensures board.Valid() && board.Pos() == old(board.Pos())
    ensures found == ParseSan(board.Pos(), text)
  {
    hide IsPseudoLegal, InCheck, Restorable, LegalMovesOf, Normalize, ToSan, FirstMatch;
    ghost var p := board.Pos();
    var expected := NormalizeText(text);
    var legal := board.LegalMoves();
    assert legal[0..] == legal;
    for i := 0 to |legal|
      invariant board.Valid() && board.Pos() == p
      invariant FirstMatch(p, legal[i..], expected) == ParseSan(p, text)
    {
      LegalSquares(p, legal[i], legal, i);
      assert board.squares[..] == p.squares;
      var san := Write(board, legal[i]);
      var normal := NormalizeText(san.value);
      FirstMatchStep(p, legal, i, expected);
      if normal == expected {
        return Some(legal[i]);
      }
    }
    FirstMatchStep(p, legal, |legal|, expected);
    return None;
  }

  lemma {:induction false} FirstMatchStep(p: Position, moves: seq<Move>, i: nat, expected: string)
    requires i <= |moves| && AllLegal(p, moves)
    ensures FirstMatch(p, moves[i..], expected) ==
            if i == |moves| then None
            else (assert moves[i] in moves;
                  if Normalize(ToSan(p, moves[i])) == expected then Some(moves[i])
                  else FirstMatch(p, moves[i + 1..], expected))
  {
    hide IsPseudoLegal, InCheck, Normalize, ToSan;
    if i < |moves| {
      assert moves[i] in moves && moves[i..][1..] == moves[i + 1..];
    }
  }
}
