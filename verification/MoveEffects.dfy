/** What a move leaves behind, field by field: where the men stand, the en-passant square and the capture it
    offers, the clocks, the castling rights and the history. */
module MoveEffects {
  import opened Positions
  import opened MoveGen
  import opened MakeMove
  import opened Legality
  import opened Rulebook

  // ----- the en-passant square -----

  predicate PawnLeaps(p: Position, m: Move)
    requires m.from < 64 && m.to < 64
  {
    p.squares[m.from].Man? && p.squares[m.from].kind.Pawn? && (m.to == m.from + 16 || m.from == m.to + 16)
  }

  /** There is an en-passant square exactly after a pawn move of two ranks: the one square between. */
  lemma EnPassantExact(p: Position, m: Move)
    requires IsPseudoLegal(p, m) && Playable(p, m)
    ensures Play(p, m).enPassant ==
            if !PawnLeaps(p, m) then 64 else if m.to > m.from then m.from + 8 else m.from - 8
  {
    MovesExact(p, m);
    hide IsPseudoLegal, PositionKey, SquaresAfter, RightsAfter, Playable, Bears, Threatened, InCheck;
  }

  /** The capture in passing: a pawn beside the one that leapt moves onto the square between. */
  function InPassing(beside: nat, square: nat): Move {
    Move(beside, square, None, Flags(true, false, false, false, true, false))
  }

  /** After a pawn leapt, every enemy pawn beside it may take it in passing. */
  lemma EnPassantOffered(p: Position, m: Move, beside: nat)
    requires IsPseudoLegal(p, m) && Playable(p, m) && PawnLeaps(p, m)
    requires beside < 64 && beside / 8 == m.to / 8 && Size(Across(beside, m.to)) == 1
    requires p.squares[beside] == Man(p.side.Opposite(), Pawn)
    ensures
      var next := Play(p, m);
      var square := if m.to > m.from then m.from + 8 else m.from - 8;
      && next.enPassant == square && IsPseudoLegal(next, InPassing(beside, square))
      && Playable(next, InPassing(beside, square))
      && Play(next, InPassing(beside, square)).squares[m.to] == Empty
  {
    var next := Play(p, m);
    LeapIs(p, m);
    BesideIs(m, p.side, beside);
    EnPassantExact(p, m);
    FullmoveExact(p, m);
    LeptBoard(p, m, beside, m.from + 8 * Ahead(p.side));
    hide *;
    PassingOffered(next, beside, next.enPassant, m.to);
  }

  /** A pawn that bears on the en-passant square may move there, and empties the square behind it. */
  lemma PassingOffered(p: Position, beside: nat, square: nat, taken: nat)
    requires beside < 64 && square < 64 && p.squares[beside] == Man(p.side, Pawn) && p.squares[square] == Empty
    requires p.enPassant == square && Size(Across(beside, square)) == 1 && Up(beside, square) == Ahead(p.side)
    requires square / 8 == 2 || square / 8 == 5
    requires square - 8 * Ahead(p.side) == taken && taken < 64 && taken != square && taken != beside
    ensures IsPseudoLegal(p, InPassing(beside, square)) && Playable(p, InPassing(beside, square))
    ensures Play(p, InPassing(beside, square)).squares[taken] == Empty
  {
    PassingGoes(p, beside, square);
    PassingTakes(p, beside, square, taken);
  }

  lemma LeptBoard(p: Position, m: Move, beside: nat, square: nat)
    requires IsPseudoLegal(p, m) && Playable(p, m) && beside < 64 && square < 64
    requires m.flags == Flags(false, true, false, false, false, false) && p.squares[square] == Empty
    requires beside != m.from && beside != m.to && square != m.from && square != m.to
    ensures Play(p, m).squares[beside] == p.squares[beside] && Play(p, m).squares[square] == Empty
    ensures Play(p, m).side == p.side.Opposite()
  {
    PlaySquares(p, m);
    FullmoveExact(p, m);
    PlainSquareAfter(p, m, beside);
    PlainSquareAfter(p, m, square);
    hide IsPseudoLegal, SquaresAfter, Play, Playable;
  }

  /** Taking in passing empties the square behind the one moved to. */
  lemma PassingTakes(p: Position, beside: nat, square: nat, taken: nat)
    requires IsPseudoLegal(p, InPassing(beside, square)) && beside < 64 && square < 64 && p.squares[beside] == Man(p.side, Pawn)
    requires square - 8 * Ahead(p.side) == taken && taken < 64 && taken != square && taken != beside
    ensures Playable(p, InPassing(beside, square)) && Play(p, InPassing(beside, square)).squares[taken] == Empty
  {
    var taking := InPassing(beside, square);
    hide IsPseudoLegal;
    assert CapturedSquare(p, taking) == taken;
    PlaySquares(p, taking);
    PlainSquareAfter(p, taking, taken);
    hide SquaresAfter, Play;
  }

  lemma PassingGoes(p: Position, beside: nat, square: nat)
    requires beside < 64 && square < 64 && p.squares[beside] == Man(p.side, Pawn) && p.squares[square] == Empty
    requires p.enPassant == square && Size(Across(beside, square)) == 1 && Up(beside, square) == Ahead(p.side)
    requires square / 8 == 2 || square / 8 == 5
    ensures IsPseudoLegal(p, InPassing(beside, square))
  {
    MovesExact(p, InPassing(beside, square));
    hide IsPseudoLegal;
  }

  lemma LeapIs(p: Position, m: Move)
    requires IsPseudoLegal(p, m) && PawnLeaps(p, m)
    ensures m.flags == Flags(false, true, false, false, false, false) && p.squares[m.to] == Empty && m.promotion == None
    ensures m.from / 8 == (if p.side.White? then 1 else 6) && m.to == m.from + 16 * Ahead(p.side)
    ensures p.squares[m.from] == Man(p.side, Pawn) && EmptyAt(p.squares, m.from + 8 * Ahead(p.side))
  {
    MoveFacts(p, m);
    hide IsPseudoLegal;
    LeapAcross(m.from, m.to);
  }

  lemma LeapAcross(from: nat, to: nat)
    requires from < 64 && to < 64 && (to == from + 16 || from == to + 16)
    ensures Across(from, to) == 0 && Up(from, to) == if to > from then 2 else -2
  {
  }

  lemma BesideIs(m: Move, side: Color, beside: nat)
    requires m.from < 64 && m.to < 64 && beside < 64 && beside / 8 == m.to / 8 && Size(Across(beside, m.to)) == 1
    requires m.to == m.from + 16 * Ahead(side) && m.from / 8 == (if side.White? then 1 else 6)
    ensures
      var square := m.from + 8 * Ahead(side);
      && 0 <= square < 64 && beside != m.from && beside != m.to && square != m.from && square != m.to
      && Size(Across(beside, square)) == 1 && Up(beside, square) == Ahead(side.Opposite())
      && (square / 8 == 2 || square / 8 == 5) && square - 8 * Ahead(side.Opposite()) == m.to
      && square == (if m.to > m.from then m.from + 8 else m.from - 8)
  {
  }

  // ----- clocks, side, history -----

  lemma ClockOf(p: Position, m: Move)
    requires Playable(p, m)
    ensures Play(p, m).halfmove ==
            if p.squares[m.from].kind.Pawn? || p.squares[CapturedSquare(p, m)] != Empty then 0 else (p.halfmove + 1) % 0x1_0000
    ensures !m.flags.enPassant ==> CapturedSquare(p, m) == m.to
  {
    hide PositionKey, SquaresAfter, RightsAfter;
  }

  /** The half-move clock restarts exactly at pawn moves and captures, and counts every other move. */
  lemma HalfmoveExact(p: Position, m: Move)
    requires IsPseudoLegal(p, m) && Playable(p, m)
    ensures Play(p, m).halfmove ==
            if p.squares[m.from].kind.Pawn? || p.squares[m.to].Man? then 0 else (p.halfmove + 1) % 0x1_0000
  {
    ClockOf(p, m);
    MoveFacts(p, m);
    hide IsPseudoLegal, Play, CapturedSquare, PawnRule, CastleRule;
  }

  /** The move number rises exactly after Black's moves; the other side moves next. */
  lemma FullmoveExact(p: Position, m: Move)
    requires Playable(p, m)
    ensures Play(p, m).fullmove == if p.side == Black then (p.fullmove + 1) % 0x1_0000 else p.fullmove
    ensures Play(p, m).side == if p.side == Black then White else Black
  {
    hide PositionKey, SquaresAfter, RightsAfter;
  }

  /** The history is what it was and the key of the position reached. */
  lemma HistoryGrows(p: Position, m: Move)
    requires Playable(p, m)
    ensures Play(p, m).history == p.history + [Play(p, m).hash]
  {
    hide PositionKey, SquaresAfter, RightsAfter;
  }

  lemma CapturableBears(squares: Squares, side: Color, enPassant: nat)
    requires enPassant < 64 && EnPassantCapturable(squares, side, enPassant)
    ensures exists from :: 0 <= from < 64 && squares[from] == Man(side, Pawn) && Bears(squares, from, enPassant)
  {
    var rank := Rank(enPassant) - Forward(side);
    var file := if PieceAt(squares, File(enPassant) - 1, rank) == Man(side, Pawn) then File(enPassant) - 1 else File(enPassant) + 1;
    var from := SquareAt(file, rank);
    assert squares[from] == Man(side, Pawn);
    PawnReaches(squares, from, enPassant, side);
    BearsExact(squares, from, enPassant);
    hide Bears;
    assert Reaches(squares, from, enPassant);
  }

  /** The key is blind to an en-passant square that no pawn of the side to move bears on. */
  lemma KeyBlind(squares: Squares, side: Color, rights: Rights, enPassant: nat)
    requires enPassant < 64
    requires !exists from :: 0 <= from < 64 && squares[from] == Man(side, Pawn) && Bears(squares, from, enPassant)
    ensures PositionKey(squares, side, rights, enPassant) == PositionKey(squares, side, rights, 64)
  {
    hide CodeKey, Xor, SquaresKey, RightsKey, SideKey, Bears, EnPassantCapturable;
    if EnPassantCapturable(squares, side, enPassant) {
      CapturableBears(squares, side, enPassant);
    }
  }

  // ----- castling rights -----

  predicate Leaves(m: Move, square: nat) {
    m.from == square || m.to == square
  }

  lemma KingHome(p: Position)
    requires OneKingEach(p.squares) && RightsTruthful(p.squares, p.rights)
    ensures p.rights.whiteKing || p.rights.whiteQueen ==> KingSquare(p.squares, White) == 4
    ensures p.rights.blackKing || p.rights.blackQueen ==> KingSquare(p.squares, Black) == 60
  {
    hide KingSquare;
  }

  lemma RightsOf(p: Position, m: Move)
    requires Playable(p, m)
    ensures
      var king, white := p.squares[m.from].kind.King?, p.squares[m.from].color.White?;
      var rights := Play(p, m).rights;
      && rights.whiteKing == (p.rights.whiteKing && !(king && white) && !Leaves(m, 7))
      && rights.whiteQueen == (p.rights.whiteQueen && !(king && white) && !Leaves(m, 0))
      && rights.blackKing == (p.rights.blackKing && !(king && !white) && !Leaves(m, 63))
      && rights.blackQueen == (p.rights.blackQueen && !(king && !white) && !Leaves(m, 56))
  {
    hide PositionKey, SquaresAfter, CapturedSquare;
  }

  lemma KingOnly(squares: Squares, color: Color, square: nat)
    requires OneKingEach(squares) && square < 64
    ensures squares[square] == Man(color, King) <==> square == KingSquare(squares, color)
  {
    hide KingSquare;
  }

  /** A right is lost exactly when its own king or rook leaves its square, or is taken there. */
  lemma RightsExact(p: Position, m: Move)
    requires WellFormed(p) && IsLegal(p, m)
    ensures
      var rights := Play(p, m).rights;
      && rights.whiteKing == (p.rights.whiteKing && !Leaves(m, 4) && !Leaves(m, 7))
      && rights.whiteQueen == (p.rights.whiteQueen && !Leaves(m, 4) && !Leaves(m, 0))
      && rights.blackKing == (p.rights.blackKing && !Leaves(m, 60) && !Leaves(m, 63))
      && rights.blackQueen == (p.rights.blackQueen && !Leaves(m, 60) && !Leaves(m, 56))
  {
    KingHome(p);
    KingNotTaken(p, m);
    OwnTargetFree(p, m);
    RightsOf(p, m);
    KingOnly(p.squares, White, m.from);
    KingOnly(p.squares, Black, m.from);
    KingOnly(p.squares, White, m.to);
    KingOnly(p.squares, Black, m.to);
    hide IsPseudoLegal, InCheck, SquaresAfter, RightsTruthful, OneKingEach, NoEndPawns, EnPassantTruthful, KeyTruthful, KingSquare,
         CapturedSquare, Play;
  }

  // ----- legality -----

  /** A move is legal exactly when the rules of movement allow it and no enemy man bears on the mover's king
      afterwards. */
  lemma LegalExact(p: Position, m: Move)
    requires WellFormed(p)
    ensures IsLegal(p, m) <==>
              && Goes(p, m) && Playable(p, m)
              && forall king :: 0 <= king < 64 && Play(p, m).squares[king] == Man(p.side, King) ==>
                                 !Threatened(Play(p, m).squares, king, p.side.Opposite())
  {
    MovesExact(p, m);
    if Goes(p, m) && Playable(p, m) {
      KingsKept(p, m);
      PlaySquares(p, m);
      CheckOf(SquaresAfter(p, m), p.side);
    }
    hide Goes, IsPseudoLegal, Play, SquaresAfter, Threatened, InCheck, OneKingEach;
  }

  lemma CheckOf(squares: Squares, color: Color)
    requires OneKingEach(squares)
    ensures !InCheck(squares, color) <==>
            forall king :: 0 <= king < 64 && squares[king] == Man(color, King) ==> !Threatened(squares, king, color.Opposite())
  {
    CheckExact(squares, color, KingSquare(squares, color));
    hide InCheck, Threatened, KingSquare;
  }

  // ----- where the men stand -----

  /** The rook castling moves, from and to. */
  function RookWay(m: Move): Option<(nat, nat)> {
    if m.flags.kingCastle then Some(if m.to == 6 then (7, 5) else (63, 61))
    else if m.flags.queenCastle then Some(if m.to == 2 then (0, 3) else (56, 59))
    else None
  }

  /** The square a pawn taken in passing stands on: the mover's rank, the target's file. */
  function PassedSquare(m: Move): nat {
    m.from / 8 * 8 + m.to % 8
  }

  /** Every square after a move: the man moved, promoted as the move names; the castling rook beside its king;
      the square left, and that of a pawn taken in passing, empty; all others as they were. */
  lemma BoardExact(p: Position, m: Move, square: nat)
    requires IsPseudoLegal(p, m) && Playable(p, m) && square < 64
    ensures
      var rook := RookWay(m);
      Play(p, m).squares[square] ==
        if square == m.to then if m.promotion.Some? then Man(p.side, m.promotion.value) else p.squares[m.from]
        else if rook.Some? && square == rook.value.1 then Man(p.side, Rook)
        else if square == m.from || (rook.Some? && square == rook.value.0) then Empty
        else if m.flags.enPassant && square == PassedSquare(m) then Empty
        else p.squares[square]
  {
    PlaySquares(p, m);
    hide Play;
    if m.flags.kingCastle || m.flags.queenCastle {
      CastledSquare(p, m, square);
    } else {
      PlainSquareAfter(p, m, square);
      PromotionNamed(p, m);
      hide IsPseudoLegal, SquaresAfter, CapturedSquare, PassedSquare, Promoted, Playable;
    }
  }

  lemma CastledSquare(p: Position, m: Move, square: nat)
    requires IsPseudoLegal(p, m) && Playable(p, m) && square < 64 && (m.flags.kingCastle || m.flags.queenCastle)
    ensures RookWay(m).Some? && m.promotion == None && !m.flags.enPassant
    ensures
      var (rookFrom, rookTo) := RookWay(m).value;
      SquaresAfter(p, m)[square] ==
        if square == m.to then p.squares[m.from] else if square == rookTo then Man(p.side, Rook)
        else if square == m.from || square == rookFrom then Empty else p.squares[square]
  {
    CastleSquareAfter(p, m, square);
    CastleAt(p, m);
    hide IsPseudoLegal, SquaresAfter, Playable;
  }

  lemma PlaySquares(p: Position, m: Move)
    requires Playable(p, m)
    ensures Play(p, m).squares == SquaresAfter(p, m)
  {
    hide PositionKey, SquaresAfter, RightsAfter;
  }

  lemma CastleAt(p: Position, m: Move)
    requires IsPseudoLegal(p, m) && (m.flags.kingCastle || m.flags.queenCastle)
    ensures m.promotion == None && p.squares[m.from] == Man(p.side, King) && !m.flags.enPassant
    ensures p.side == White ==> m.from == 4 && m.to == if m.flags.kingCastle then 6 else 2
    ensures p.side == Black ==> m.from == 60 && m.to == if m.flags.kingCastle then 62 else 58
    ensures !(m.flags.kingCastle && m.flags.queenCastle)
  {
    MoveFacts(p, m);
    hide IsPseudoLegal, Threatened, InCheck;
  }

  lemma PromotionNamed(p: Position, m: Move)
    requires IsPseudoLegal(p, m) && Playable(p, m) && !m.flags.kingCastle && !m.flags.queenCastle
    ensures Promoted(p.squares[m.from], m) == if m.promotion.Some? then Man(p.side, m.promotion.value) else p.squares[m.from]
    ensures m.flags.enPassant ==> CapturedSquare(p, m) == PassedSquare(m)
  {
    MoveFacts(p, m);
    hide IsPseudoLegal;
    if m.flags.enPassant {
      Passed(m.from, m.to, p.side);
    }
    hide PassedSquare, Up, Across;
  }

  lemma Passed(from: nat, to: nat, color: Color)
    requires from < 64 && to < 64 && Up(from, to) == Ahead(color)
    ensures to - 8 * Forward(color) == from / 8 * 8 + to % 8
  {
  }
}
