/** Legal moves and what every run of them keeps. */
module Legality {
  import opened Positions
  import opened MoveGen
  import opened Attacks
  import opened MakeMove

  ghost predicate IsLegal(p: Position, m: Move) {
    IsPseudoLegal(p, m) && Playable(p, m) && !InCheck(SquaresAfter(p, m), p.side)
  }

  // ----- well-formed positions -----

  ghost predicate OnlyKing(squares: Squares, color: Color, king: nat) {
    king < 64 && forall square :: 0 <= square < 64 ==> (squares[square] == Man(color, King) <==> square == king)
  }

  ghost predicate OneKingEach(squares: Squares) {
    OnlyKing(squares, White, KingSquare(squares, White)) && OnlyKing(squares, Black, KingSquare(squares, Black))
  }

  ghost predicate NoEndPawns(squares: Squares) {
    forall square :: 0 <= square < 64 && squares[square].Man? && squares[square].kind.Pawn? ==> 1 <= Rank(square) <= 6
  }

  /** A castling right implies king and rook on their home squares. */
  predicate RightsTruthful(squares: Squares, rights: Rights) {
    && (rights.whiteKing ==> squares[4] == Man(White, King) && squares[7] == Man(White, Rook))
    && (rights.whiteQueen ==> squares[4] == Man(White, King) && squares[0] == Man(White, Rook))
    && (rights.blackKing ==> squares[60] == Man(Black, King) && squares[63] == Man(Black, Rook))
    && (rights.blackQueen ==> squares[60] == Man(Black, King) && squares[56] == Man(Black, Rook))
  }

  predicate KeyTruthful(p: Position) {
    && p.hash == PositionKey(p.squares, p.side, p.rights, p.enPassant)
    && p.history != [] && p.history[|p.history| - 1] == p.hash
  }

  ghost predicate WellFormed(p: Position) {
    && OneKingEach(p.squares) && NoEndPawns(p.squares) && RightsTruthful(p.squares, p.rights)
    && EnPassantTruthful(p) && KeyTruthful(p)
    && !InCheck(p.squares, p.side.Opposite())
    && p.halfmove < 0x1_0000 && p.fullmove < 0x1_0000
  }

  // ----- the board after a move, square by square -----

  lemma PlainSquareAfter(p: Position, m: Move, square: nat)
    requires IsPseudoLegal(p, m) && Playable(p, m) && square < 64 && !m.flags.kingCastle && !m.flags.queenCastle
    ensures SquaresAfter(p, m)[square] ==
            if square == m.to then Promoted(p.squares[m.from], m)
            else if square == m.from then Empty
            else if m.flags.enPassant && square == CapturedSquare(p, m) then Empty
            else p.squares[square]
  {
    hide IsPseudoLegal;
  }

  lemma CastleSquareAfter(p: Position, m: Move, square: nat)
    requires IsPseudoLegal(p, m) && Playable(p, m) && square < 64 && (m.flags.kingCastle || m.flags.queenCastle)
    ensures
      var home := HomeRank(p.side);
      var rookFrom := if m.flags.kingCastle then home + 7 else home;
      var rookTo := if m.flags.kingCastle then home + 5 else home + 3;
      && m.from == home + 4 && p.squares[m.from] == Man(p.side, King) && p.squares[rookFrom] == Man(p.side, Rook)
      && p.squares[m.to] == Empty && p.squares[rookTo] == Empty
      && m.to == (if m.flags.kingCastle then home + 6 else home + 2)
      && !m.flags.capture && !m.flags.promotion && !m.flags.double && !m.flags.enPassant
      && SquaresAfter(p, m)[square] ==
         if square == m.to then Man(p.side, King)
         else if square == rookTo then Man(p.side, Rook)
         else if square == m.from || square == rookFrom then Empty
         else p.squares[square]
  {
    hide InCheck, Attacked, Reaches, RightsAfter;
    assert IsCastle(p, m, p.side);
  }

  // ----- kings -----

  lemma OnlyKingFound(squares: Squares, color: Color, king: nat)
    requires OnlyKing(squares, color, king)
    ensures KingSquare(squares, color) == king
  {
    assert squares[king] == Man(color, King);
  }

  lemma CaptureAttacks(p: Position, m: Move)
    requires IsPseudoLegal(p, m) && Enemy(p.squares[m.to], p.side)
    ensures Attacked(p.squares, m.to, p.side)
  {
    ArrivalReaches(p, m);
    hide IsPseudoLegal, Reaches;
  }

  /** A pseudo-legal move never takes a king that is not in check: a capture would be an attack. */
  lemma KingNotTaken(p: Position, m: Move)
    requires IsPseudoLegal(p, m) && OneKingEach(p.squares) && !InCheck(p.squares, p.side.Opposite())
    ensures m.to != KingSquare(p.squares, p.side.Opposite())
  {
    if Enemy(p.squares[m.to], p.side) {
      CaptureAttacks(p, m);
    }
    hide IsPseudoLegal, Attacked;
  }

  lemma PromotedKind(p: Position, m: Move)
    requires IsPseudoLegal(p, m)
    ensures Promoted(p.squares[m.from], m).Man? && Promoted(p.squares[m.from], m).color == p.side
    ensures Promoted(p.squares[m.from], m).kind.King? <==> p.squares[m.from].kind.King?
    ensures Promoted(p.squares[m.from], m).kind.Pawn? ==>
              p.squares[m.from].kind.Pawn? && Rank(m.to) != PromotionRank(p.side) && !m.flags.promotion
    ensures m.flags.enPassant || m.flags.double || m.flags.promotion ==> p.squares[m.from].kind.Pawn?
    ensures m.flags.kingCastle || m.flags.queenCastle ==> p.squares[m.from].kind.King?
  {
    hide InCheck, Attacked, CanCastleKing, CanCastleQueen;
  }

  lemma KingsKept(p: Position, m: Move)
    requires IsPseudoLegal(p, m) && Playable(p, m) && EnPassantTruthful(p)
    requires OneKingEach(p.squares) && !InCheck(p.squares, p.side.Opposite())
    ensures OneKingEach(SquaresAfter(p, m))
    ensures KingSquare(SquaresAfter(p, m), p.side.Opposite()) == KingSquare(p.squares, p.side.Opposite())
  {
    var after := SquaresAfter(p, m);
    var own, enemy := KingSquare(p.squares, p.side), KingSquare(p.squares, p.side.Opposite());
    var moved := if m.from == own then m.to else own;
    KingNotTaken(p, m);
    PromotedKind(p, m);
    OwnTargetFree(p, m);
    forall square | 0 <= square < 64
      ensures after[square] == Man(p.side, King) <==> square == moved
      ensures after[square] == Man(p.side.Opposite(), King) <==> square == enemy
    {
      hide IsPseudoLegal, InCheck, SquaresAfter, KingSquare;
      if m.flags.kingCastle || m.flags.queenCastle {
        CastleSquareAfter(p, m, square);
      } else {
        PlainSquareAfter(p, m, square);
      }
    }
    OnlyKingFound(after, p.side, moved);
    OnlyKingFound(after, p.side.Opposite(), enemy);
  }

  /** A move never lands on a friend, and an en-passant capture takes an enemy pawn. */
  lemma OwnTargetFree(p: Position, m: Move)
    requires IsPseudoLegal(p, m) && EnPassantTruthful(p)
    ensures !Own(p.squares[m.to], p.side)
    ensures m.flags.enPassant ==>
              Playable(p, m) && p.squares[CapturedSquare(p, m)] == Man(p.side.Opposite(), Pawn) && p.squares[m.to] == Empty
  {
    hide InCheck, Attacked, CanCastleKing, CanCastleQueen;
    if IsCastle(p, m, p.side) {
      CastleTargetEmpty(p, m);
    }
  }

  lemma CastleTargetEmpty(p: Position, m: Move)
    requires m.to < 64 && IsCastle(p, m, p.side)
    ensures p.squares[m.to] == Empty
  {
    hide InCheck, Attacked;
  }

  // ----- pawns, rights, en passant -----

  lemma EndPawnsKept(p: Position, m: Move)
    requires IsPseudoLegal(p, m) && Playable(p, m) && NoEndPawns(p.squares)
    ensures NoEndPawns(SquaresAfter(p, m))
  {
    var after := SquaresAfter(p, m);
    PromotedKind(p, m);
    if p.squares[m.from].kind.Pawn? {
      PawnAdvances(p, m);
    }
    forall square | 0 <= square < 64 && after[square].Man? && after[square].kind.Pawn?
      ensures 1 <= Rank(square) <= 6
    {
      hide IsPseudoLegal, InCheck, SquaresAfter;
      if m.flags.kingCastle || m.flags.queenCastle {
        CastleSquareAfter(p, m, square);
      } else {
        PlainSquareAfter(p, m, square);
      }
    }
  }

  lemma PawnAdvances(p: Position, m: Move)
    requires IsPseudoLegal(p, m) && p.squares[m.from].kind.Pawn?
    ensures if p.side.White? then Rank(m.to) > Rank(m.from) else Rank(m.to) < Rank(m.from)
  {
  }

  lemma HomeManStays(p: Position, m: Move, square: nat)
    requires IsPseudoLegal(p, m) && Playable(p, m) && EnPassantTruthful(p) && square < 64
    requires OneKingEach(p.squares) && !InCheck(p.squares, p.side.Opposite())
    requires p.squares[square].Man? && !p.squares[square].kind.Pawn?
    requires p.squares[square].kind.King? || !Touches(m, square)
    requires !(p.squares[square].color == p.side && p.squares[m.from].kind.King?)
    ensures SquaresAfter(p, m)[square] == p.squares[square]
  {
    KingNotTaken(p, m);
    OwnTargetFree(p, m);
    hide IsPseudoLegal, InCheck, SquaresAfter, KingSquare, PieceAt;
    if m.flags.kingCastle || m.flags.queenCastle {
      CastleSquareAfter(p, m, square);
    } else {
      PlainSquareAfter(p, m, square);
    }
  }

  lemma RightsKept(p: Position, m: Move)
    requires IsPseudoLegal(p, m) && Playable(p, m) && EnPassantTruthful(p) && RightsTruthful(p.squares, p.rights)
    requires OneKingEach(p.squares) && !InCheck(p.squares, p.side.Opposite())
    ensures RightsTruthful(SquaresAfter(p, m), RightsAfter(p, m))
  {
    hide IsPseudoLegal, InCheck, SquaresAfter, OneKingEach, EnPassantTruthful;
    var rights := RightsAfter(p, m);
    if rights.whiteKing || rights.whiteQueen {
      HomeManStays(p, m, 4);
    }
    if rights.blackKing || rights.blackQueen {
      HomeManStays(p, m, 60);
    }
    if rights.whiteKing {
      HomeManStays(p, m, 7);
    }
    if rights.whiteQueen {
      HomeManStays(p, m, 0);
    }
    if rights.blackKing {
      HomeManStays(p, m, 63);
    }
    if rights.blackQueen {
      HomeManStays(p, m, 56);
    }
  }

  lemma EnPassantKept(p: Position, m: Move)
    requires IsPseudoLegal(p, m) && Playable(p, m)
    ensures EnPassantTruthful(Play(p, m))
  {
    hide InCheck, Attacked, PositionKey, RightsAfter, SquaresAfter;
    if m.flags.double {
      DoublePush(p, m);
      hide IsPseudoLegal;
    }
  }

  lemma DoublePush(p: Position, m: Move)
    requires IsPseudoLegal(p, m) && Playable(p, m) && m.flags.double
    ensures m.to == m.from + 16 * Forward(p.side) && Rank(m.from) == StartRank(p.side)
    ensures SquaresAfter(p, m)[m.to] == Man(p.side, Pawn)
    ensures SquaresAfter(p, m)[m.from + 8 * Forward(p.side)] == Empty
  {
    PromotedKind(p, m);
    assert IsPawnMove(p, m, p.side);
    SquareOfCoordinates(m.from);
    SquareOfCoordinates(m.to);
    PlainSquareAfter(p, m, m.to);
    PlainSquareAfter(p, m, m.from + 8 * Forward(p.side));
  }

  // ----- the theorem for one move -----

  /** A legal move from a well-formed position leads to a well-formed position, with the mover's king
      safe. */
  lemma LegalMoveKeepsWellFormed(p: Position, m: Move)
    requires WellFormed(p) && IsLegal(p, m)
    ensures WellFormed(Play(p, m)) && !InCheck(Play(p, m).squares, p.side)
  {
    hide IsPseudoLegal, InCheck, SquaresAfter, KingSquare, PositionKey, RightsTruthful, OneKingEach, NoEndPawns,
         EnPassantTruthful, RightsAfter;
    KingsKept(p, m);
    EndPawnsKept(p, m);
    RightsKept(p, m);
    EnPassantKept(p, m);
    PlayKeepsKey(p, m);
  }

  lemma PlayKeepsKey(p: Position, m: Move)
    requires Playable(p, m)
    ensures KeyTruthful(Play(p, m)) && Play(p, m).halfmove < 0x1_0000
  {
    hide PositionKey, SquaresAfter, RightsAfter, Playable;
  }

  // ----- men on the board -----

  function Men(squares: seq<Piece>): nat {
    if squares == [] then 0 else (if squares[0].Man? then 1 else 0) + Men(squares[1..])
  }

  lemma {:induction false} MenUpdated(squares: seq<Piece>, index: nat, piece: Piece)
    requires index < |squares|
    ensures Men(squares[index := piece]) + (if squares[index].Man? then 1 else 0) ==
            Men(squares) + (if piece.Man? then 1 else 0)
  {
    if index == 0 {
      assert squares[0 := piece] == [piece] + squares[1..];
    } else {
      MenUpdated(squares[1..], index - 1, piece);
      assert squares[index := piece] == [squares[0]] + squares[1..][index - 1 := piece];
    }
  }

  /** The number of men drops by one on a capture and stays the same on every other move. */
  lemma MenAfter(p: Position, m: Move)
    requires IsPseudoLegal(p, m) && Playable(p, m) && EnPassantTruthful(p)
    ensures Men(SquaresAfter(p, m)) + (if m.flags.capture then 1 else 0) == Men(p.squares)
  {
    PromotedKind(p, m);
    OwnTargetFree(p, m);
    CaptureFlagExact(p, m);
    var moving := p.squares[m.from];
    var home := HomeRank(p.side);
    if m.flags.kingCastle || m.flags.queenCastle {
      CastleSquareAfter(p, m, m.to);
    }
    hide IsPseudoLegal, InCheck;
    var cleared := if m.flags.enPassant then p.squares[CapturedSquare(p, m) := Empty] else p.squares;
    if m.flags.enPassant {
      MenUpdated(p.squares, CapturedSquare(p, m), Empty);
    }
    MenUpdated(cleared, m.from, Empty);
    var lifted := cleared[m.from := Empty];
    MenUpdated(lifted, m.to, Promoted(moving, m));
    var moved := lifted[m.to := Promoted(moving, m)];
    if m.flags.kingCastle {
      MenUpdated(moved, home + 5, moved[home + 7]);
      MenUpdated(moved[home + 5 := moved[home + 7]], home + 7, Empty);
    } else if m.flags.queenCastle {
      MenUpdated(moved, home + 3, moved[home]);
      MenUpdated(moved[home + 3 := moved[home]], home, Empty);
    }
  }

  lemma CaptureFlagExact(p: Position, m: Move)
    requires IsPseudoLegal(p, m)
    ensures m.flags.capture <==> p.squares[m.to].Man? || m.flags.enPassant
    ensures m.from != m.to
    ensures !(m.flags.kingCastle && m.flags.queenCastle)
  {
    hide InCheck, Attacked, CanCastleKing, CanCastleQueen;
    if IsCastle(p, m, p.side) {
      CastleTargetEmpty(p, m);
    }
    assert Own(p.squares[m.from], p.side);
  }

  // ----- runs -----

  ghost predicate IsLegalRun(p: Position, moves: seq<Move>)
    decreases |moves|
  {
    moves == [] || (IsLegal(p, moves[0]) && IsLegalRun(Play(p, moves[0]), moves[1..]))
  }

  ghost function PlayAll(p: Position, moves: seq<Move>): Position
    requires IsLegalRun(p, moves)
    decreases |moves|
  {
    if moves == [] then p else PlayAll(Play(p, moves[0]), moves[1..])
  }

  function CapturesIn(moves: seq<Move>): nat {
    if moves == [] then 0 else (if moves[0].flags.capture then 1 else 0) + CapturesIn(moves[1..])
  }

  /** Every run of legal moves from a well-formed position stays well formed, never leaves the side
      that just moved in check, and loses exactly one man per capture. */
  lemma {:induction false} RunKeepsWellFormed(p: Position, moves: seq<Move>)
    requires WellFormed(p) && IsLegalRun(p, moves)
    ensures WellFormed(PlayAll(p, moves))
    ensures !InCheck(PlayAll(p, moves).squares, PlayAll(p, moves).side.Opposite())
    ensures Men(PlayAll(p, moves).squares) + CapturesIn(moves) == Men(p.squares)
    decreases |moves|
  {
    hide IsPseudoLegal, InCheck, SquaresAfter;
    if moves != [] {
      LegalMoveKeepsWellFormed(p, moves[0]);
      MenAfter(p, moves[0]);
      RunKeepsWellFormed(Play(p, moves[0]), moves[1..]);
    }
  }
}
