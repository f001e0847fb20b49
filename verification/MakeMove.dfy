/** Playing and taking back a move on position values, with the position key. */
module MakeMove {
  import opened Positions
  import opened MoveGen

  // ----- the position key -----

  /** The 64-bit mixing step of the key, with wrap-around arithmetic: folds between products. */
  function Mix(value: bv64): bv64 {
    FoldLast(TimesSecond(FoldSecond(TimesFirst(FoldFirst(value + 0x9e3779b97f4a7c15)))))
  }

  function FoldFirst(x: bv64): bv64 {
    x ^ (x >> 30)
  }

  function TimesFirst(x: bv64): bv64 {
    x * 0xbf58476d1ce4e5b9
  }

  function FoldSecond(x: bv64): bv64 {
    x ^ (x >> 27)
  }

  function TimesSecond(x: bv64): bv64 {
    x * 0x94d049bb133111eb
  }

  function FoldLast(x: bv64): bv64 {
    x ^ (x >> 31)
  }

  function Xor(a: bv64, b: bv64): bv64 {
    a ^ b
  }

  /** What a numbered thing adds to the key. */
  function CodeKey(code: nat): bv64
    requires code < 0x1_0000_0000_0000_0000
  {
    Mix(code as bv64)
  }

  function KindCode(kind: Kind): nat {
    match kind
    case Pawn => 1
    case Knight => 2
    case Bishop => 3
    case Rook => 4
    case Queen => 5
    case King => 6
  }

  function SquareKey(piece: Piece, square: nat): bv64
    requires square < 64
  {
    match piece
    case Empty => 0
    case Man(color, kind) => CodeKey((KindCode(kind) + if color.Black? then 8 else 0) * 64 + square)
  }

  function SquaresKey(squares: Squares, upTo: nat): bv64
    requires upTo <= 64
  {
    if upTo == 0 then 0 else Xor(SquaresKey(squares, upTo - 1), SquareKey(squares[upTo - 1], upTo - 1))
  }

  function RightsBits(rights: Rights): nat {
    (if rights.whiteKing then 1 else 0) + (if rights.whiteQueen then 2 else 0) +
    (if rights.blackKing then 4 else 0) + (if rights.blackQueen then 8 else 0)
  }

  /** Whether the side to move has a pawn beside the en-passant square. */
  predicate EnPassantCapturable(squares: Squares, side: Color, enPassant: nat) {
    || PieceAt(squares, File(enPassant) - 1, Rank(enPassant) - Forward(side)) == Man(side, Pawn)
    || PieceAt(squares, File(enPassant) + 1, Rank(enPassant) - Forward(side)) == Man(side, Pawn)
  }

  function RightsKey(rights: Rights): bv64 {
    CodeKey(1024 + RightsBits(rights))
  }

  function EnPassantKey(squares: Squares, side: Color, enPassant: nat): bv64 {
    if enPassant != NO_SQUARE && EnPassantCapturable(squares, side, enPassant)
    then CodeKey(2048 + File(enPassant)) else 0
  }

  function SideKey(side: Color): bv64 {
    if side.Black? then CodeKey(4096) else 0
  }

  function PositionKey(squares: Squares, side: Color, rights: Rights, enPassant: nat): bv64 {
    Xor(Xor(Xor(SquaresKey(squares, 64), RightsKey(rights)), EnPassantKey(squares, side, enPassant)), SideKey(side))
  }

  // ----- playing a move -----

  function CapturedSquare(p: Position, m: Move): int
    requires m.from < 64 && m.to < 64 && p.squares[m.from].Man?
  {
    if m.flags.enPassant then m.to - 8 * Forward(p.squares[m.from].color) else m.to
  }

  /** A move the program can play: its source holds a man of the side to move, and the pawn an
      en-passant capture removes is on the board. */
  predicate Playable(p: Position, m: Move) {
    && m.from < 64 && m.to < 64 && Own(p.squares[m.from], p.side)
    && 0 <= CapturedSquare(p, m) < 64
  }

  function Promoted(moving: Piece, m: Move): Piece
    requires moving.Man?
  {
    if !m.flags.promotion then moving
    else if m.promotion.Some? then Man(moving.color, m.promotion.value) else Empty
  }

  function SquaresAfter(p: Position, m: Move): Squares
    requires Playable(p, m)
  {
    var moving := p.squares[m.from];
    var home := HomeRank(moving.color);
    var cleared := if m.flags.enPassant then p.squares[CapturedSquare(p, m) := Empty] else p.squares;
    var moved := cleared[m.from := Empty][m.to := Promoted(moving, m)];
    if m.flags.kingCastle then moved[home + 5 := moved[home + 7]][home + 7 := Empty]
    else if m.flags.queenCastle then moved[home + 3 := moved[home]][home := Empty]
    else moved
  }

  function Touches(m: Move, square: nat): bool {
    m.from == square || m.to == square
  }

  function RightsAfter(p: Position, m: Move): Rights
    requires Playable(p, m)
  {
    var king := p.squares[m.from].kind.King?;
    var white := p.squares[m.from].color.White?;
    Rights(p.rights.whiteKing && !(king && white) && !Touches(m, 7),
           p.rights.whiteQueen && !(king && white) && !Touches(m, 0),
           p.rights.blackKing && !(king && !white) && !Touches(m, 63),
           p.rights.blackQueen && !(king && !white) && !Touches(m, 56))
  }

  function Play(p: Position, m: Move): Position
    requires Playable(p, m)
  {
    var squares := SquaresAfter(p, m);
    var rights := RightsAfter(p, m);
    var side := p.side.Opposite();
    var enPassant := if m.flags.double then (m.from + m.to) / 2 else NO_SQUARE;
    var quiet := !p.squares[m.from].kind.Pawn? && p.squares[CapturedSquare(p, m)] == Empty;
    var key := PositionKey(squares, side, rights, enPassant);
    Position(squares, side, rights, enPassant,
             if quiet then (p.halfmove + 1) % 0x1_0000 else 0,
             if p.side.Black? then (p.fullmove + 1) % 0x1_0000 else p.fullmove,
             key, p.history + [key])
  }

  function UndoOf(p: Position, m: Move): Undo
    requires Playable(p, m)
  {
    Undo(p.squares[CapturedSquare(p, m)], CapturedSquare(p, m), p.enPassant, p.rights,
         p.halfmove, p.fullmove, p.hash)
  }

  // ----- taking a move back -----

  function SquaresBefore(squares: Squares, m: Move, undo: Undo): Squares
    requires m.from < 64 && m.to < 64 && undo.capturedSquare < 64 && squares[m.to].Man?
  {
    var moving := squares[m.to];
    var home := HomeRank(moving.color);
    var back := squares[m.from := if m.flags.promotion then Man(moving.color, Pawn) else moving][m.to := Empty];
    var restored := if undo.captured != Empty then back[undo.capturedSquare := undo.captured] else back;
    if m.flags.kingCastle then restored[home + 7 := restored[home + 5]][home + 5 := Empty]
    else if m.flags.queenCastle then restored[home := restored[home + 3]][home + 3 := Empty]
    else restored
  }

  function TakeBack(p: Position, m: Move, undo: Undo): Position
    requires m.from < 64 && m.to < 64 && undo.capturedSquare < 64 && p.squares[m.to].Man?
  {
    Position(SquaresBefore(p.squares, m, undo), p.side.Opposite(), undo.rights, undo.enPassant,
             undo.halfmove, undo.fullmove, undo.hash,
             if |p.history| > 1 then p.history[..|p.history| - 1] else p.history)
  }

  // ----- taking back undoes playing -----

  /** The en-passant square, when there is one, is an empty square with an enemy pawn just past it. */
  predicate EnPassantTruthful(p: Position) {
    p.enPassant != NO_SQUARE ==>
      && p.enPassant < 64 && p.squares[p.enPassant] == Empty
      && Rank(p.enPassant) == (if p.side.White? then 5 else 2)
      && p.squares[p.enPassant - 8 * Forward(p.side)] == Man(p.side.Opposite(), Pawn)
  }

  lemma PseudoLegalPlayable(p: Position, m: Move)
    requires IsPseudoLegal(p, m) && EnPassantTruthful(p)
    ensures Playable(p, m)
    ensures SquaresAfter(p, m)[m.to] == Promoted(p.squares[m.from], m)
    ensures SquaresAfter(p, m)[m.to].Man? && SquaresAfter(p, m)[m.to].color == p.side
  {
    hide InCheck, Attacked;
  }

  lemma PlainSquaresRestored(p: Position, m: Move)
    requires IsPseudoLegal(p, m) && EnPassantTruthful(p)
    requires !m.flags.kingCastle && !m.flags.queenCastle
    ensures Playable(p, m) && SquaresAfter(p, m)[m.to].Man?
    ensures SquaresBefore(SquaresAfter(p, m), m, UndoOf(p, m)) == p.squares
  {
    PseudoLegalPlayable(p, m);
    assert m.flags.promotion ==> p.squares[m.from] == Man(p.side, Pawn);
    assert m.flags.enPassant ==> p.squares[m.to] == Empty && CapturedSquare(p, m) != m.from;
  }

  lemma CastleSquaresRestored(p: Position, m: Move)
    requires IsPseudoLegal(p, m) && (m.flags.kingCastle || m.flags.queenCastle)
    ensures Playable(p, m) && SquaresAfter(p, m)[m.to].Man?
    ensures SquaresBefore(SquaresAfter(p, m), m, UndoOf(p, m)) == p.squares
  {
    hide InCheck, Attacked, Reaches;
    assert IsCastle(p, m, p.side);
    var home := HomeRank(p.side);
    var after := SquaresAfter(p, m);
    if m.flags.kingCastle {
      assert after == p.squares[home + 4 := Empty][home + 6 := Man(p.side, King)][home + 5 := Man(p.side, Rook)][home + 7 := Empty];
    } else {
      assert after == p.squares[home + 4 := Empty][home + 2 := Man(p.side, King)][home + 3 := Man(p.side, Rook)][home := Empty];
    }
  }

  lemma SquaresRestored(p: Position, m: Move)
    requires IsPseudoLegal(p, m) && EnPassantTruthful(p)
    ensures Playable(p, m) && SquaresAfter(p, m)[m.to].Man?
    ensures SquaresBefore(SquaresAfter(p, m), m, UndoOf(p, m)) == p.squares
  {
    if m.flags.kingCastle || m.flags.queenCastle {
      CastleSquaresRestored(p, m);
    } else {
      PlainSquaresRestored(p, m);
    }
  }

  /** Taking back the move just played restores the whole position, key and history included. */
  lemma TakeBackUndoesPlay(p: Position, m: Move)
    requires IsPseudoLegal(p, m) && EnPassantTruthful(p) && p.history != []
    ensures Playable(p, m) && Play(p, m).squares[m.to].Man?
    ensures TakeBack(Play(p, m), m, UndoOf(p, m)) == p
  {
    SquaresRestored(p, m);
    var key := Play(p, m).hash;
    assert (p.history + [key])[..|p.history|] == p.history;
  }
}
