/** The value side of the chess core: pieces, squares, moves, positions and board geometry.

    A position is an immutable value; the class `Board` keeps one in mutable fields. Empty squares
    hold the single value `Empty`, and the four castling bits are four booleans. */
module Positions {

  datatype Color = White | Black {
    function Opposite(): Color {
      if White? then Black else White
    }
  }

  datatype Kind = Pawn | Knight | Bishop | Rook | Queen | King

  datatype Piece = Empty | Man(color: Color, kind: Kind)

  datatype Option<+T> = None | Some(value: T)

  /** Sixty-four squares, a1 first and h8 last. */
  type Squares = s: seq<Piece> | |s| == 64 witness seq(64, _ => Empty)

  const NO_SQUARE: nat := 64

  datatype Rights = Rights(whiteKing: bool, whiteQueen: bool, blackKing: bool, blackQueen: bool)

  datatype Flags = Flags(capture: bool, double: bool, kingCastle: bool, queenCastle: bool,
                         enPassant: bool, promotion: bool)

  const QUIET := Flags(false, false, false, false, false, false)
  const CAPTURE := QUIET.(capture := true)

  datatype Move = Move(from: nat, to: nat, promotion: Option<Kind>, flags: Flags)

  datatype Position = Position(squares: Squares, side: Color, rights: Rights, enPassant: nat,
                               halfmove: nat, fullmove: nat, hash: bv64, history: seq<bv64>)

  datatype Undo = Undo(captured: Piece, capturedSquare: nat, enPassant: nat, rights: Rights,
                       halfmove: nat, fullmove: nat, hash: bv64)

  // ----- geometry -----

  function File(square: nat): nat {
    square % 8
  }

  function Rank(square: nat): nat {
    square / 8
  }

  predicate OnBoard(file: int, rank: int) {
    0 <= file < 8 && 0 <= rank < 8
  }

  function SquareAt(file: int, rank: int): (square: nat)
    requires OnBoard(file, rank)
    ensures square < 64 && File(square) == file && Rank(square) == rank
  {
    rank * 8 + file
  }

  /** The piece at a file and rank; off-board coordinates read as empty. */
  function PieceAt(squares: Squares, file: int, rank: int): Piece {
    if OnBoard(file, rank) then squares[SquareAt(file, rank)] else Empty
  }

  lemma SquareOfCoordinates(square: nat)
    requires square < 64
    ensures OnBoard(File(square), Rank(square))
    ensures SquareAt(File(square), Rank(square)) == square
  {
  }

  /** A compass direction; the first four are rook directions and the last four bishop ones. */
  type Dir = d: nat | d < 8

  predicate Diagonal(dir: Dir) {
    dir >= 4
  }

  /** The file displacement of `distance` steps in direction `dir`. */
  function StepFile(dir: Dir, distance: int): int {
    if dir == 0 || dir == 4 || dir == 5 then distance
    else if dir == 2 || dir == 3 then 0
    else -distance
  }

  /** The rank displacement of `distance` steps in direction `dir`. */
  function StepRank(dir: Dir, distance: int): int {
    if dir == 2 || dir == 4 || dir == 6 then distance
    else if dir < 2 then 0
    else -distance
  }

  function Reverse(dir: Dir): (opposite: Dir)
    ensures Diagonal(opposite) <==> Diagonal(dir)
    ensures forall distance :: StepFile(opposite, distance) == -StepFile(dir, distance)
    ensures forall distance :: StepRank(opposite, distance) == -StepRank(dir, distance)
  {
    if dir >= 4 then 11 - dir else if dir % 2 == 0 then dir + 1 else dir - 1
  }

  function KnightFile(index: Dir): int {
    [1, 2, 2, 1, -1, -2, -2, -1][index]
  }

  function KnightRank(index: Dir): int {
    [2, 1, -1, -2, -2, -1, 1, 2][index]
  }

  function ReverseJump(index: Dir): (opposite: Dir)
    ensures KnightFile(opposite) == -KnightFile(index)
    ensures KnightRank(opposite) == -KnightRank(index)
  {
    if index < 4 then index + 4 else index - 4
  }

  function Forward(color: Color): int {
    if color.White? then 1 else -1
  }

  /** The square `step` steps out is on the board and empty. */
  predicate Vacant(squares: Squares, file: int, rank: int, dir: Dir, step: int) {
    OnBoard(file + StepFile(dir, step), rank + StepRank(dir, step)) &&
    PieceAt(squares, file + StepFile(dir, step), rank + StepRank(dir, step)) == Empty
  }

  /** Every square strictly between the origin and the one `distance` steps away is vacant. */
  ghost predicate OpenRay(squares: Squares, file: int, rank: int, dir: Dir, distance: int) {
    forall step | 0 < step < distance :: Vacant(squares, file, rank, dir, step)
  }

  lemma VacantReverses(squares: Squares, file: int, rank: int, dir: Dir, distance: int, step: int)
    ensures Vacant(squares, file + StepFile(dir, distance), rank + StepRank(dir, distance), Reverse(dir), step)
            == Vacant(squares, file, rank, dir, distance - step)
  {
    assert StepFile(dir, distance) - StepFile(dir, step) == StepFile(dir, distance - step);
    assert StepRank(dir, distance) - StepRank(dir, step) == StepRank(dir, distance - step);
  }

  /** An open ray read from its other end is open. */
  lemma OpenRayReverses(squares: Squares, file: int, rank: int, dir: Dir, distance: int)
    requires OpenRay(squares, file, rank, dir, distance)
    ensures OpenRay(squares, file + StepFile(dir, distance), rank + StepRank(dir, distance),
                    Reverse(dir), distance)
  {
    var farFile, farRank, back := file + StepFile(dir, distance), rank + StepRank(dir, distance), Reverse(dir);
    hide Vacant, StepFile, StepRank, Reverse;
    forall step | 0 < step < distance
      ensures Vacant(squares, farFile, farRank, back, step)
    {
      VacantReverses(squares, file, rank, dir, distance, step);
    }
  }

  // ----- what it means for a piece to reach a square -----

  /** The man on `from` bears on the square `to`: the definition both the attack test and move
      generation are measured against. */
  ghost predicate Reaches(squares: Squares, from: nat, to: nat)
    requires from < 64 && to < 64
  {
    match squares[from]
    case Empty => false
    case Man(color, kind) =>
      match kind
      case Pawn =>
        Rank(to) == Rank(from) + Forward(color) && (File(to) == File(from) + 1 || File(to) == File(from) - 1)
      case Knight => exists jump: Dir :: Jumps(from, to, jump)
      case Bishop => exists dir: Dir, distance: nat :: Diagonal(dir) && Slides(squares, from, to, dir, distance)
      case Rook => exists dir: Dir, distance: nat :: !Diagonal(dir) && Slides(squares, from, to, dir, distance)
      case Queen => exists dir: Dir, distance: nat :: Slides(squares, from, to, dir, distance)
      case King => exists dir: Dir :: Adjoins(from, to, dir)
  }

  ghost predicate Jumps(from: nat, to: nat, jump: Dir) {
    File(to) == File(from) + KnightFile(jump) && Rank(to) == Rank(from) + KnightRank(jump)
  }

  ghost predicate Adjoins(from: nat, to: nat, dir: Dir) {
    File(to) == File(from) + StepFile(dir, 1) && Rank(to) == Rank(from) + StepRank(dir, 1)
  }

  ghost predicate Slides(squares: Squares, from: nat, to: nat, dir: Dir, distance: nat) {
    && 0 < distance < 8
    && File(to) == File(from) + StepFile(dir, distance)
    && Rank(to) == Rank(from) + StepRank(dir, distance)
    && OpenRay(squares, File(from), Rank(from), dir, distance)
  }

  ghost predicate Attacked(squares: Squares, square: nat, attacker: Color)
    requires square < 64
  {
    exists from :: 0 <= from < 64 && squares[from].Man? && squares[from].color == attacker && Reaches(squares, from, square)
  }

  /** The first square holding the king of a colour, or `NO_SQUARE`. */
  function KingFrom(squares: Squares, color: Color, start: nat): (square: nat)
    requires start <= 64
    ensures start <= square <= 64
    ensures square < 64 ==> squares[square] == Man(color, King)
    ensures forall other :: start <= other < square ==> squares[other] != Man(color, King)
    decreases 64 - start
  {
    if start == 64 then 64
    else if squares[start] == Man(color, King) then start
    else KingFrom(squares, color, start + 1)
  }

  function KingSquare(squares: Squares, color: Color): nat {
    KingFrom(squares, color, 0)
  }

  ghost predicate InCheck(squares: Squares, color: Color) {
    var king := KingSquare(squares, color);
    king < 64 && Attacked(squares, king, color.Opposite())
  }
}
