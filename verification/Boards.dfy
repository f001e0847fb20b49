/** The mutable board: its scans and generators as loops, and moves played and taken back in place. */
module Boards {
  import opened Positions
  import opened MoveGen
  import opened Attacks
  import opened MakeMove
  import opened Legality
  import opened PerftSpec

  lemma RayEnds(squares: Squares, square: nat, attacker: Color, dir: Dir, distance: nat)
    requires square < 64 && 0 < distance && OpenRay(squares, File(square), Rank(square), dir, distance)
    requires !Vacant(squares, File(square), Rank(square), dir, distance)
    requires !RayHit(squares, square, attacker, dir, distance)
    requires forall k: nat :: k < distance ==> !RayHit(squares, square, attacker, dir, k)
    ensures forall k: nat :: !RayHit(squares, square, attacker, dir, k)
  {
    hide Vacant, LineAttacker;
    forall k: nat
      ensures !RayHit(squares, square, attacker, dir, k)
    {
      if k > distance {
        assert OpenRay(squares, File(square), Rank(square), dir, k) ==>
               Vacant(squares, File(square), Rank(square), dir, distance);
      }
    }
  }

  lemma RayStarts(squares: Squares, square: nat, attacker: Color, dir: Dir)
    requires square < 64
    ensures OpenRay(squares, File(square), Rank(square), dir, 1) && !RayHit(squares, square, attacker, dir, 0)
  {
  }

  lemma RayContinues(squares: Squares, square: nat, attacker: Color, dir: Dir, distance: nat)
    requires square < 64 && 1 <= distance < 8 && OpenRay(squares, File(square), Rank(square), dir, distance)
    requires Vacant(squares, File(square), Rank(square), dir, distance)
    ensures OpenRay(squares, File(square), Rank(square), dir, distance + 1)
    ensures !RayHit(squares, square, attacker, dir, distance)
    ensures OnBoard(File(square) + StepFile(dir, distance), Rank(square) + StepRank(dir, distance))
  {
    OpenRayExtends(squares, File(square), Rank(square), dir, distance);
  }

  lemma RayOffBoard(squares: Squares, square: nat, attacker: Color, dir: Dir, distance: nat)
    requires square < 64 && !OnBoard(File(square) + StepFile(dir, distance), Rank(square) + StepRank(dir, distance))
    ensures !RayHit(squares, square, attacker, dir, distance)
    ensures !Vacant(squares, File(square), Rank(square), dir, distance)
  {
  }

  lemma Concat3<T>(a: seq<T>, b: seq<T>, c: seq<T>)
    ensures a + b + c == a + (b + c)
  {
  }

  lemma Concat4<T>(a: seq<T>, b: seq<T>, c: seq<T>, d: seq<T>)
    ensures a + b + c + d == a + (b + c + d)
  {
  }

  lemma KnightMovesStep(p: Position, from: nat, color: Color, index: nat)
    requires from < 64 && index <= 8
    ensures KnightMoves(p, from, color, index) ==
            if index == 8 then []
            else StepTo(p, from, color, File(from) + KnightFile(index), Rank(from) + KnightRank(index)) +
                 KnightMoves(p, from, color, index + 1)
  {
  }

  lemma KingStepsStep(p: Position, from: nat, color: Color, index: nat)
    requires from < 64 && index <= 8
    ensures KingSteps(p, from, color, index) ==
            if index == 8 then []
            else StepTo(p, from, color, File(from) + StepFile(index, 1), Rank(from) + StepRank(index, 1)) +
                 KingSteps(p, from, color, index + 1)
  {
  }

  lemma RayOnBoard(from: nat, dir: Dir, distance: nat)
    requires from < 64 && OnBoard(File(from) + StepFile(dir, distance), Rank(from) + StepRank(dir, distance))
    ensures distance < 8
  {
  }

  lemma {:induction false} RayMovesOff(p: Position, from: nat, color: Color, dir: Dir, distance: nat)
    requires from < 64 && 1 <= distance <= 8
    requires !OnBoard(File(from) + StepFile(dir, distance), Rank(from) + StepRank(dir, distance))
    ensures RayMoves(p, from, color, dir, distance) == []
  {
    RayMovesStep(p, from, color, dir, distance);
  }

  lemma NothingVisible(squares: Squares, square: nat, attacker: Color)
    requires square < 64
    requires !PawnHit(squares, square, attacker, -1) && !PawnHit(squares, square, attacker, 1)
    requires forall jump: Dir :: !KnightHit(squares, square, attacker, jump)
    requires forall dir: Dir, k: nat :: !RayHit(squares, square, attacker, dir, k)
    ensures !Attacked(squares, square, attacker)
  {
    OutwardScanExact(squares, square, attacker);
  }

  class Board {
    const squares: array<Piece>
    var side: Color
    var rights: Rights
    var enPassant: nat
    var halfmove: nat
    var fullmove: nat
    var hash: bv64
    var history: seq<bv64>

    predicate Valid() {
      squares.Length == 64
    }

    /** The position the board currently holds. */
    function Pos(): Position
      requires Valid()
      reads this, squares
    {
      Position(squares[..], side, rights, enPassant, halfmove, fullmove, hash, history)
    }

    constructor (p: Position)
      ensures Valid() && Pos() == p && fresh(squares)
    {
      squares := new Piece[64](i requires 0 <= i < 64 => p.squares[i]);
      side, rights, enPassant := p.side, p.rights, p.enPassant;
      halfmove, fullmove, hash, history := p.halfmove, p.fullmove, p.hash, p.history;
      new;
      assert squares[..] == p.squares;
    }

    method KingSquareOf(color: Color) returns (king: nat)
      requires Valid()
      ensures king == KingSquare(squares[..], color)
    {
      king := 0;
      while king < 64
        invariant king <= 64
        invariant KingSquare(squares[..], color) == KingFrom(squares[..], color, king)
      {
        if squares[king] == Man(color, King) {
          return;
        }
        king := king + 1;
      }
    }

    /** The outward scan: pawns, knights, then the eight lines until something blocks them. */
    method IsSquareAttacked(square: nat, attacker: Color) returns (attacked: bool)
      requires Valid() && square < 64
      ensures attacked <==> Attacked(squares[..], square, attacker)
    {
      ghost var board := squares[..];
      attacked := PawnAttacked(square, attacker);
      if attacked {
        return;
      }
      attacked := KnightAttacked(square, attacker);
      if attacked {
        return;
      }
      hide RayHit, PawnHit, KnightHit;
      for dir := 0 to 8
        invariant forall d: Dir, k: nat :: d < dir ==> !RayHit(board, square, attacker, d, k)
      {
        attacked := LineAttacked(square, attacker, dir);
        assert squares[..] == board;
        if attacked {
          return true;
        }
      }
      NothingVisible(board, square, attacker);
      return false;
    }

    method PawnAttacked(square: nat, attacker: Color) returns (attacked: bool)
      requires Valid() && square < 64
      ensures attacked ==> Attacked(squares[..], square, attacker)
      ensures !attacked ==> !PawnHit(squares[..], square, attacker, -1) && !PawnHit(squares[..], square, attacker, 1)
    {
      hide Attacked, File, Rank;
      ghost var board := squares[..];
      var deltas := [-1, 1];
      for i := 0 to 2
        invariant i > 0 ==> !PawnHit(board, square, attacker, -1)
        invariant i > 1 ==> !PawnHit(board, square, attacker, 1)
      {
        var sourceFile, sourceRank := File(square) + deltas[i], Rank(square) - Forward(attacker);
        assert PawnHit(board, square, attacker, deltas[i]) <==>
               PieceAt(board, sourceFile, sourceRank) == Man(attacker, Pawn);
        if OnBoard(sourceFile, sourceRank) && squares[SquareAt(sourceFile, sourceRank)] == Man(attacker, Pawn) {
          PawnHitReaches(board, square, attacker, deltas[i]);
          return true;
        }
      }
      return false;
    }

    method KnightAttacked(square: nat, attacker: Color) returns (attacked: bool)
      requires Valid() && square < 64
      ensures attacked ==> Attacked(squares[..], square, attacker)
      ensures !attacked ==> forall jump: Dir :: !KnightHit(squares[..], square, attacker, jump)
    {
      hide KnightFile, KnightRank, File, Rank;
      ghost var board := squares[..];
      for jump := 0 to 8
        invariant forall j: Dir :: j < jump ==> !KnightHit(board, square, attacker, j)
      {
        var sourceFile, sourceRank := File(square) + KnightFile(jump), Rank(square) + KnightRank(jump);
        assert KnightHit(board, square, attacker, jump) <==>
               PieceAt(board, sourceFile, sourceRank) == Man(attacker, Knight);
        if OnBoard(sourceFile, sourceRank) && squares[SquareAt(sourceFile, sourceRank)] == Man(attacker, Knight) {
          KnightHitReaches(board, square, attacker, jump);
          return true;
        }
      }
      return false;
    }

    /** One line of the outward scan: the first man met decides. */
    method LineAttacked(square: nat, attacker: Color, dir: Dir) returns (attacked: bool)
      requires Valid() && square < 64
      ensures attacked ==> Attacked(squares[..], square, attacker)
      ensures !attacked ==> forall k: nat :: !RayHit(squares[..], square, attacker, dir, k)
    {
      hide OpenRay, File, Rank, LineAttacker, Attacked;
      ghost var board := squares[..];
      var distance := 1;
      var sourceFile, sourceRank := File(square) + StepFile(dir, 1), Rank(square) + StepRank(dir, 1);
      RayStarts(board, square, attacker, dir);
      while OnBoard(sourceFile, sourceRank)
        invariant 1 <= distance <= 8
        invariant sourceFile == File(square) + StepFile(dir, distance)
        invariant sourceRank == Rank(square) + StepRank(dir, distance)
        invariant OpenRay(board, File(square), Rank(square), dir, distance)
        invariant forall k: nat :: k < distance ==> !RayHit(board, square, attacker, dir, k)
        decreases 8 - distance
      {
        var piece := squares[SquareAt(sourceFile, sourceRank)];
        assert piece == PieceAt(board, sourceFile, sourceRank);
        if piece != Empty {
          if LineAttacker(piece, attacker, dir, distance) {
            RayHitReaches(board, square, attacker, dir, distance);
            return true;
          }
          RayEnds(board, square, attacker, dir, distance);
          return false;
        }
        RayOnBoard(square, dir, distance);
        RayContinues(board, square, attacker, dir, distance);
        distance := distance + 1;
        sourceFile, sourceRank := sourceFile + StepFile(dir, 1), sourceRank + StepRank(dir, 1);
      }
      RayOffBoard(board, square, attacker, dir, distance);
      RayEnds(board, square, attacker, dir, distance);
      return false;
    }

    method IsInCheck(color: Color) returns (check: bool)
      requires Valid()
      ensures check <==> InCheck(squares[..], color)
    {
      var king := KingSquareOf(color);
      if king == NO_SQUARE {
        return false;
      }
      check := IsSquareAttacked(king, color.Opposite());
    }

    // ----- generators -----

    method AddPawnMoves(moves: seq<Move>, from: nat, color: Color) returns (result: seq<Move>)
      requires Valid() && from < 64
      ensures result == moves + PawnMoves(Pos(), from, color)
    {
      hide PawnArrivals;
      ghost var p := Pos();
      result := moves;
      if !OnBoard(File(from), Rank(from) + Forward(color)) {
        return;
      }
      result := AddPawnPushes(result, from, color);
      hide PawnTakes, PawnPushes;
      result := AddPawnTakes(result, from, color, -1);
      result := AddPawnTakes(result, from, color, 1);
      Concat4(moves, PawnPushes(p, from, color), PawnTakes(p, from, color, -1), PawnTakes(p, from, color, 1));
    }

    method AddPawnPushes(moves: seq<Move>, from: nat, color: Color) returns (result: seq<Move>)
      requires Valid() && from < 64 && OnBoard(File(from), Rank(from) + Forward(color))
      ensures result == moves + PawnPushes(Pos(), from, color)
    {
      hide PawnArrivals;
      result := moves;
      var one := SquareAt(File(from), Rank(from) + Forward(color));
      if squares[one] == Empty {
        result := result + PawnArrivals(from, one, color, QUIET);
        if Rank(from) == StartRank(color) {
          var two := SquareAt(File(from), Rank(from) + 2 * Forward(color));
          if squares[two] == Empty {
            result := result + [Move(from, two, None, QUIET.(double := true))];
          }
        }
      }
    }

    method AddPawnTakes(moves: seq<Move>, from: nat, color: Color, deltaFile: int) returns (result: seq<Move>)
      requires Valid() && from < 64 && OnBoard(File(from), Rank(from) + Forward(color))
      ensures result == moves + PawnTakes(Pos(), from, color, deltaFile)
    {
      hide PawnArrivals;
      result := moves;
      var targetFile, nextRank := File(from) + deltaFile, Rank(from) + Forward(color);
      if OnBoard(targetFile, nextRank) {
        var target := SquareAt(targetFile, nextRank);
        if Enemy(squares[target], color) {
          result := result + PawnArrivals(from, target, color, CAPTURE);
        } else if target == enPassant {
          result := result + PawnArrivals(from, target, color, CAPTURE.(enPassant := true));
        }
      }
    }

    /** Adds the move to one square unless it is off the board or holds a friend. */
    method AddStep(moves: seq<Move>, from: nat, color: Color, file: int, rank: int) returns (result: seq<Move>)
      requires Valid()
      ensures result == moves + StepTo(Pos(), from, color, file, rank)
    {
      result := moves;
      if OnBoard(file, rank) {
        var target := SquareAt(file, rank);
        if !Own(squares[target], color) {
          result := result + [Move(from, target, None, PlainFlags(squares[target]))];
        }
      }
    }

    method AddKnightMoves(moves: seq<Move>, from: nat, color: Color) returns (result: seq<Move>)
      requires Valid() && from < 64
      ensures result == moves + KnightMoves(Pos(), from, color, 0)
    {
      hide StepTo, KnightMoves, KnightFile, KnightRank, File, Rank;
      ghost var p := Pos();
      result := moves;
      for index := 0 to 8
        invariant result + KnightMoves(p, from, color, index) == moves + KnightMoves(p, from, color, 0)
      {
        KnightMovesStep(p, from, color, index);
        var file, rank := File(from) + KnightFile(index), Rank(from) + KnightRank(index);
        Concat3(result, StepTo(p, from, color, file, rank), KnightMoves(p, from, color, index + 1));
        result := AddStep(result, from, color, file, rank);
      }
      KnightMovesStep(p, from, color, 8);
    }

    method AddSlidingMoves(moves: seq<Move>, from: nat, color: Color, dirs: seq<Dir>) returns (result: seq<Move>)
      requires Valid() && from < 64
      ensures result == moves + SlidingMoves(Pos(), from, color, dirs)
    {
      hide RayMoves;
      ghost var p := Pos();
      result := moves;
      assert dirs[0..] == dirs;
      for index := 0 to |dirs|
        invariant result + SlidingMoves(p, from, color, dirs[index..]) == moves + SlidingMoves(p, from, color, dirs)
      {
        result := AddRayMoves(result, from, color, dirs[index]);
        assert dirs[index..][1..] == dirs[index + 1..];
      }
    }

    method AddRayMoves(moves: seq<Move>, from: nat, color: Color, dir: Dir) returns (result: seq<Move>)
      requires Valid() && from < 64
      ensures result == moves + RayMoves(Pos(), from, color, dir, 1)
    {
      hide RayMoves, StepTo, File, Rank;
      ghost var p := Pos();
      result := moves;
      var distance := 1;
      var file, rank := File(from) + StepFile(dir, 1), Rank(from) + StepRank(dir, 1);
      while OnBoard(file, rank)
        invariant 1 <= distance <= 8
        invariant file == File(from) + StepFile(dir, distance) && rank == Rank(from) + StepRank(dir, distance)
        invariant result + RayMoves(p, from, color, dir, distance) == moves + RayMoves(p, from, color, dir, 1)
        decreases 8 - distance
      {
        RayMovesStep(p, from, color, dir, distance);
        RayOnBoard(from, dir, distance);
        result := AddStep(result, from, color, file, rank);
        if squares[SquareAt(file, rank)] != Empty {
          return;
        }
        file, rank, distance := file + StepFile(dir, 1), rank + StepRank(dir, 1), distance + 1;
      }
      RayMovesOff(p, from, color, dir, distance);
    }

    method AddKingMoves(moves: seq<Move>, from: nat, color: Color) returns (result: seq<Move>)
      requires Valid() && from < 64
      ensures result == moves + KingMoves(Pos(), from, color)
    {
      hide KingSteps, Castles;
      result := AddKingSteps(moves, from, color);
      result := AddCastles(result, from, color);
      assert result == moves + (KingSteps(Pos(), from, color, 0) + Castles(Pos(), from, color));
    }

    method AddKingSteps(moves: seq<Move>, from: nat, color: Color) returns (result: seq<Move>)
      requires Valid() && from < 64
      ensures result == moves + KingSteps(Pos(), from, color, 0)
    {
      hide StepTo, KingSteps, StepFile, StepRank, File, Rank;
      ghost var p := Pos();
      result := moves;
      for index := 0 to 8
        invariant result + KingSteps(p, from, color, index) == moves + KingSteps(p, from, color, 0)
      {
        KingStepsStep(p, from, color, index);
        var file, rank := File(from) + StepFile(index, 1), Rank(from) + StepRank(index, 1);
        Concat3(result, StepTo(p, from, color, file, rank), KingSteps(p, from, color, index + 1));
        result := AddStep(result, from, color, file, rank);
      }
      KingStepsStep(p, from, color, 8);
    }

    method AddCastles(moves: seq<Move>, from: nat, color: Color) returns (result: seq<Move>)
      requires Valid()
      ensures result == moves + Castles(Pos(), from, color)
    {
      hide InCheck, Attacked;
      result := moves;
      var home := HomeRank(color);
      if from != home + 4 {
        return;
      }
      var check := IsInCheck(color);
      if check {
        return;
      }
      if (if color.White? then rights.whiteKing else rights.blackKing) && squares[home + 5] == Empty &&
         squares[home + 6] == Empty && squares[home + 7] == Man(color, Rook) {
        var near := IsSquareAttacked(home + 5, color.Opposite());
        var far := IsSquareAttacked(home + 6, color.Opposite());
        if !near && !far {
          result := result + [Move(from, home + 6, None, QUIET.(kingCastle := true))];
        }
      }
      assert result == moves + if CanCastleKing(Pos(), color) then [Move(from, home + 6, None, QUIET.(kingCastle := true))] else [];
      if (if color.White? then rights.whiteQueen else rights.blackQueen) && squares[home + 3] == Empty &&
         squares[home + 2] == Empty && squares[home + 1] == Empty && squares[home] == Man(color, Rook) {
        var near := IsSquareAttacked(home + 3, color.Opposite());
        var far := IsSquareAttacked(home + 2, color.Opposite());
        if !near && !far {
          result := result + [Move(from, home + 2, None, QUIET.(queenCastle := true))];
        }
      }
    }

    method PseudoLegal() returns (moves: seq<Move>)
      requires Valid()
      ensures moves == PseudoLegalMoves(Pos())
    {
      hide MovesFrom;
      ghost var p := Pos();
      moves := [];
      for from := 0 to 64
        invariant moves + MovesFromOn(p, from) == PseudoLegalMoves(p)
      {
        moves := AddMovesFrom(moves, from);
      }
    }

    method AddMovesFrom(moves: seq<Move>, from: nat) returns (result: seq<Move>)
      requires Valid() && from < 64
      ensures result == moves + MovesFrom(Pos(), from)
    {
      hide PawnMoves, KnightMoves, SlidingMoves, KingMoves;
      result := moves;
      match squares[from] {
        case Empty =>
        case Man(color, kind) =>
          if color == side {
            match kind {
              case Pawn => result := AddPawnMoves(moves, from, color);
              case Knight => result := AddKnightMoves(moves, from, color);
              case Bishop => result := AddSlidingMoves(moves, from, color, BISHOP_DIRS);
              case Rook => result := AddSlidingMoves(moves, from, color, ROOK_DIRS);
              case Queen =>
                result := AddSlidingMoves(moves, from, color, BISHOP_DIRS);
                result := AddSlidingMoves(result, from, color, ROOK_DIRS);
              case King => result := AddKingMoves(moves, from, color);
            }
          }
      }
    }

    // ----- the position key -----

    method ComputeHash() returns (key: bv64)
      requires Valid()
      ensures key == PositionKey(squares[..], side, rights, enPassant)
    {
      hide SquaresKey, RightsKey, EnPassantKey, SideKey, Xor;
      key := SquaresHash();
      var enPassantKey := EnPassantHash();
      key := Xor(Xor(Xor(key, RightsKey(rights)), enPassantKey), SideKey(side));
    }

    method EnPassantHash() returns (key: bv64)
      requires Valid()
      ensures key == EnPassantKey(squares[..], side, enPassant)
    {
      hide CodeKey, EnPassantCapturable;
      if enPassant != NO_SQUARE {
        var capturable := PawnBeside();
        if capturable {
          return CodeKey(2048 + File(enPassant));
        }
      }
      return 0;
    }

    method SquaresHash() returns (key: bv64)
      requires Valid()
      ensures key == SquaresKey(squares[..], 64)
    {
      hide CodeKey, SquareKey, Xor;
      key := 0;
      ghost var board := squares[..];
      for square := 0 to 64
        invariant key == SquaresKey(board, square)
      {
        key := Xor(key, SquareKey(squares[square], square));
      }
    }

    method PawnBeside() returns (capturable: bool)
      requires Valid()
      ensures capturable <==> EnPassantCapturable(squares[..], side, enPassant)
    {
      hide File, Rank;
      ghost var board := squares[..];
      var sourceRank := Rank(enPassant) - Forward(side);
      capturable := false;
      var deltas := [-1, 1];
      for i := 0 to 2
        invariant capturable <==>
                  || (i > 0 && PieceAt(board, File(enPassant) - 1, sourceRank) == Man(side, Pawn))
                  || (i > 1 && PieceAt(board, File(enPassant) + 1, sourceRank) == Man(side, Pawn))
      {
        var sourceFile := File(enPassant) + deltas[i];
        if OnBoard(sourceFile, sourceRank) && squares[SquareAt(sourceFile, sourceRank)] == Man(side, Pawn) {
          capturable := true;
        }
      }
    }

    // ----- playing and taking back -----

    /** Plays a move in place; a move whose source holds no man of the side to move is rejected and
        changes nothing. */
    method MakeMove(m: Move) returns (undo: Option<Undo>)
      requires Valid()
      requires m.from < 64 && m.to < 64 && Own(squares[m.from], side) ==> Playable(Pos(), m)
      modifies this, squares
      ensures Valid()
      ensures old(Playable(Pos(), m)) ==> undo == Some(old(UndoOf(Pos(), m))) && Pos() == old(Play(Pos(), m))
      ensures !old(Playable(Pos(), m)) ==> undo == None && Pos() == old(Pos())
    {
      if m.from >= 64 || m.to >= 64 || !Own(squares[m.from], side) {
        return None;
      }
      hide Play, UndoOf;
      var was := PlayMove(m);
      undo := Some(was);
    }

    method PlayMove(m: Move) returns (undo: Undo)
      requires Valid() && Playable(Pos(), m)
      modifies this, squares
      ensures Valid() && undo == old(UndoOf(Pos(), m)) && Pos() == old(Play(Pos(), m))
    {
      hide PositionKey, SquaresAfter, RightsAfter;
      ghost var before := Pos();
      var moving, captured := squares[m.from], squares[m.to];
      undo := Undo(captured, m.to, enPassant, rights, halfmove, fullmove, hash);
      if m.flags.enPassant {
        var capturedSquare := m.to - 8 * Forward(moving.color);
        captured := squares[capturedSquare];
        undo := undo.(captured := captured, capturedSquare := capturedSquare);
      }
      MoveMen(m);
      DropRights(m, moving, before);
      enPassant := if m.flags.double then (m.from + m.to) / 2 else NO_SQUARE;
      halfmove := if moving.kind.Pawn? || captured != Empty then 0 else (halfmove + 1) % 0x1_0000;
      if side.Black? {
        fullmove := (fullmove + 1) % 0x1_0000;
      }
      side := side.Opposite();
      hash := ComputeHash();
      history := history + [hash];
    }

    /** Moves the men of one move: the captured pawn, the mover, the promoted man and the castling rook. */
    method MoveMen(m: Move)
      requires Valid() && Playable(Pos(), m)
      modifies squares
      ensures squares[..] == old(SquaresAfter(Pos(), m))
    {
      var moving := squares[m.from];
      var home := HomeRank(moving.color);
      if m.flags.enPassant {
        squares[m.to - 8 * Forward(moving.color)] := Empty;
      }
      squares[m.from] := Empty;
      squares[m.to] := moving;
      if m.flags.promotion {
        squares[m.to] := if m.promotion.Some? then Man(moving.color, m.promotion.value) else Empty;
      }
      if m.flags.kingCastle {
        squares[home + 5] := squares[home + 7];
        squares[home + 7] := Empty;
      } else if m.flags.queenCastle {
        squares[home + 3] := squares[home];
        squares[home] := Empty;
      }
    }

    /** Clears the castling rights a move gives up: a king's own two, and one per corner touched. */
    method DropRights(m: Move, moving: Piece, ghost p: Position)
      requires Playable(p, m) && p.squares[m.from] == moving && p.rights == rights
      modifies this`rights
      ensures rights == RightsAfter(p, m)
    {
      if moving.kind.King? {
        rights := if moving.color.White? then rights.(whiteKing := false, whiteQueen := false)
                  else rights.(blackKing := false, blackQueen := false);
      }
      if Touches(m, 0) {
        rights := rights.(whiteQueen := false);
      }
      if Touches(m, 7) {
        rights := rights.(whiteKing := false);
      }
      if Touches(m, 56) {
        rights := rights.(blackQueen := false);
      }
      if Touches(m, 63) {
        rights := rights.(blackKing := false);
      }
    }

    method UnmakeMove(m: Move, undo: Undo)
      requires Valid() && m.from < 64 && m.to < 64 && undo.capturedSquare < 64 && squares[m.to].Man?
      modifies this, squares
      ensures Valid() && Pos() == old(TakeBack(Pos(), m, undo))
    {
      hide SquaresBefore;
      if |history| > 1 {
        history := history[..|history| - 1];
      }
      side := side.Opposite();
      PutBackMen(m, undo);
      enPassant, rights := undo.enPassant, undo.rights;
      halfmove, fullmove, hash := undo.halfmove, undo.fullmove, undo.hash;
    }

    method PutBackMen(m: Move, undo: Undo)
      requires Valid() && m.from < 64 && m.to < 64 && undo.capturedSquare < 64 && squares[m.to].Man?
      modifies squares
      ensures squares[..] == old(SquaresBefore(squares[..], m, undo))
    {
      var moving := squares[m.to];
      var home := HomeRank(moving.color);
      if m.flags.promotion {
        moving := Man(moving.color, Pawn);
      }
      squares[m.from] := moving;
      squares[m.to] := Empty;
      if undo.captured != Empty {
        squares[undo.capturedSquare] := undo.captured;
      }
      if m.flags.kingCastle {
        squares[home + 7] := squares[home + 5];
        squares[home + 5] := Empty;
      } else if m.flags.queenCastle {
        squares[home] := squares[home + 3];
        squares[home + 3] := Empty;
      }
    }

    /** Tries a pseudo-legal move: whether it leaves the mover's king safe. The board is restored. */
    method Try(m: Move) returns (safe: bool)
      requires Valid() && Restorable(Pos()) && IsPseudoLegal(Pos(), m)
      modifies this, squares
      ensures Valid() && Pos() == old(Pos())
      ensures safe <==> IsLegal(Pos(), m)
    {
      ghost var p := Pos();
      PseudoLegalPlayable(p, m);
      TakeBackUndoesPlay(p, m);
      hide IsPseudoLegal, InCheck, SquaresAfter, SquaresBefore, PositionKey;
      var undo := MakeMove(m);
      var check := IsInCheck(side.Opposite());
      UnmakeMove(m, undo.value);
      return !check;
    }

    method LegalMoves() returns (legal: seq<Move>)
      requires Valid() && Restorable(Pos())
      modifies this, squares
      ensures Valid() && Pos() == old(Pos())
      ensures legal == LegalMovesOf(Pos())
    {
      hide IsPseudoLegal, IsLegal, KeepLegal, Restorable, MovesFromOn;
      ghost var p := Pos();
      assert KeepLegal(p, []) == [] by {
        EmptyLists(p);
      }
      var moves := PseudoLegal();
      legal := [];
      for i := 0 to |moves|
        invariant Valid() && Pos() == p
        invariant legal == KeepLegal(p, moves[..i])
      {
        PseudoLegalMovesExact(p, moves[i]);
        var safe := Try(moves[i]);
        if safe {
          legal := legal + [moves[i]];
        }
        KeepLegalStep(p, moves, i);
      }
      assert moves[..|moves|] == moves;
    }

    /** The first legal move between two squares; a promotion must also match the piece asked for. */
    method FindLegalMove(from: nat, to: nat, promotion: Kind) returns (found: Option<Move>)
      requires Valid() && Restorable(Pos())
      modifies this, squares
      ensures Valid() && Pos() == old(Pos())
      ensures found == FirstTo(LegalMovesOf(Pos()), from, to, promotion)
      ensures found.Some? ==>
                IsLegal(Pos(), found.value) && found.value.from == from && found.value.to == to &&
                (found.value.flags.promotion ==> found.value.promotion == Some(promotion))
      ensures found.None? ==>
                !exists m :: IsLegal(Pos(), m) && m.from == from && m.to == to &&
                             (m.flags.promotion ==> m.promotion == Some(promotion))
    {
      hide IsLegal, LegalMovesOf;
      var legal := LegalMoves();
      forall m
        ensures m in legal <==> IsLegal(Pos(), m)
      {
        LegalMovesExact(Pos(), m);
      }
      assert legal[0..] == legal;
      for i := 0 to |legal|
        invariant Valid() && Pos() == old(Pos())
        invariant FirstTo(legal[i..], from, to, promotion) == FirstTo(legal, from, to, promotion)
        invariant forall j :: 0 <= j < i ==>
                    !(legal[j].from == from && legal[j].to == to &&
                      (legal[j].flags.promotion ==> legal[j].promotion == Some(promotion)))
      {
        assert legal[i..][1..] == legal[i + 1..];
        var m := legal[i];
        if m.from == from && m.to == to && (!m.flags.promotion || m.promotion == Some(promotion)) {
          return Some(m);
        }
      }
      return None;
    }

    // ----- perft -----

    method Perft(depth: nat) returns (nodes: nat)
      requires Valid() && WellFormed(Pos())
      modifies this, squares
      ensures Valid() && Pos() == old(Pos())
      ensures nodes == PerftSpec.Perft(Pos(), depth)
      decreases depth
    {
      hide IsLegal, Playable, WellFormed, Restorable, Play, LegalMovesOf, TakeBack, UndoOf;
      if depth == 0 {
        return 1;
      }
      ghost var p := Pos();
      RestorableWhenWellFormed(p);
      var moves := LegalMoves();
      nodes := 0;
      for i := 0 to |moves|
        invariant Valid() && Pos() == p
        invariant nodes == PerftOver(p, moves[..i], depth)
      {
        PerftOverStep(p, moves, depth, i);
        LegalRoundTrip(p, moves[i]);
        var undo := MakeMove(moves[i]);
        var below := Perft(depth - 1);
        nodes := nodes + below;
        UnmakeMove(moves[i], undo.value);
      }
      assert moves[..|moves|] == moves;
    }

    method PerftStats(depth: nat) returns (stats: Stats)
      requires Valid() && WellFormed(Pos())
      modifies this, squares
      ensures Valid() && Pos() == old(Pos())
      ensures stats == PerftStatsOf(Pos(), depth)
      decreases depth
    {
      hide IsLegal, Playable, WellFormed, Restorable, Play, LegalMovesOf, TakeBack, UndoOf;
      if depth == 0 {
        return NO_STATS.(nodes := 1);
      }
      ghost var p := Pos();
      RestorableWhenWellFormed(p);
      var moves := LegalMoves();
      stats := NO_STATS;
      for i := 0 to |moves|
        invariant Valid() && Pos() == p
        invariant stats == StatsOver(p, moves[..i], depth)
      {
        StatsOverStep(p, moves, depth, i);
        var m := moves[i];
        LegalRoundTrip(p, m);
        RestorableWhenWellFormed(Play(p, m));
        var undo := MakeMove(m);
        if depth == 1 {
          var leaf := Leaf(p, m);
          stats := stats.Plus(leaf);
        } else {
          var child := PerftStats(depth - 1);
          stats := stats.Plus(child);
        }
        UnmakeMove(m, undo.value);
      }
      assert moves[..|moves|] == moves;
    }

    /** The counters of one leaf, with the board standing after the move. */
    method Leaf(ghost p: Position, m: Move) returns (leaf: Stats)
      requires Valid() && Playable(p, m) && Pos() == Play(p, m) && Restorable(Pos())
      modifies this, squares
      ensures Valid() && Pos() == old(Pos()) && leaf == LeafStats(p, m)
    {
      hide InCheck, Play, LegalMovesOf, Playable;
      leaf := Stats(1, One(m.flags.capture), One(m.flags.enPassant), One(m.flags.kingCastle || m.flags.queenCastle),
                    One(m.flags.promotion), 0, 0);
      var check := IsInCheck(side);
      if check {
        var replies := LegalMoves();
        leaf := leaf.(checks := 1, checkmates := One(replies == []));
      }
    }
  }

  lemma {:induction false} EmptyLists(p: Position)
    ensures KeepLegal(p, []) == []
  {
  }

  lemma RestorableWhenWellFormed(p: Position)
    requires WellFormed(p)
    ensures Restorable(p)
  {
  }

  /** A legal move from a well-formed position can be played, followed by further play, and taken back. */
  lemma LegalRoundTrip(p: Position, m: Move)
    requires WellFormed(p) && IsLegal(p, m)
    ensures Playable(p, m) && WellFormed(Play(p, m))
    ensures Play(p, m).squares[m.to].Man? && TakeBack(Play(p, m), m, UndoOf(p, m)) == p
    ensures m.from < 64 && m.to < 64 && UndoOf(p, m).capturedSquare < 64
  {
    hide IsPseudoLegal, InCheck, Play, TakeBack;
    LegalMoveKeepsWellFormed(p, m);
    TakeBackUndoesPlay(p, m);
  }
}
