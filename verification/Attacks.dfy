/** The attack test seen from the attacked square, and its agreement with move generation.

    The test walks outward from the square while generation walks forward from each man; both are
    compared with `Reaches`. */
module Attacks {
  import opened Positions
  import opened MoveGen

  // ----- what an outward scan sees -----

  predicate PawnHit(squares: Squares, square: nat, attacker: Color, deltaFile: int)
    requires square < 64
  {
    PieceAt(squares, File(square) + deltaFile, Rank(square) - Forward(attacker)) == Man(attacker, Pawn)
  }

  predicate KnightHit(squares: Squares, square: nat, attacker: Color, jump: Dir)
    requires square < 64
  {
    PieceAt(squares, File(square) + KnightFile(jump), Rank(square) + KnightRank(jump)) == Man(attacker, Knight)
  }

  /** A man of the attacker that captures along the line, met `distance` steps out. */
  predicate LineAttacker(piece: Piece, attacker: Color, dir: Dir, distance: nat) {
    && piece.Man? && piece.color == attacker
    && (|| piece.kind.Queen? || (Diagonal(dir) && piece.kind.Bishop?) || (!Diagonal(dir) && piece.kind.Rook?)
        || (distance == 1 && piece.kind.King?))
  }

  ghost predicate RayHit(squares: Squares, square: nat, attacker: Color, dir: Dir, distance: nat)
    requires square < 64
  {
    && 0 < distance && OpenRay(squares, File(square), Rank(square), dir, distance)
    && LineAttacker(PieceAt(squares, File(square) + StepFile(dir, distance), Rank(square) + StepRank(dir, distance)),
                    attacker, dir, distance)
  }

  ghost predicate Visible(squares: Squares, square: nat, attacker: Color)
    requires square < 64
  {
    || PawnHit(squares, square, attacker, -1) || PawnHit(squares, square, attacker, 1)
    || (exists jump: Dir :: KnightHit(squares, square, attacker, jump))
    || (exists dir: Dir, distance: nat :: RayHit(squares, square, attacker, dir, distance))
  }

  lemma RayHitReaches(squares: Squares, square: nat, attacker: Color, dir: Dir, distance: nat)
    requires square < 64 && RayHit(squares, square, attacker, dir, distance)
    ensures Attacked(squares, square, attacker)
  {
    var from := SquareAt(File(square) + StepFile(dir, distance), Rank(square) + StepRank(dir, distance));
    OpenRayReverses(squares, File(square), Rank(square), dir, distance);
    var back := Reverse(dir);
    assert distance < 8;
    assert Slides(squares, from, square, back, distance);
    assert distance == 1 ==> Adjoins(from, square, back);
    assert Reaches(squares, from, square);
  }

  lemma PawnHitReaches(squares: Squares, square: nat, attacker: Color, deltaFile: int)
    requires square < 64 && PawnHit(squares, square, attacker, deltaFile) && (deltaFile == -1 || deltaFile == 1)
    ensures Attacked(squares, square, attacker)
  {
    assert Reaches(squares, SquareAt(File(square) + deltaFile, Rank(square) - Forward(attacker)), square);
  }

  lemma KnightHitReaches(squares: Squares, square: nat, attacker: Color, jump: Dir)
    requires square < 64 && KnightHit(squares, square, attacker, jump)
    ensures Attacked(squares, square, attacker)
  {
    var from := SquareAt(File(square) + KnightFile(jump), Rank(square) + KnightRank(jump));
    assert Jumps(from, square, ReverseJump(jump));
    assert Reaches(squares, from, square);
  }

  lemma VisibleIsAttacked(squares: Squares, square: nat, attacker: Color)
    requires square < 64 && Visible(squares, square, attacker)
    ensures Attacked(squares, square, attacker)
  {
    if PawnHit(squares, square, attacker, -1) {
      PawnHitReaches(squares, square, attacker, -1);
    } else if PawnHit(squares, square, attacker, 1) {
      PawnHitReaches(squares, square, attacker, 1);
    } else if jump: Dir :| KnightHit(squares, square, attacker, jump) {
      KnightHitReaches(squares, square, attacker, jump);
    } else {
      var dir: Dir, distance: nat :| RayHit(squares, square, attacker, dir, distance);
      RayHitReaches(squares, square, attacker, dir, distance);
    }
  }

  lemma SlideIsVisible(squares: Squares, square: nat, attacker: Color, from: nat, dir: Dir, distance: nat)
    requires square < 64 && from < 64 && Slides(squares, from, square, dir, distance)
    requires LineAttacker(squares[from], attacker, dir, distance)
    ensures Visible(squares, square, attacker)
  {
    var back := Reverse(dir);
    assert OpenRay(squares, File(square), Rank(square), back, distance) by {
      OpenRayReverses(squares, File(from), Rank(from), dir, distance);
    }
    assert PieceAt(squares, File(square) + StepFile(back, distance), Rank(square) + StepRank(back, distance))
           == squares[from] by {
      SquareOfCoordinates(from);
    }
    assert LineAttacker(squares[from], attacker, back, distance);
    assert RayHit(squares, square, attacker, back, distance);
  }

  lemma ReachIsVisible(squares: Squares, square: nat, from: nat)
    requires square < 64 && from < 64 && squares[from].Man? && Reaches(squares, from, square)
    ensures Visible(squares, square, squares[from].color)
  {
    var attacker := squares[from].color;
    SquareOfCoordinates(from);
    match squares[from].kind
    case Pawn =>
      assert PawnHit(squares, square, attacker, File(from) - File(square));
    case Knight =>
      var jump: Dir :| Jumps(from, square, jump);
      assert KnightHit(squares, square, attacker, ReverseJump(jump));
    case King =>
      var dir: Dir :| Adjoins(from, square, dir);
      SlideIsVisible(squares, square, attacker, from, dir, 1);
    case _ =>
      var dir: Dir, distance: nat :|
        LineAttacker(squares[from], attacker, dir, distance) && Slides(squares, from, square, dir, distance);
      SlideIsVisible(squares, square, attacker, from, dir, distance);
  }

  /** Scanning outward from the square finds an attacker exactly when some man reaches it. */
  lemma OutwardScanExact(squares: Squares, square: nat, attacker: Color)
    requires square < 64
    ensures Visible(squares, square, attacker) <==> Attacked(squares, square, attacker)
  {
    if Visible(squares, square, attacker) {
      VisibleIsAttacked(squares, square, attacker);
    }
    if Attacked(squares, square, attacker) {
      var from :| 0 <= from < 64 && squares[from].Man? && squares[from].color == attacker &&
                  Reaches(squares, from, square);
      ReachIsVisible(squares, square, from);
    }
  }

  // ----- agreement with generation -----

  lemma ArrivalReaches(p: Position, m: Move)
    requires IsPseudoLegal(p, m) && Enemy(p.squares[m.to], p.side)
    ensures Reaches(p.squares, m.from, m.to)
  {
  }

  /** The capture that a man bearing on an enemy piece generates. */
  function CaptureOf(p: Position, from: nat, to: nat): Move
    requires from < 64 && to < 64
  {
    if p.squares[from] == Man(p.side, Pawn) && Rank(to) == PromotionRank(p.side)
    then Move(from, to, Some(Queen), CAPTURE.(promotion := true))
    else Move(from, to, None, CAPTURE)
  }

  lemma ReachGenerates(p: Position, from: nat, to: nat)
    requires from < 64 && to < 64 && Own(p.squares[from], p.side) && Enemy(p.squares[to], p.side)
    requires Reaches(p.squares, from, to)
    ensures IsPseudoLegal(p, CaptureOf(p, from, to))
  {
  }

  /** On every board, an enemy-occupied square is attacked by the side to move exactly when some
      pseudo-legal move ends there. */
  lemma AttackAgreesWithGeneration(p: Position, square: nat)
    requires square < 64 && Enemy(p.squares[square], p.side)
    ensures Attacked(p.squares, square, p.side) <==> exists m :: m in PseudoLegalMoves(p) && m.to == square
  {
    if Attacked(p.squares, square, p.side) {
      var from :| 0 <= from < 64 && p.squares[from].Man? && p.squares[from].color == p.side &&
                  Reaches(p.squares, from, square);
      ReachGenerates(p, from, square);
      PseudoLegalMovesExact(p, CaptureOf(p, from, square));
    }
    if m :| m in PseudoLegalMoves(p) && m.to == square {
      PseudoLegalMovesExact(p, m);
      ArrivalReaches(p, m);
    }
  }
}
