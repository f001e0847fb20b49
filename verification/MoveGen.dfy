/** Pseudo-legal move generation: the generators as functions in the program's order, and the rules
    of chess they are measured against as a predicate on one move. */
module MoveGen {
  import opened Positions

  const PROMOTIONS: seq<Kind> := [Queen, Rook, Bishop, Knight]
  const BISHOP_DIRS: seq<Dir> := [4, 5, 6, 7]
  const ROOK_DIRS: seq<Dir> := [0, 1, 2, 3]

  function HomeRank(color: Color): nat {
    if color.White? then 0 else 56
  }

  function StartRank(color: Color): nat {
    if color.White? then 1 else 6
  }

  function PromotionRank(color: Color): nat {
    if color.White? then 7 else 0
  }

  predicate Own(piece: Piece, color: Color) {
    piece.Man? && piece.color == color
  }

  predicate Enemy(piece: Piece, color: Color) {
    piece.Man? && piece.color != color
  }

  function PlainFlags(target: Piece): Flags {
    if target.Empty? then QUIET else CAPTURE
  }

  // ----- the generators -----

  function PawnArrivals(from: nat, to: nat, color: Color, flags: Flags): seq<Move> {
    if Rank(to) == PromotionRank(color) then
      var promoting := flags.(promotion := true);
      [Move(from, to, Some(Queen), promoting), Move(from, to, Some(Rook), promoting),
       Move(from, to, Some(Bishop), promoting), Move(from, to, Some(Knight), promoting)]
    else [Move(from, to, None, flags)]
  }

  function PawnPushes(p: Position, from: nat, color: Color): seq<Move>
    requires from < 64 && OnBoard(File(from), Rank(from) + Forward(color))
  {
    var one := SquareAt(File(from), Rank(from) + Forward(color));
    if p.squares[one] != Empty then []
    else
      PawnArrivals(from, one, color, QUIET) +
      if Rank(from) == StartRank(color) &&
         p.squares[SquareAt(File(from), Rank(from) + 2 * Forward(color))] == Empty
      then [Move(from, SquareAt(File(from), Rank(from) + 2 * Forward(color)), None, QUIET.(double := true))]
      else []
  }

  function PawnTakes(p: Position, from: nat, color: Color, deltaFile: int): seq<Move>
    requires from < 64 && OnBoard(File(from), Rank(from) + Forward(color))
  {
    if !OnBoard(File(from) + deltaFile, Rank(from) + Forward(color)) then []
    else
      var target := SquareAt(File(from) + deltaFile, Rank(from) + Forward(color));
      if Enemy(p.squares[target], color) then PawnArrivals(from, target, color, CAPTURE)
      else if target == p.enPassant then PawnArrivals(from, target, color, CAPTURE.(enPassant := true))
      else []
  }

  function PawnMoves(p: Position, from: nat, color: Color): seq<Move>
    requires from < 64
  {
    if !OnBoard(File(from), Rank(from) + Forward(color)) then []
    else PawnPushes(p, from, color) + PawnTakes(p, from, color, -1) + PawnTakes(p, from, color, 1)
  }

  /** The move to a target square unless a man of the moving colour stands there. */
  function StepTo(p: Position, from: nat, color: Color, file: int, rank: int): seq<Move> {
    if OnBoard(file, rank) && !Own(p.squares[SquareAt(file, rank)], color)
    then [Move(from, SquareAt(file, rank), None, PlainFlags(p.squares[SquareAt(file, rank)]))]
    else []
  }

  function KnightMoves(p: Position, from: nat, color: Color, index: nat): seq<Move>
    requires from < 64 && index <= 8
    decreases 8 - index
  {
    if index == 8 then []
    else StepTo(p, from, color, File(from) + KnightFile(index), Rank(from) + KnightRank(index)) +
         KnightMoves(p, from, color, index + 1)
  }

  function KingSteps(p: Position, from: nat, color: Color, index: nat): seq<Move>
    requires from < 64 && index <= 8
    decreases 8 - index
  {
    if index == 8 then []
    else StepTo(p, from, color, File(from) + StepFile(index, 1), Rank(from) + StepRank(index, 1)) +
         KingSteps(p, from, color, index + 1)
  }

  function RayMoves(p: Position, from: nat, color: Color, dir: Dir, distance: nat): seq<Move>
    requires from < 64 && 1 <= distance <= 8
    decreases 8 - distance
  {
    var file, rank := File(from) + StepFile(dir, distance), Rank(from) + StepRank(dir, distance);
    if !OnBoard(file, rank) then []
    else
      StepTo(p, from, color, file, rank) +
      if p.squares[SquareAt(file, rank)] == Empty then RayMoves(p, from, color, dir, distance + 1) else []
  }

  function SlidingMoves(p: Position, from: nat, color: Color, dirs: seq<Dir>): seq<Move>
    requires from < 64
  {
    if dirs == [] then []
    else RayMoves(p, from, color, dirs[0], 1) + SlidingMoves(p, from, color, dirs[1..])
  }

  ghost predicate CanCastleKing(p: Position, color: Color) {
    var home := HomeRank(color);
    && (if color.White? then p.rights.whiteKing else p.rights.blackKing)
    && p.squares[home + 5] == Empty && p.squares[home + 6] == Empty
    && p.squares[home + 7] == Man(color, Rook)
    && !Attacked(p.squares, home + 5, color.Opposite()) && !Attacked(p.squares, home + 6, color.Opposite())
  }

  ghost predicate CanCastleQueen(p: Position, color: Color) {
    var home := HomeRank(color);
    && (if color.White? then p.rights.whiteQueen else p.rights.blackQueen)
    && p.squares[home + 3] == Empty && p.squares[home + 2] == Empty && p.squares[home + 1] == Empty
    && p.squares[home] == Man(color, Rook)
    && !Attacked(p.squares, home + 3, color.Opposite()) && !Attacked(p.squares, home + 2, color.Opposite())
  }

  ghost function Castles(p: Position, from: nat, color: Color): seq<Move> {
    var home := HomeRank(color);
    if from == home + 4 && !InCheck(p.squares, color) then
      (if CanCastleKing(p, color) then [Move(from, home + 6, None, QUIET.(kingCastle := true))] else []) +
      (if CanCastleQueen(p, color) then [Move(from, home + 2, None, QUIET.(queenCastle := true))] else [])
    else []
  }

  ghost function KingMoves(p: Position, from: nat, color: Color): seq<Move>
    requires from < 64
  {
    KingSteps(p, from, color, 0) + Castles(p, from, color)
  }

  ghost function MovesFrom(p: Position, from: nat): seq<Move>
    requires from < 64
  {
    match p.squares[from]
    case Empty => []
    case Man(color, kind) =>
      if color != p.side then []
      else match kind
        case Pawn => PawnMoves(p, from, color)
        case Knight => KnightMoves(p, from, color, 0)
        case Bishop => SlidingMoves(p, from, color, BISHOP_DIRS)
        case Rook => SlidingMoves(p, from, color, ROOK_DIRS)
        case Queen => SlidingMoves(p, from, color, BISHOP_DIRS) + SlidingMoves(p, from, color, ROOK_DIRS)
        case King => KingMoves(p, from, color)
  }

  ghost function MovesFromOn(p: Position, from: nat): seq<Move>
    requires from <= 64
    decreases 64 - from
  {
    if from == 64 then [] else MovesFrom(p, from) + MovesFromOn(p, from + 1)
  }

  ghost function PseudoLegalMoves(p: Position): seq<Move> {
    MovesFromOn(p, 0)
  }

  // ----- the rules -----

  /** A knight, bishop, rook, queen or king step: the man bears on the target and no friend is there. */
  ghost predicate IsPieceMove(p: Position, m: Move, color: Color)
    requires m.from < 64 && m.to < 64
  {
    && !Own(p.squares[m.to], color)
    && m.promotion == None && m.flags == PlainFlags(p.squares[m.to])
    && Reaches(p.squares, m.from, m.to)
  }

  ghost predicate IsCastle(p: Position, m: Move, color: Color) {
    var home := HomeRank(color);
    && m.from == home + 4 && m.promotion == None && !InCheck(p.squares, color)
    && (|| (m.to == home + 6 && m.flags == QUIET.(kingCastle := true) && CanCastleKing(p, color))
        || (m.to == home + 2 && m.flags == QUIET.(queenCastle := true) && CanCastleQueen(p, color)))
  }

  predicate PromotionFits(m: Move, color: Color) {
    if Rank(m.to) == PromotionRank(color)
    then m.flags.promotion && m.promotion.Some? && m.promotion.value in PROMOTIONS
    else !m.flags.promotion && m.promotion == None
  }

  ghost predicate IsPawnMove(p: Position, m: Move, color: Color)
    requires m.from < 64 && m.to < 64 && p.squares[m.from] == Man(color, Pawn)
  {
    var flags := m.flags.(promotion := false);
    || (&& flags == QUIET && PromotionFits(m, color) && p.squares[m.to] == Empty
        && File(m.to) == File(m.from) && Rank(m.to) == Rank(m.from) + Forward(color))
    || (&& m.flags == QUIET.(double := true) && m.promotion == None && p.squares[m.to] == Empty
        && File(m.to) == File(m.from) && Rank(m.from) == StartRank(color)
        && Rank(m.to) == Rank(m.from) + 2 * Forward(color)
        && PieceAt(p.squares, File(m.from), Rank(m.from) + Forward(color)) == Empty)
    || (&& flags == CAPTURE && PromotionFits(m, color)
        && Enemy(p.squares[m.to], color) && Reaches(p.squares, m.from, m.to))
    || (&& flags == CAPTURE.(enPassant := true) && PromotionFits(m, color)
        && !Enemy(p.squares[m.to], color) && m.to == p.enPassant && Reaches(p.squares, m.from, m.to))
  }

  /** The rules of movement, leaving aside whether the mover's king is left in check. */
  ghost predicate IsPseudoLegal(p: Position, m: Move) {
    && m.from < 64 && m.to < 64 && Own(p.squares[m.from], p.side)
    && match p.squares[m.from].kind
       case Pawn => IsPawnMove(p, m, p.side)
       case King => IsPieceMove(p, m, p.side) || IsCastle(p, m, p.side)
       case _ => IsPieceMove(p, m, p.side)
  }

  // ----- the generators produce exactly the moves the rules allow -----

  lemma PawnArrivalsExact(from: nat, to: nat, color: Color, flags: Flags, m: Move)
    requires !flags.promotion
    ensures m in PawnArrivals(from, to, color, flags) <==>
            m.from == from && m.to == to && PromotionFits(m, color) && m.flags.(promotion := false) == flags
  {
    var bare := m.flags.(promotion := false);
    if m.promotion.Some? {
      var k := m.promotion.value;
      assert k in PROMOTIONS <==> k == Queen || k == Rook || k == Bishop || k == Knight;
    }
    assert m.flags == bare.(promotion := m.flags.promotion);
  }

  lemma PawnPushesExact(p: Position, from: nat, color: Color, m: Move)
    requires from < 64 && p.squares[from] == Man(color, Pawn) && OnBoard(File(from), Rank(from) + Forward(color))
    ensures m in PawnPushes(p, from, color) <==>
            m.from == from && m.to < 64 && !m.flags.capture && IsPawnMove(p, m, color)
  {
    var one := SquareAt(File(from), Rank(from) + Forward(color));
    PawnArrivalsExact(from, one, color, QUIET, m);
    if m.to < 64 {
      SquareOfCoordinates(m.to);
    }
  }

  lemma PawnTakesExact(p: Position, from: nat, color: Color, deltaFile: int, m: Move)
    requires from < 64 && p.squares[from] == Man(color, Pawn) && OnBoard(File(from), Rank(from) + Forward(color))
    requires deltaFile == -1 || deltaFile == 1
    ensures m in PawnTakes(p, from, color, deltaFile) <==>
            m.from == from && m.to < 64 && m.flags.capture && File(m.to) == File(from) + deltaFile &&
            IsPawnMove(p, m, color)
  {
    if OnBoard(File(from) + deltaFile, Rank(from) + Forward(color)) {
      var target := SquareAt(File(from) + deltaFile, Rank(from) + Forward(color));
      PawnArrivalsExact(from, target, color, CAPTURE, m);
      PawnArrivalsExact(from, target, color, CAPTURE.(enPassant := true), m);
    }
    if m.to < 64 {
      SquareOfCoordinates(m.to);
    }
  }

  lemma PawnMovesExact(p: Position, from: nat, color: Color, m: Move)
    requires from < 64 && p.squares[from] == Man(color, Pawn)
    ensures m in PawnMoves(p, from, color) <==> m.from == from && m.to < 64 && IsPawnMove(p, m, color)
  {
    if OnBoard(File(from), Rank(from) + Forward(color)) {
      PawnPushesExact(p, from, color, m);
      PawnTakesExact(p, from, color, -1, m);
      PawnTakesExact(p, from, color, 1, m);
      if m.from == from && m.to < 64 && m.flags.capture && IsPawnMove(p, m, color) {
        assert Reaches(p.squares, m.from, m.to);
      }
    }
  }

  lemma StepToExact(p: Position, from: nat, color: Color, file: int, rank: int, m: Move)
    ensures m in StepTo(p, from, color, file, rank) <==>
            m.from == from && m.to < 64 && File(m.to) == file && Rank(m.to) == rank && m.promotion == None &&
            !Own(p.squares[m.to], color) && m.flags == PlainFlags(p.squares[m.to])
  {
    if m.to < 64 && File(m.to) == file && Rank(m.to) == rank {
      SquareOfCoordinates(m.to);
    }
  }

  /** Some knight jump numbered `start` or later leads from one square to the other. */
  ghost predicate JumpsFrom(from: nat, to: nat, start: nat) {
    exists jump: Dir :: start <= jump && Jumps(from, to, jump)
  }

  lemma JumpsFromStep(from: nat, to: nat, start: nat)
    requires start < 8
    ensures JumpsFrom(from, to, start) <==> Jumps(from, to, start) || JumpsFrom(from, to, start + 1)
  {
    if JumpsFrom(from, to, start) {
      var jump: Dir :| start <= jump && Jumps(from, to, jump);
      assert jump == start || start + 1 <= jump;
    }
  }

  lemma {:induction false} KnightMovesExact(p: Position, from: nat, color: Color, index: nat, m: Move)
    requires from < 64 && index <= 8
    ensures m in KnightMoves(p, from, color, index) <==>
            m.from == from && m.to < 64 && m.promotion == None && !Own(p.squares[m.to], color) &&
            m.flags == PlainFlags(p.squares[m.to]) && JumpsFrom(from, m.to, index)
    decreases 8 - index
  {
    if index < 8 {
      var here := StepTo(p, from, color, File(from) + KnightFile(index), Rank(from) + KnightRank(index));
      assert m in here <==> m.from == from && m.to < 64 && m.promotion == None && !Own(p.squares[m.to], color) &&
                            m.flags == PlainFlags(p.squares[m.to]) && Jumps(from, m.to, index) by {
        StepToExact(p, from, color, File(from) + KnightFile(index), Rank(from) + KnightRank(index), m);
      }
      KnightMovesExact(p, from, color, index + 1, m);
      JumpsFromStep(from, m.to, index);
      assert m in KnightMoves(p, from, color, index) <==> m in here || m in KnightMoves(p, from, color, index + 1);
    }
  }

  /** Some compass step numbered `start` or later leads from one square to the other. */
  ghost predicate AdjoinsFrom(from: nat, to: nat, start: nat) {
    exists dir: Dir :: start <= dir && Adjoins(from, to, dir)
  }

  lemma AdjoinsFromStep(from: nat, to: nat, start: nat)
    requires start < 8
    ensures AdjoinsFrom(from, to, start) <==> Adjoins(from, to, start) || AdjoinsFrom(from, to, start + 1)
  {
    if AdjoinsFrom(from, to, start) {
      var dir: Dir :| start <= dir && Adjoins(from, to, dir);
      assert dir == start || start + 1 <= dir;
    }
  }

  lemma {:induction false} KingStepsExact(p: Position, from: nat, color: Color, index: nat, m: Move)
    requires from < 64 && index <= 8
    ensures m in KingSteps(p, from, color, index) <==>
            m.from == from && m.to < 64 && m.promotion == None && !Own(p.squares[m.to], color) &&
            m.flags == PlainFlags(p.squares[m.to]) && AdjoinsFrom(from, m.to, index)
    decreases 8 - index
  {
    if index < 8 {
      var here := StepTo(p, from, color, File(from) + StepFile(index, 1), Rank(from) + StepRank(index, 1));
      assert m in here <==> m.from == from && m.to < 64 && m.promotion == None && !Own(p.squares[m.to], color) &&
                            m.flags == PlainFlags(p.squares[m.to]) && Adjoins(from, m.to, index) by {
        StepToExact(p, from, color, File(from) + StepFile(index, 1), Rank(from) + StepRank(index, 1), m);
      }
      KingStepsExact(p, from, color, index + 1, m);
      AdjoinsFromStep(from, m.to, index);
      assert m in KingSteps(p, from, color, index) <==> m in here || m in KingSteps(p, from, color, index + 1);
    }
  }

  /** A slide of at least `start` steps in one direction leads from one square to the other. */
  ghost predicate SlidesFrom(squares: Squares, from: nat, to: nat, dir: Dir, start: nat) {
    exists distance: nat :: start <= distance && Slides(squares, from, to, dir, distance)
  }

  lemma SlidesFromStep(squares: Squares, from: nat, to: nat, dir: Dir, start: nat)
    requires from < 64 && to < 64 && 1 <= start < 8 && OpenRay(squares, File(from), Rank(from), dir, start)
    ensures
      SlidesFrom(squares, from, to, dir, start) <==>
      || Slides(squares, from, to, dir, start)
      || (Vacant(squares, File(from), Rank(from), dir, start) && SlidesFrom(squares, from, to, dir, start + 1))
  {
    hide Vacant, StepFile, StepRank, File, Rank;
    if !Slides(squares, from, to, dir, start) && SlidesFrom(squares, from, to, dir, start) {
      var distance: nat :| start <= distance && Slides(squares, from, to, dir, distance);
      assert start + 1 <= distance;
      assert Vacant(squares, File(from), Rank(from), dir, start);
    }
  }

  lemma SlidesFromEnd(squares: Squares, from: nat, to: nat, dir: Dir)
    ensures !SlidesFrom(squares, from, to, dir, 8)
  {
  }

  /** The step a generator takes at `distance` is the slide of that length. */
  lemma RayStepExact(p: Position, from: nat, color: Color, dir: Dir, distance: nat, m: Move)
    requires from < 64 && 1 <= distance < 8 && OpenRay(p.squares, File(from), Rank(from), dir, distance)
    ensures m in StepTo(p, from, color, File(from) + StepFile(dir, distance), Rank(from) + StepRank(dir, distance)) <==>
            m.from == from && m.to < 64 && m.promotion == None && !Own(p.squares[m.to], color) &&
            m.flags == PlainFlags(p.squares[m.to]) && Slides(p.squares, from, m.to, dir, distance)
  {
    hide Vacant, StepFile, StepRank, File, Rank, StepTo;
    StepToExact(p, from, color, File(from) + StepFile(dir, distance), Rank(from) + StepRank(dir, distance), m);
  }

  lemma RayMovesStep(p: Position, from: nat, color: Color, dir: Dir, start: nat)
    requires from < 64 && 1 <= start <= 8
    ensures RayMoves(p, from, color, dir, start) ==
            if start == 8 then []
            else StepTo(p, from, color, File(from) + StepFile(dir, start), Rank(from) + StepRank(dir, start)) +
                 if Vacant(p.squares, File(from), Rank(from), dir, start)
                 then RayMoves(p, from, color, dir, start + 1) else []
  {
  }

  lemma {:induction false} RayMovesExact(p: Position, from: nat, color: Color, dir: Dir, start: nat, m: Move)
    requires from < 64 && 1 <= start <= 8
    requires OpenRay(p.squares, File(from), Rank(from), dir, start)
    ensures m in RayMoves(p, from, color, dir, start) <==>
            m.from == from && m.to < 64 && m.promotion == None && !Own(p.squares[m.to], color) &&
            m.flags == PlainFlags(p.squares[m.to]) && SlidesFrom(p.squares, from, m.to, dir, start)
    decreases 8 - start
  {
    hide *;
    RayMovesStep(p, from, color, dir, start);
    if start == 8 {
      SlidesFromEnd(p.squares, from, m.to, dir);
    } else {
      var vacant := Vacant(p.squares, File(from), Rank(from), dir, start);
      RayStepExact(p, from, color, dir, start, m);
      if m.to < 64 {
        SlidesFromStep(p.squares, from, m.to, dir, start);
      }
      if vacant {
        OpenRayExtends(p.squares, File(from), Rank(from), dir, start);
        RayMovesExact(p, from, color, dir, start + 1, m);
      }
    }
  }

  lemma OpenRayExtends(squares: Squares, file: int, rank: int, dir: Dir, distance: nat)
    requires OpenRay(squares, file, rank, dir, distance) && Vacant(squares, file, rank, dir, distance)
    ensures OpenRay(squares, file, rank, dir, distance + 1)
  {
  }

  ghost predicate SlidesAlong(squares: Squares, from: nat, to: nat, dirs: seq<Dir>) {
    exists dir: Dir :: dir in dirs && SlidesFrom(squares, from, to, dir, 1)
  }

  lemma DirectionsSplit(dir: Dir)
    ensures dir in BISHOP_DIRS <==> Diagonal(dir)
    ensures dir in ROOK_DIRS <==> !Diagonal(dir)
  {
  }

  lemma SliderReaches(squares: Squares, from: nat, to: nat)
    requires from < 64 && to < 64 && squares[from].Man?
    ensures squares[from].kind.Bishop? ==> (Reaches(squares, from, to) <==> SlidesAlong(squares, from, to, BISHOP_DIRS))
    ensures squares[from].kind.Rook? ==> (Reaches(squares, from, to) <==> SlidesAlong(squares, from, to, ROOK_DIRS))
    ensures squares[from].kind.Queen? ==>
              (Reaches(squares, from, to) <==>
               SlidesAlong(squares, from, to, BISHOP_DIRS) || SlidesAlong(squares, from, to, ROOK_DIRS))
  {
    hide Diagonal, Slides, SlidesFrom;
    forall dir: Dir
      ensures dir in BISHOP_DIRS <==> Diagonal(dir)
      ensures dir in ROOK_DIRS <==> !Diagonal(dir)
    {
      DirectionsSplit(dir);
    }
    forall dir: Dir
      ensures SlidesFrom(squares, from, to, dir, 1) <==> exists distance: nat :: Slides(squares, from, to, dir, distance)
    {
      SlidesFromOne(squares, from, to, dir);
    }
    if squares[from].kind.Queen? && Reaches(squares, from, to) {
      var dir: Dir, distance: nat :| Slides(squares, from, to, dir, distance);
      assert dir in BISHOP_DIRS || dir in ROOK_DIRS;
    }
  }

  lemma SlidesFromOne(squares: Squares, from: nat, to: nat, dir: Dir)
    ensures SlidesFrom(squares, from, to, dir, 1) <==> exists distance: nat :: Slides(squares, from, to, dir, distance)
  {
    hide OpenRay, StepFile, StepRank, File, Rank;
  }

  lemma {:induction false} SlidingMovesExact(p: Position, from: nat, color: Color, dirs: seq<Dir>, m: Move)
    requires from < 64
    ensures m in SlidingMoves(p, from, color, dirs) <==>
            m.from == from && m.to < 64 && m.promotion == None && !Own(p.squares[m.to], color) &&
            m.flags == PlainFlags(p.squares[m.to]) &&
            SlidesAlong(p.squares, from, m.to, dirs)
  {
    if dirs != [] {
      RayMovesExact(p, from, color, dirs[0], 1, m);
      SlidingMovesExact(p, from, color, dirs[1..], m);
    }
  }

  lemma {:induction false} SliderExact(p: Position, from: nat, color: Color, m: Move)
    requires from < 64 && Own(p.squares[from], color) && p.squares[from].kind in {Bishop, Rook, Queen}
    ensures
      var diagonal := m in SlidingMoves(p, from, color, BISHOP_DIRS);
      var straight := m in SlidingMoves(p, from, color, ROOK_DIRS);
      (match p.squares[from].kind case Bishop => diagonal case Rook => straight case _ => diagonal || straight) <==>
      m.from == from && m.to < 64 && IsPieceMove(p, m, color)
  {
    SlidingMovesExact(p, from, color, BISHOP_DIRS, m);
    SlidingMovesExact(p, from, color, ROOK_DIRS, m);
    if m.to < 64 {
      SliderReaches(p.squares, from, m.to);
    }
  }

  lemma KingExact(p: Position, from: nat, color: Color, m: Move)
    requires from < 64 && p.squares[from] == Man(color, King)
    ensures m in KingMoves(p, from, color) <==>
            m.from == from && m.to < 64 && (IsPieceMove(p, m, color) || IsCastle(p, m, color))
  {
    hide KingSteps, Castles, IsCastle;
    KingStepsExact(p, from, color, 0, m);
    CastlesExact(p, from, color, m);
  }

  lemma CastlesExact(p: Position, from: nat, color: Color, m: Move)
    ensures m in Castles(p, from, color) <==> m.from == from && IsCastle(p, m, color)
    ensures IsCastle(p, m, color) ==> m.to < 64
  {
    hide InCheck, CanCastleKing, CanCastleQueen;
  }

  lemma MovesFromExact(p: Position, from: nat, m: Move)
    requires from < 64
    ensures m in MovesFrom(p, from) <==> m.from == from && IsPseudoLegal(p, m)
  {
    if Own(p.squares[from], p.side) {
      match p.squares[from].kind
      case Pawn => PawnMovesExact(p, from, p.side, m);
      case Knight => KnightMovesExact(p, from, p.side, 0, m);
      case King => KingExact(p, from, p.side, m);
      case _ => SliderExact(p, from, p.side, m);
    }
  }

  lemma {:induction false} MovesFromOnExact(p: Position, from: nat, m: Move)
    requires from <= 64
    ensures m in MovesFromOn(p, from) <==> from <= m.from && IsPseudoLegal(p, m)
    decreases 64 - from
  {
    if from < 64 {
      MovesFromExact(p, from, m);
      MovesFromOnExact(p, from + 1, m);
    }
  }

  /** Generation is sound and complete for the rules of movement, on every board. */
  lemma PseudoLegalMovesExact(p: Position, m: Move)
    ensures m in PseudoLegalMoves(p) <==> IsPseudoLegal(p, m)
  {
    MovesFromOnExact(p, 0, m);
  }
}
