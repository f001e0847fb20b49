/** Perft counts each legal run once: no generator repeats a move. */
module PerftCount {
  import opened Positions
  import opened MoveGen
  import opened MakeMove
  import opened Legality
  import opened PerftSpec

  // ----- each generator lists distinct moves -----

  lemma StepToDistinct(p: Position, from: nat, color: Color, file: int, rank: int)
    ensures Distinct(StepTo(p, from, color, file, rank))
  {
  }

  lemma JumpUnique(from: nat, to: nat, first: Dir, second: Dir)
    requires Jumps(from, to, first) && Jumps(from, to, second)
    ensures first == second
  {
  }

  lemma {:induction false} KnightMovesDistinct(p: Position, from: nat, color: Color, index: nat)
    requires from < 64 && index <= 8
    ensures Distinct(KnightMoves(p, from, color, index))
    decreases 8 - index
  {
    hide KnightFile, KnightRank, File, Rank, StepTo;
    if index < 8 {
      var file, rank := File(from) + KnightFile(index), Rank(from) + KnightRank(index);
      StepToDistinct(p, from, color, file, rank);
      KnightMovesDistinct(p, from, color, index + 1);
      KnightStepApart(p, from, color, index);
      DistinctConcat(StepTo(p, from, color, file, rank), KnightMoves(p, from, color, index + 1));
    }
  }

  lemma KnightStepApart(p: Position, from: nat, color: Color, index: nat)
    requires from < 64 && index < 8
    ensures Apart(StepTo(p, from, color, File(from) + KnightFile(index), Rank(from) + KnightRank(index)),
                  KnightMoves(p, from, color, index + 1))
  {
    hide StepTo, KnightMoves, KnightFile, KnightRank, File, Rank;
    var file, rank := File(from) + KnightFile(index), Rank(from) + KnightRank(index);
    forall m | m in StepTo(p, from, color, file, rank)
      ensures m !in KnightMoves(p, from, color, index + 1)
    {
      StepToExact(p, from, color, file, rank, m);
      KnightMovesExact(p, from, color, index + 1, m);
      if jump: Dir :| index + 1 <= jump && Jumps(from, m.to, jump) {
        JumpUnique(from, m.to, index, jump);
      }
    }
  }

  lemma AdjoinUnique(from: nat, to: nat, first: Dir, second: Dir)
    requires Adjoins(from, to, first) && Adjoins(from, to, second)
    ensures first == second
  {
  }

  lemma {:induction false} KingStepsDistinct(p: Position, from: nat, color: Color, index: nat)
    requires from < 64 && index <= 8
    ensures Distinct(KingSteps(p, from, color, index))
    decreases 8 - index
  {
    hide StepFile, StepRank, File, Rank, Adjoins, StepTo;
    if index < 8 {
      var file, rank := File(from) + StepFile(index, 1), Rank(from) + StepRank(index, 1);
      StepToDistinct(p, from, color, file, rank);
      KingStepsDistinct(p, from, color, index + 1);
      KingStepApart(p, from, color, index);
      DistinctConcat(StepTo(p, from, color, file, rank), KingSteps(p, from, color, index + 1));
    }
  }

  lemma KingStepApart(p: Position, from: nat, color: Color, index: nat)
    requires from < 64 && index < 8
    ensures Apart(StepTo(p, from, color, File(from) + StepFile(index, 1), Rank(from) + StepRank(index, 1)),
                  KingSteps(p, from, color, index + 1))
  {
    hide StepTo, KingSteps;
    var file, rank := File(from) + StepFile(index, 1), Rank(from) + StepRank(index, 1);
    forall m | m in StepTo(p, from, color, file, rank)
      ensures m !in KingSteps(p, from, color, index + 1)
    {
      StepToExact(p, from, color, file, rank, m);
      KingStepsExact(p, from, color, index + 1, m);
      if dir: Dir :| index + 1 <= dir && Adjoins(from, m.to, dir) {
        AdjoinUnique(from, m.to, index, dir);
      }
    }
  }

  lemma SlideUnique(squares: Squares, from: nat, to: nat, dir: Dir, distance: nat, dir': Dir, distance': nat)
    requires Slides(squares, from, to, dir, distance) && Slides(squares, from, to, dir', distance')
    ensures dir == dir' && distance == distance'
  {
    hide OpenRay, File, Rank;
  }

  lemma {:induction false} RayMovesDistinct(p: Position, from: nat, color: Color, dir: Dir, start: nat)
    requires from < 64 && 1 <= start <= 8 && OpenRay(p.squares, File(from), Rank(from), dir, start)
    ensures Distinct(RayMoves(p, from, color, dir, start))
    decreases 8 - start
  {
    hide *;
    var file, rank := File(from) + StepFile(dir, start), Rank(from) + StepRank(dir, start);
    RayMovesStep(p, from, color, dir, start);
    StepToDistinct(p, from, color, file, rank);
    EmptyDistinct<Move>();
    if start < 8 && Vacant(p.squares, File(from), Rank(from), dir, start) {
      OpenRayExtends(p.squares, File(from), Rank(from), dir, start);
      RayMovesDistinct(p, from, color, dir, start + 1);
      RayStepApart(p, from, color, dir, start);
      DistinctConcat(StepTo(p, from, color, file, rank), RayMoves(p, from, color, dir, start + 1));
    }
  }

  lemma EmptyDistinct<T>()
    ensures Distinct<T>([])
    ensures forall items: seq<T> :: items + [] == items
  {
  }

  lemma RayStepApart(p: Position, from: nat, color: Color, dir: Dir, start: nat)
    requires from < 64 && 1 <= start < 8 && OpenRay(p.squares, File(from), Rank(from), dir, start)
    requires Vacant(p.squares, File(from), Rank(from), dir, start)
    ensures Apart(StepTo(p, from, color, File(from) + StepFile(dir, start), Rank(from) + StepRank(dir, start)),
                  RayMoves(p, from, color, dir, start + 1))
  {
    hide StepTo, RayMoves, OpenRay, Vacant, File, Rank, StepFile, StepRank, Slides, SlidesFrom;
    OpenRayExtends(p.squares, File(from), Rank(from), dir, start);
    var here := StepTo(p, from, color, File(from) + StepFile(dir, start), Rank(from) + StepRank(dir, start));
    forall m | m in here
      ensures m !in RayMoves(p, from, color, dir, start + 1)
    {
      RayStepExact(p, from, color, dir, start, m);
      RayMovesExact(p, from, color, dir, start + 1, m);
      SlidesFromUnique(p.squares, from, m.to, dir, start);
    }
  }

  lemma SlidesFromUnique(squares: Squares, from: nat, to: nat, dir: Dir, distance: nat)
    requires Slides(squares, from, to, dir, distance)
    ensures !SlidesFrom(squares, from, to, dir, distance + 1)
  {
    hide Slides;
    if further: nat :| distance + 1 <= further && Slides(squares, from, to, dir, further) {
      SlideUnique(squares, from, to, dir, distance, dir, further);
    }
  }

  lemma {:induction false} SlidingMovesDistinct(p: Position, from: nat, color: Color, dirs: seq<Dir>)
    requires from < 64 && Distinct(dirs)
    ensures Distinct(SlidingMoves(p, from, color, dirs))
  {
    hide StepFile, StepRank, File, Rank, Slides, RayMoves;
    if dirs != [] {
      var here, rest := RayMoves(p, from, color, dirs[0], 1), SlidingMoves(p, from, color, dirs[1..]);
      assert forall i, j :: 0 <= i < j < |dirs| - 1 ==> dirs[1..][i] == dirs[i + 1] && dirs[1..][j] == dirs[j + 1];
      SlidingMovesDistinct(p, from, color, dirs[1..]);
      RayMovesDistinct(p, from, color, dirs[0], 1);
      forall m | m in here
        ensures m !in rest
      {
        SlidingMovesExact(p, from, color, dirs[1..], m);
        RayMovesExact(p, from, color, dirs[0], 1, m);
        if SlidesAlong(p.squares, from, m.to, dirs[1..]) {
          LinesApart(p.squares, from, m.to, dirs[0], dirs[1..]);
        }
      }
      DistinctConcat(here, rest);
    }
  }

  lemma LinesApart(squares: Squares, from: nat, to: nat, dir: Dir, dirs: seq<Dir>)
    requires SlidesFrom(squares, from, to, dir, 1) && SlidesAlong(squares, from, to, dirs)
    ensures dir in dirs
  {
    hide Slides;
    var distance: nat :| Slides(squares, from, to, dir, distance);
    var other: Dir :| other in dirs && SlidesFrom(squares, from, to, other, 1);
    var far: nat :| Slides(squares, from, to, other, far);
    SlideUnique(squares, from, to, dir, distance, other, far);
  }

  lemma {:induction false} QueenMovesDistinct(p: Position, from: nat, color: Color)
    requires from < 64
    ensures Distinct(SlidingMoves(p, from, color, BISHOP_DIRS) + SlidingMoves(p, from, color, ROOK_DIRS))
  {
    hide SlidingMoves, SlidesFrom, SlidesAlong;
    var diagonal, straight := SlidingMoves(p, from, color, BISHOP_DIRS), SlidingMoves(p, from, color, ROOK_DIRS);
    SlidingMovesDistinct(p, from, color, BISHOP_DIRS);
    SlidingMovesDistinct(p, from, color, ROOK_DIRS);
    forall m | m in diagonal
      ensures m !in straight
    {
      SlidingMovesExact(p, from, color, BISHOP_DIRS, m);
      SlidingMovesExact(p, from, color, ROOK_DIRS, m);
      if SlidesAlong(p.squares, from, m.to, ROOK_DIRS) {
        DiagonalNotStraight(p.squares, from, m.to);
      }
    }
    DistinctConcat(diagonal, straight);
  }

  lemma DiagonalNotStraight(squares: Squares, from: nat, to: nat)
    requires SlidesAlong(squares, from, to, BISHOP_DIRS)
    ensures !SlidesAlong(squares, from, to, ROOK_DIRS)
  {
    hide Slides;
    if SlidesAlong(squares, from, to, ROOK_DIRS) {
      var dir: Dir :| dir in BISHOP_DIRS && SlidesFrom(squares, from, to, dir, 1);
      LinesApart(squares, from, to, dir, ROOK_DIRS);
      DirectionsSplit(dir);
    }
  }

  lemma CastlesDistinct(p: Position, from: nat, color: Color)
    ensures Distinct(Castles(p, from, color))
    ensures forall m :: m in Castles(p, from, color) ==> m.flags.kingCastle || m.flags.queenCastle
  {
    hide InCheck, CanCastleKing, CanCastleQueen;
  }

  lemma KingMovesDistinct(p: Position, from: nat, color: Color)
    requires from < 64
    ensures Distinct(KingMoves(p, from, color))
  {
    hide KingSteps, Castles, AdjoinsFrom;
    KingStepsDistinct(p, from, color, 0);
    CastlesDistinct(p, from, color);
    forall m | m in KingSteps(p, from, color, 0)
      ensures m !in Castles(p, from, color)
    {
      KingStepsExact(p, from, color, 0, m);
    }
    DistinctConcat(KingSteps(p, from, color, 0), Castles(p, from, color));
  }

  lemma PawnMovesDistinct(p: Position, from: nat, color: Color)
    requires from < 64 && p.squares[from] == Man(color, Pawn)
    ensures Distinct(PawnMoves(p, from, color))
  {
    if OnBoard(File(from), Rank(from) + Forward(color)) {
      var pushes, left, right := PawnPushes(p, from, color), PawnTakes(p, from, color, -1), PawnTakes(p, from, color, 1);
      PawnListsDistinct(p, from, color);
      forall m
        ensures !(m in pushes && m in left) && !(m in pushes && m in right) && !(m in left && m in right)
      {
        PawnPushesExact(p, from, color, m);
        PawnTakesExact(p, from, color, -1, m);
        PawnTakesExact(p, from, color, 1, m);
      }
      hide *;
      assert forall m :: m in pushes ==> m !in left;
      DistinctConcat(pushes, left);
      DistinctConcat(pushes + left, right);
    }
  }

  lemma PawnArrivalsDistinct(from: nat, to: nat, color: Color, flags: Flags)
    ensures Distinct(PawnArrivals(from, to, color, flags))
    ensures forall m :: m in PawnArrivals(from, to, color, flags) ==> m.flags.double == flags.double
  {
  }

  lemma PawnListsDistinct(p: Position, from: nat, color: Color)
    requires from < 64 && OnBoard(File(from), Rank(from) + Forward(color))
    ensures Distinct(PawnPushes(p, from, color))
    ensures Distinct(PawnTakes(p, from, color, -1)) && Distinct(PawnTakes(p, from, color, 1))
  {
    hide PawnArrivals;
    PawnTakesDistinct(p, from, color, -1);
    PawnTakesDistinct(p, from, color, 1);
    PawnPushesDistinct(p, from, color);
  }

  lemma PawnTakesDistinct(p: Position, from: nat, color: Color, deltaFile: int)
    requires from < 64 && OnBoard(File(from), Rank(from) + Forward(color))
    ensures Distinct(PawnTakes(p, from, color, deltaFile))
  {
    hide PawnArrivals;
    if OnBoard(File(from) + deltaFile, Rank(from) + Forward(color)) {
      var target := SquareAt(File(from) + deltaFile, Rank(from) + Forward(color));
      PawnArrivalsDistinct(from, target, color, CAPTURE);
      PawnArrivalsDistinct(from, target, color, CAPTURE.(enPassant := true));
    }
  }

  lemma PawnPushesDistinct(p: Position, from: nat, color: Color)
    requires from < 64 && OnBoard(File(from), Rank(from) + Forward(color))
    ensures Distinct(PawnPushes(p, from, color))
  {
    hide PawnArrivals;
    var one := SquareAt(File(from), Rank(from) + Forward(color));
    var steps := PawnArrivals(from, one, color, QUIET);
    PawnArrivalsDistinct(from, one, color, QUIET);
    if p.squares[one] == Empty && Rank(from) == StartRank(color) {
      var two := SquareAt(File(from), Rank(from) + 2 * Forward(color));
      DistinctConcat(steps, [Move(from, two, None, QUIET.(double := true))]);
    }
    assert steps + [] == steps;
  }

  lemma MovesFromDistinct(p: Position, from: nat)
    requires from < 64
    ensures Distinct(MovesFrom(p, from))
  {
    hide PawnMoves, KnightMoves, SlidingMoves, KingMoves;
    if Own(p.squares[from], p.side) {
      match p.squares[from].kind
      case Pawn => PawnMovesDistinct(p, from, p.side);
      case Knight => KnightMovesDistinct(p, from, p.side, 0);
      case Bishop => SlidingMovesDistinct(p, from, p.side, BISHOP_DIRS);
      case Rook => SlidingMovesDistinct(p, from, p.side, ROOK_DIRS);
      case Queen => QueenMovesDistinct(p, from, p.side);
      case King => KingMovesDistinct(p, from, p.side);
    }
  }

  lemma {:induction false} MovesFromOnDistinct(p: Position, from: nat)
    requires from <= 64
    ensures Distinct(MovesFromOn(p, from))
    decreases 64 - from
  {
    hide MovesFrom, IsPseudoLegal;
    if from < 64 {
      MovesFromDistinct(p, from);
      MovesFromOnDistinct(p, from + 1);
      forall m | m in MovesFrom(p, from)
        ensures m !in MovesFromOn(p, from + 1)
      {
        MovesFromExact(p, from, m);
        MovesFromOnExact(p, from + 1, m);
      }
      DistinctConcat(MovesFrom(p, from), MovesFromOn(p, from + 1));
    }
  }

  lemma {:induction false} KeepLegalDistinct(p: Position, moves: seq<Move>)
    requires Distinct(moves)
    ensures Distinct(KeepLegal(p, moves))
  {
    hide IsLegal;
    if moves != [] {
      var last := |moves| - 1;
      KeepLegalDistinct(p, moves[..last]);
      assert moves[last] !in moves[..last];
    }
  }

  lemma LegalMovesDistinct(p: Position)
    ensures Distinct(LegalMovesOf(p))
  {
    MovesFromOnDistinct(p, 0);
    KeepLegalDistinct(p, PseudoLegalMoves(p));
  }

  // ----- the enumeration of runs is without repetition -----

  lemma {:induction false} RunsDistinct(p: Position, depth: nat)
    ensures Distinct(Runs(p, depth))
    decreases depth, 1, 0
  {
    if depth > 0 {
      LegalMovesDistinct(p);
      RunsOverDistinct(p, LegalMovesOf(p), depth);
    }
  }

  lemma {:induction false} RunsOverDistinct(p: Position, moves: seq<Move>, depth: nat)
    requires depth > 0 && AllLegal(p, moves) && Distinct(moves)
    ensures Distinct(RunsOver(p, moves, depth))
    decreases depth, 0, |moves|
  {
    hide IsPseudoLegal, InCheck, Play, LegalMovesOf;
    if moves != [] {
      var last := |moves| - 1;
      assert moves[last] in moves && moves[last] !in moves[..last];
      var rest := Prefixed(moves[last], Runs(Play(p, moves[last]), depth - 1));
      RunsOverDistinct(p, moves[..last], depth);
      RunsDistinct(Play(p, moves[last]), depth - 1);
      forall run | run in RunsOver(p, moves[..last], depth)
        ensures run !in rest
      {
        RunsOverExact(p, moves[..last], depth, run);
        PrefixedExact(moves[last], Runs(Play(p, moves[last]), depth - 1), run);
      }
      PrefixedExact(moves[last], Runs(Play(p, moves[last]), depth - 1), []);
      DistinctConcat(RunsOver(p, moves[..last], depth), rest);
    }
  }

  /** Perft of a depth is the number of different legal move sequences of that length. */
  lemma {:induction false} PerftCountsRuns(p: Position, depth: nat)
    ensures Perft(p, depth) == |Runs(p, depth)| && Distinct(Runs(p, depth))
    ensures forall run :: run in Runs(p, depth) <==> |run| == depth && IsLegalRun(p, run)
  {
    RunsExact(p, depth, []);
    RunsDistinct(p, depth);
    forall run
      ensures run in Runs(p, depth) <==> |run| == depth && IsLegalRun(p, run)
    {
      RunsExact(p, depth, run);
    }
  }
}
