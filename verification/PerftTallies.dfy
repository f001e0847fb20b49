/** What the counters of perft count: each is the number of legal runs whose last move, told by the board alone,
    takes, takes in passing, castles, promotes, checks or mates. */
module PerftTallies {
  import opened Positions
  import opened MoveGen
  import opened MakeMove
  import opened Legality
  import opened PerftSpec
  import opened PerftCount
  import opened Rulebook
  import opened Notation

  datatype Feature = Taking | Passing | Castling | Promoting | Checking | Mating

  predicate MovesPawn(p: Position, m: Move) {
    m.from < 64 && p.squares[m.from].Man? && p.squares[m.from].kind.Pawn?
  }

  /** A pawn takes in passing when it leaves its file for a square where no enemy stands. */
  predicate TakesInPassing(p: Position, m: Move) {
    MovesPawn(p, m) && m.to < 64 && Across(m.from, m.to) != 0 && !EnemyAt(p.squares, m.to, p.side)
  }

  ghost predicate Shows(p: Position, m: Move, feature: Feature)
    requires Playable(p, m)
  {
    match feature
    case Taking => p.squares[m.to].Man? || TakesInPassing(p, m)
    case Passing => TakesInPassing(p, m)
    case Castling => KingLeaps(p, m, 2) || KingLeaps(p, m, -2)
    case Promoting => MovesPawn(p, m) && Promotes(m.to, p.side)
    case Checking => InCheck(Play(p, m).squares, Play(p, m).side)
    case Mating => InCheck(Play(p, m).squares, Play(p, m).side) && !exists reply :: IsLegal(Play(p, m), reply)
  }

  /** The counter of a feature. */
  function CounterOf(stats: Stats, feature: Feature): nat {
    match feature
    case Taking => stats.captures
    case Passing => stats.enPassant
    case Castling => stats.castles
    case Promoting => stats.promotions
    case Checking => stats.checks
    case Mating => stats.checkmates
  }

  lemma PawnFlagsShow(p: Position, m: Move)
    requires IsLegal(p, m) && p.squares[m.from].kind.Pawn?
    ensures m.flags.capture <==> Shows(p, m, Taking)
    ensures m.flags.enPassant <==> Shows(p, m, Passing)
    ensures m.flags.promotion <==> Shows(p, m, Promoting)
  {
    MoveFacts(p, m);
    hide InCheck, IsPseudoLegal, Threatened, Bears;
    PawnLands(p, m.from, m.to, p.side);
    hide PawnGoes, Across, Up, Play;
  }

  lemma PawnLands(p: Position, from: nat, to: nat, color: Color)
    requires from < 64 && to < 64 && PawnGoes(p, from, to, color)
    ensures Across(from, to) == 0 ==> p.squares[to] == Empty
    ensures Promotes(to, color) ==> Size(Up(from, to)) == 1
  {
  }

  lemma CastleLands(p: Position, m: Move, color: Color)
    requires m.to < 64 && CastleRule(p, m, color)
    ensures p.squares[m.to] == Empty && !m.flags.capture && !m.flags.enPassant && !m.flags.promotion
  {
    hide InCheck, Threatened;
  }

  lemma PieceLands(p: Position, m: Move)
    requires Goes(p, m) && !p.squares[m.from].kind.Pawn?
    ensures (m.flags.capture <==> p.squares[m.to].Man?) && !m.flags.enPassant && !m.flags.promotion
  {
    hide Bears, CastleRule;
    if CastleRule(p, m, p.side) {
      CastleLands(p, m, p.side);
    }
  }

  lemma OtherFlagsShow(p: Position, m: Move)
    requires IsLegal(p, m) && !p.squares[m.from].kind.Pawn?
    ensures m.flags.capture <==> Shows(p, m, Taking)
    ensures m.flags.enPassant <==> Shows(p, m, Passing)
    ensures m.flags.promotion <==> Shows(p, m, Promoting)
  {
    MovesExact(p, m);
    PieceLands(p, m);
    hide InCheck, IsPseudoLegal, Goes, Play, KingLeaps;
  }

  lemma FlagsShow(p: Position, m: Move)
    requires IsLegal(p, m)
    ensures m.flags.capture <==> Shows(p, m, Taking)
    ensures m.flags.enPassant <==> Shows(p, m, Passing)
    ensures m.flags.kingCastle || m.flags.queenCastle <==> Shows(p, m, Castling)
    ensures m.flags.promotion <==> Shows(p, m, Promoting)
  {
    CastleAcross(p, m);
    MoveFacts(p, m);
    if p.squares[m.from].kind.Pawn? {
      PawnFlagsShow(p, m);
    } else {
      OtherFlagsShow(p, m);
    }
    hide InCheck, IsPseudoLegal, TakesInPassing, MovesPawn, Promotes, KingLeaps, Play, CastleRule, PawnRule;
  }

  lemma LeafShows(p: Position, m: Move, feature: Feature)
    requires IsLegal(p, m)
    ensures CounterOf(LeafStats(p, m), feature) == One(Shows(p, m, feature))
  {
    FlagsShow(p, m);
    var next := Play(p, m);
    forall reply
      ensures reply in LegalMovesOf(next) <==> IsLegal(next, reply)
    {
      LegalMovesExact(next, reply);
    }
    if LegalMovesOf(next) != [] {
      assert LegalMovesOf(next)[0] in LegalMovesOf(next);
    }
    hide InCheck, IsPseudoLegal, Play, LegalMovesOf;
  }

  /** The last move of a run shows the feature. */
  ghost predicate Ends(p: Position, run: seq<Move>, feature: Feature)
    decreases |run|
  {
    IsLegalRun(p, run) && run != [] &&
    if |run| == 1 then Shows(p, run[0], feature) else Ends(Play(p, run[0]), run[1..], feature)
  }

  /** The runs of a list that end with the feature. */
  ghost function Showing(p: Position, runs: seq<seq<Move>>, feature: Feature): seq<seq<Move>> {
    if runs == [] then []
    else
      var last := |runs| - 1;
      Showing(p, runs[..last], feature) + if Ends(p, runs[last], feature) then [runs[last]] else []
  }

  lemma {:induction false} ShowingExact(p: Position, runs: seq<seq<Move>>, run: seq<Move>, feature: Feature)
    ensures run in Showing(p, runs, feature) <==> run in runs && Ends(p, run, feature)
  {
    hide Ends;
    if runs != [] {
      var last := |runs| - 1;
      ShowingExact(p, runs[..last], run, feature);
      assert runs == runs[..last] + [runs[last]];
    }
  }

  lemma {:induction false} ShowingDistinct(p: Position, runs: seq<seq<Move>>, feature: Feature)
    requires Distinct(runs)
    ensures Distinct(Showing(p, runs, feature))
  {
    hide Ends;
    if runs != [] {
      var last := |runs| - 1;
      ShowingDistinct(p, runs[..last], feature);
      ShowingExact(p, runs[..last], runs[last], feature);
      assert runs[last] !in runs[..last];
    }
  }

  lemma {:induction false} ShowingStep(p: Position, runs: seq<seq<Move>>, feature: Feature)
    requires runs != []
    ensures
      var last := |runs| - 1;
      Showing(p, runs, feature) == Showing(p, runs[..last], feature) + if Ends(p, runs[last], feature) then [runs[last]] else []
  {
    hide Ends;
  }

  lemma {:induction false} ShowingConcat(p: Position, a: seq<seq<Move>>, b: seq<seq<Move>>, feature: Feature)
    ensures Showing(p, a + b, feature) == Showing(p, a, feature) + Showing(p, b, feature)
  {
    hide Ends;
    if b == [] {
      assert a + b == a && Showing(p, b, feature) == [];
    } else {
      var last := |b| - 1;
      ShowingConcat(p, a, b[..last], feature);
      var all := a + b;
      assert all[..|all| - 1] == a + b[..last] && all[|all| - 1] == b[last];
      ShowingStep(p, all, feature);
      ShowingStep(p, b, feature);
      hide Showing;
    }
  }

  /** Putting a legal move before runs keeps how they end. */
  lemma {:induction false} ShowingAfter(p: Position, m: Move, runs: seq<seq<Move>>, feature: Feature)
    requires IsLegal(p, m) && forall run :: run in runs ==> run != []
    ensures |Showing(p, Prefixed(m, runs), feature)| == |Showing(Play(p, m), runs, feature)|
  {
    hide Shows, IsPseudoLegal, InCheck, Play;
    if runs != [] {
      var last := |runs| - 1;
      assert runs[last] in runs && forall run :: run in runs[..last] ==> run in runs;
      ShowingAfter(p, m, runs[..last], feature);
      assert Prefixed(m, runs)[..last] == Prefixed(m, runs[..last]) && Prefixed(m, runs)[last] == [m] + runs[last];
      EndsAfter(p, m, runs[last], feature);
      ShowingStep(p, Prefixed(m, runs), feature);
      ShowingStep(Play(p, m), runs, feature);
      hide Showing, Ends;
    }
  }

  lemma EndsAfter(p: Position, m: Move, run: seq<Move>, feature: Feature)
    requires IsLegal(p, m) && run != []
    ensures Ends(p, [m] + run, feature) <==> Ends(Play(p, m), run, feature)
  {
    hide Shows, IsPseudoLegal, InCheck, Play;
    assert ([m] + run)[1..] == run;
  }

  lemma EndsAlone(p: Position, m: Move, feature: Feature)
    requires IsLegal(p, m)
    ensures |Showing(p, [[m]], feature)| == One(Shows(p, m, feature))
  {
    hide Shows, IsPseudoLegal, InCheck, Play;
    assert [[m]][..0] == [] && [m][1..] == [];
    assert IsLegalRun(Play(p, m), []);
  }

  lemma {:induction false} StatsShow(p: Position, depth: nat, feature: Feature)
    requires depth > 0
    ensures CounterOf(PerftStatsOf(p, depth), feature) == |Showing(p, Runs(p, depth), feature)|
    decreases depth, 1, 0
  {
    StatsOverShow(p, LegalMovesOf(p), depth, feature);
  }

  lemma {:induction false} StatsOverShow(p: Position, moves: seq<Move>, depth: nat, feature: Feature)
    requires depth > 0 && AllLegal(p, moves)
    ensures CounterOf(StatsOver(p, moves, depth), feature) == |Showing(p, RunsOver(p, moves, depth), feature)|
    decreases depth, 0, |moves|
  {
    hide IsPseudoLegal, InCheck, Play, LegalMovesOf, Shows, Ends, LeafStats, Showing;
    if moves == [] {
      NothingShows(p, feature);
    } else {
      var last := |moves| - 1;
      var m, before := moves[last], RunsOver(p, moves[..last], depth);
      assert m in moves;
      StatsOverShow(p, moves[..last], depth, feature);
      var after := Runs(Play(p, m), depth - 1);
      ShowingConcat(p, before, Prefixed(m, after), feature);
      if depth == 1 {
        assert after == [[]] && [m] + [] == [m];
        assert Prefixed(m, after) == [[m]];
        LeafShows(p, m, feature);
        EndsAlone(p, m, feature);
      } else {
        RunsLong(Play(p, m), depth - 1);
        StatsShow(Play(p, m), depth - 1, feature);
        ShowingAfter(p, m, after, feature);
      }
    }
  }

  lemma NothingShows(p: Position, feature: Feature)
    ensures Showing(p, [], feature) == []
  {
  }

  lemma RunsLong(p: Position, depth: nat)
    requires depth > 0
    ensures forall run :: run in Runs(p, depth) ==> run != []
  {
    forall run | run in Runs(p, depth)
      ensures run != []
    {
      RunsExact(p, depth, run);
    }
  }

  /** Each counter at a depth is the number of different legal runs of that length whose last move has the feature. */
  lemma {:induction false} TalliesExact(p: Position, depth: nat, feature: Feature)
    requires depth > 0
    ensures
      var found := Showing(p, Runs(p, depth), feature);
      && CounterOf(PerftStatsOf(p, depth), feature) == |found| && Distinct(found)
      && forall run :: run in found <==> |run| == depth && Ends(p, run, feature)
  {
    StatsShow(p, depth, feature);
    PerftCountsRuns(p, depth);
    ShowingDistinct(p, Runs(p, depth), feature);
    hide PerftStatsOf, Runs, Showing, Shows, IsPseudoLegal, InCheck, Play;
    forall run
      ensures run in Showing(p, Runs(p, depth), feature) <==> |run| == depth && Ends(p, run, feature)
    {
      ShowingExact(p, Runs(p, depth), run, feature);
    }
  }
}
