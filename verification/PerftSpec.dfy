/** Legal move lists and what perft counts. */
module PerftSpec {
  import opened Positions
  import opened MoveGen
  import opened MakeMove
  import opened Legality

  /** What the program needs of a position to restore it after trying a move. */
  predicate Restorable(p: Position) {
    EnPassantTruthful(p) && p.history != []
  }

  ghost predicate AllLegal(p: Position, moves: seq<Move>) {
    forall m :: m in moves ==> IsLegal(p, m)
  }

  /** The moves of a list that leave the mover's king safe, in order. */
  ghost function KeepLegal(p: Position, moves: seq<Move>): (kept: seq<Move>)
    ensures forall m :: m in kept <==> m in moves && IsLegal(p, m)
  {
    if moves == [] then []
    else
      var last := moves[|moves| - 1];
      KeepLegal(p, moves[..|moves| - 1]) + if IsLegal(p, last) then [last] else []
  }

  lemma {:induction false} KeepLegalStep(p: Position, moves: seq<Move>, i: nat)
    requires i < |moves|
    ensures KeepLegal(p, moves[..i + 1]) == KeepLegal(p, moves[..i]) + if IsLegal(p, moves[i]) then [moves[i]] else []
  {
    hide IsLegal;
    assert moves[..i + 1][..i] == moves[..i] && moves[..i + 1][i] == moves[i];
  }

  ghost function LegalMovesOf(p: Position): (moves: seq<Move>)
    ensures AllLegal(p, moves)
  {
    KeepLegal(p, PseudoLegalMoves(p))
  }

  /** The legal move list holds exactly the legal moves. */
  lemma LegalMovesExact(p: Position, m: Move)
    ensures m in LegalMovesOf(p) <==> IsLegal(p, m)
  {
    PseudoLegalMovesExact(p, m);
  }

  /** The first move of a list between two squares, of the given promotion if it promotes. */
  ghost function FirstTo(moves: seq<Move>, from: nat, to: nat, promotion: Kind): Option<Move> {
    if moves == [] then None
    else if moves[0].from == from && moves[0].to == to &&
            (!moves[0].flags.promotion || moves[0].promotion == Some(promotion)) then Some(moves[0])
    else FirstTo(moves[1..], from, to, promotion)
  }

  lemma {:induction false} FirstToIsListed(moves: seq<Move>, from: nat, to: nat, promotion: Kind)
    ensures FirstTo(moves, from, to, promotion).Some? ==> FirstTo(moves, from, to, promotion).value in moves
  {
    if moves != [] {
      FirstToIsListed(moves[1..], from, to, promotion);
    }
  }

  // ----- perft -----

  ghost function Perft(p: Position, depth: nat): nat
    decreases depth, 1, 0
  {
    if depth == 0 then 1 else PerftOver(p, LegalMovesOf(p), depth)
  }

  ghost function PerftOver(p: Position, moves: seq<Move>, depth: nat): nat
    requires depth > 0 && AllLegal(p, moves)
    decreases depth, 0, |moves|
  {
    if moves == [] then 0
    else
      var last := |moves| - 1;
      assert moves[last] in moves;
      PerftOver(p, moves[..last], depth) + Perft(Play(p, moves[last]), depth - 1)
  }

  lemma {:induction false} PerftOverStep(p: Position, moves: seq<Move>, depth: nat, i: nat)
    requires depth > 0 && AllLegal(p, moves) && i < |moves|
    ensures AllLegal(p, moves[..i]) && AllLegal(p, moves[..i + 1]) && IsLegal(p, moves[i])
    ensures PerftOver(p, moves[..i + 1], depth) ==
            PerftOver(p, moves[..i], depth) + Perft(Play(p, moves[i]), depth - 1)
  {
    hide IsPseudoLegal, InCheck, Play, Perft;
    assert moves[i] in moves;
    assert moves[..i + 1][..i] == moves[..i] && moves[..i + 1][i] == moves[i];
  }

  datatype Stats = Stats(nodes: nat, captures: nat, enPassant: nat, castles: nat, promotions: nat,
                         checks: nat, checkmates: nat) {
    function Plus(other: Stats): Stats {
      Stats(nodes + other.nodes, captures + other.captures, enPassant + other.enPassant, castles + other.castles,
            promotions + other.promotions, checks + other.checks, checkmates + other.checkmates)
    }
  }

  const NO_STATS := Stats(0, 0, 0, 0, 0, 0, 0)

  function One(condition: bool): nat {
    if condition then 1 else 0
  }

  /** The contribution of one leaf move. */
  ghost function LeafStats(p: Position, m: Move): Stats
    requires Playable(p, m)
  {
    var next := Play(p, m);
    var check := InCheck(next.squares, next.side);
    Stats(1, One(m.flags.capture), One(m.flags.enPassant), One(m.flags.kingCastle || m.flags.queenCastle),
          One(m.flags.promotion), One(check), One(check && LegalMovesOf(next) == []))
  }

  ghost function PerftStatsOf(p: Position, depth: nat): Stats
    decreases depth, 1, 0
  {
    if depth == 0 then NO_STATS.(nodes := 1) else StatsOver(p, LegalMovesOf(p), depth)
  }

  ghost function StatsOver(p: Position, moves: seq<Move>, depth: nat): Stats
    requires depth > 0 && AllLegal(p, moves)
    decreases depth, 0, |moves|
  {
    if moves == [] then NO_STATS
    else
      var last := |moves| - 1;
      assert moves[last] in moves;
      StatsOver(p, moves[..last], depth).Plus(
        if depth == 1 then LeafStats(p, moves[last]) else PerftStatsOf(Play(p, moves[last]), depth - 1))
  }

  lemma {:induction false} StatsOverStep(p: Position, moves: seq<Move>, depth: nat, i: nat)
    requires depth > 0 && AllLegal(p, moves) && i < |moves|
    ensures AllLegal(p, moves[..i]) && AllLegal(p, moves[..i + 1]) && IsLegal(p, moves[i])
    ensures StatsOver(p, moves[..i + 1], depth) ==
            StatsOver(p, moves[..i], depth).Plus(
              if depth == 1 then LeafStats(p, moves[i]) else PerftStatsOf(Play(p, moves[i]), depth - 1))
  {
    hide IsPseudoLegal, InCheck, Play, LeafStats, PerftStatsOf;
    assert moves[i] in moves;
    assert moves[..i + 1][..i] == moves[..i] && moves[..i + 1][i] == moves[i];
  }

  /** The two counters agree on the number of nodes at every depth. */
  lemma {:induction false} StatsNodes(p: Position, depth: nat)
    ensures PerftStatsOf(p, depth).nodes == Perft(p, depth)
    decreases depth, 1, 0
  {
    if depth > 0 {
      StatsNodesOver(p, LegalMovesOf(p), depth);
    }
  }

  lemma {:induction false} StatsNodesOver(p: Position, moves: seq<Move>, depth: nat)
    requires depth > 0 && AllLegal(p, moves)
    ensures StatsOver(p, moves, depth).nodes == PerftOver(p, moves, depth)
    decreases depth, 0, |moves|
  {
    hide IsPseudoLegal, InCheck, Play, LegalMovesOf;
    if moves != [] {
      var last := |moves| - 1;
      assert moves[last] in moves;
      StatsNodesOver(p, moves[..last], depth);
      if depth == 1 {
        assert Perft(Play(p, moves[last]), 0) == 1;
      } else {
        StatsNodes(Play(p, moves[last]), depth - 1);
      }
    }
  }

  // ----- perft counts the legal runs -----

  ghost predicate Distinct<T>(items: seq<T>) {
    forall i, j :: 0 <= i < j < |items| ==> items[i] != items[j]
  }

  ghost predicate Apart<T(!new)>(a: seq<T>, b: seq<T>) {
    forall x :: x in a ==> x !in b
  }

  lemma DistinctConcat<T(!new)>(a: seq<T>, b: seq<T>)
    requires Distinct(a) && Distinct(b) && Apart(a, b)
    ensures Distinct(a + b)
  {
    forall i, j | 0 <= i < j < |a + b|
      ensures (a + b)[i] != (a + b)[j]
    {
      if i < |a| <= j {
        assert (a + b)[i] in a && (a + b)[j] in b;
      }
    }
  }

  /** All legal runs of a given length, each written once: first move varying slowest. */
  ghost function Runs(p: Position, depth: nat): seq<seq<Move>>
    decreases depth, 1, 0
  {
    if depth == 0 then [[]] else RunsOver(p, LegalMovesOf(p), depth)
  }

  ghost function RunsOver(p: Position, moves: seq<Move>, depth: nat): seq<seq<Move>>
    requires depth > 0 && AllLegal(p, moves)
    decreases depth, 0, |moves|
  {
    if moves == [] then []
    else
      var last := |moves| - 1;
      assert moves[last] in moves;
      RunsOver(p, moves[..last], depth) + Prefixed(moves[last], Runs(Play(p, moves[last]), depth - 1))
  }

  function Prefixed(m: Move, runs: seq<seq<Move>>): (prefixed: seq<seq<Move>>)
    ensures |prefixed| == |runs| && forall i :: 0 <= i < |runs| ==> prefixed[i] == [m] + runs[i]
  {
    seq(|runs|, i requires 0 <= i < |runs| => [m] + runs[i])
  }

  lemma PrefixedExact(m: Move, runs: seq<seq<Move>>, run: seq<Move>)
    ensures run in Prefixed(m, runs) <==> run != [] && run[0] == m && run[1..] in runs
    ensures Distinct(runs) ==> Distinct(Prefixed(m, runs))
  {
    var prefixed := Prefixed(m, runs);
    if run != [] && run[0] == m && run[1..] in runs {
      var i :| 0 <= i < |runs| && runs[i] == run[1..];
      assert prefixed[i] == run;
    }
    if Distinct(runs) {
      forall i, j | 0 <= i < j < |runs|
        ensures prefixed[i] != prefixed[j]
      {
        assert prefixed[i][1..] == runs[i] && prefixed[j][1..] == runs[j];
      }
    }
  }

  lemma {:induction false} RunsExact(p: Position, depth: nat, run: seq<Move>)
    ensures run in Runs(p, depth) <==> |run| == depth && IsLegalRun(p, run)
    ensures |Runs(p, depth)| == Perft(p, depth)
    decreases depth, 1, 0
  {
    hide IsPseudoLegal, InCheck, Play, LegalMovesOf, RunsOver, PerftOver;
    if depth > 0 {
      RunsOverExact(p, LegalMovesOf(p), depth, run);
      if run != [] {
        LegalMovesExact(p, run[0]);
      }
    } else {
      assert run in [[]] <==> run == [];
    }
  }

  lemma {:induction false} RunsOverExact(p: Position, moves: seq<Move>, depth: nat, run: seq<Move>)
    requires depth > 0 && AllLegal(p, moves)
    ensures run in RunsOver(p, moves, depth) <==>
            |run| == depth && run[0] in moves && IsLegalRun(Play(p, run[0]), run[1..])
    ensures |RunsOver(p, moves, depth)| == PerftOver(p, moves, depth)
    decreases depth, 0, |moves|
  {
    hide IsPseudoLegal, InCheck, Play, LegalMovesOf, Runs, IsLegalRun;
    if moves != [] {
      var last := |moves| - 1;
      assert moves[last] in moves;
      var after := Runs(Play(p, moves[last]), depth - 1);
      RunsOverExact(p, moves[..last], depth, run);
      PrefixedExact(moves[last], after, run);
      RunsExact(Play(p, moves[last]), depth - 1, if run == [] then [] else run[1..]);
      assert RunsOver(p, moves, depth) == RunsOver(p, moves[..last], depth) + Prefixed(moves[last], after);
      assert moves == moves[..last] + [moves[last]];
    }
  }
}
