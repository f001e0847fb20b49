/** From staging to review: the two stores' bundles give one review, and what can still stop it. */
module StagedReviews {
  import opened Observations
  import opened BrowserReviews
  import Pgn

  /** Bundles a caller takes alike give the same review, or none. */
  lemma BundlesReviewAlike(game: Pgn.Game, a: Response, b: Response)
    requires a.Bundle? && Alike(a, b)
    ensures Assembled(game, a.observations).Ok? <==> Assembled(game, b.observations).Ok?
    ensures Assembled(game, a.observations).Ok? ==> Assembled(game, a.observations) == Assembled(game, b.observations)
  {
    OrderIrrelevant(game, a.observations, b.observations);
  }

  /** Each observation is of one position of the game, and no two of the same. */
  ghost predicate PositionsApart(game: Pgn.Game, observations: seq<Observation>) {
    && (forall k :: 0 <= k < |observations| ==>
          observations[k].ply < |game.plies| && IsBefore(game, observations[k]) != IsAfter(game, observations[k]))
    && (forall j, k :: 0 <= j < k < |observations| ==>
          observations[j].ply != observations[k].ply || observations[j].fen != observations[k].fen)
  }

  lemma {:induction false} CountedOnce(observations: seq<Observation>, o: Observation)
    requires forall j, k :: 0 <= j < k < |observations| ==> observations[j].sequence != observations[k].sequence
    requires o in observations
    ensures multiset(observations)[o] == 1
    decreases |observations|
  {
    var shorter, last := observations[..|observations| - 1], observations[|observations| - 1];
    BundleGrows(observations);
    if o == last {
      assert o !in shorter;
      assert o !in multiset(shorter);
    } else {
      CountedOnce(shorter, o);
    }
  }

  /** What a run's own rule already gives of two of its observations. */
  lemma AcceptedFacts(key: Key, run: Run, j: nat, k: nat)
    requires RunOrderly(key, run) && j < |run.accepted| && k < |run.accepted|
    ensures Valid(run.accepted[j]) && run.accepted[j].gameId == run.context.gameId
    ensures run.accepted[j].runId == run.accepted[k].runId && run.accepted[j].profile == run.accepted[k].profile
    ensures run.accepted[j].sequence == j
  {
    hide Validates, RunContextValid;
  }

  lemma ConsistentApart(game: Pgn.Game, key: Key, run: Run)
    requires RunOrderly(key, run) && Consistent(game, multiset(run.accepted))
    ensures PositionsApart(game, run.accepted)
  {
    hide Valid, RunOrderly;
    var accepted := run.accepted;
    forall k | 0 <= k < |accepted|
      ensures Fits(game, accepted[k])
    {
      assert accepted[k] in multiset(accepted);
    }
    forall j, k | 0 <= j < k < |accepted|
      ensures accepted[j].ply != accepted[k].ply || accepted[j].fen != accepted[k].fen
    {
      AcceptedFacts(key, run, j, k);
      AcceptedFacts(key, run, k, j);
      assert accepted[j] in multiset(accepted) && accepted[k] in multiset(accepted);
      assert Together(accepted[j], accepted[k]);
    }
  }

  lemma ApartConsistent(game: Pgn.Game, key: Key, run: Run)
    requires RunOrderly(key, run) && run.context.gameId == game.identity && PositionsApart(game, run.accepted)
    ensures Consistent(game, multiset(run.accepted))
  {
    hide Valid, RunOrderly;
    var accepted := run.accepted;
    forall o | o in multiset(accepted)
      ensures multiset(accepted)[o] == 1 && Fits(game, o)
    {
      forall j, k | 0 <= j < k < |accepted|
        ensures accepted[j].sequence != accepted[k].sequence
      {
        AcceptedFacts(key, run, j, k);
        AcceptedFacts(key, run, k, j);
      }
      CountedOnce(accepted, o);
      var k :| 0 <= k < |accepted| && accepted[k] == o;
      AcceptedFacts(key, run, k, k);
    }
    forall a, b | a in multiset(accepted) && b in multiset(accepted) && a != b
      ensures Together(a, b)
    {
      var j :| 0 <= j < |accepted| && accepted[j] == a;
      var k :| 0 <= k < |accepted| && accepted[k] == b;
      AcceptedFacts(key, run, j, k);
      AcceptedFacts(key, run, k, j);
      assert j < k || k < j;
    }
  }

  /** A final run of a game with two observations expected a ply is reviewed exactly when its observations
      are of different positions of the game: no other check of the assembly can stop it. */
  lemma FinalRunReviewed(game: Pgn.Game, key: Key, run: Run)
    requires RunOrderly(key, run) && run.final && run.context.gameId == game.identity
    requires game.plies != [] && run.context.expected == 2 * |game.plies|
    ensures Assembled(game, run.accepted).Ok? <==> PositionsApart(game, run.accepted)
  {
    hide Validates, RunContextValid, Consistent, PositionsApart;
    AssembledExact(game, run.accepted);
    if Consistent(game, multiset(run.accepted)) {
      ConsistentApart(game, key, run);
    }
    if PositionsApart(game, run.accepted) {
      ApartConsistent(game, key, run);
    }
    assert |multiset(run.accepted)| == |run.accepted|;
    ExpectedFits(key, run);
    forall sequence | 0 <= sequence < |run.accepted|
      ensures HasSequence(multiset(run.accepted), sequence)
    {
      assert run.accepted[sequence] in multiset(run.accepted);
    }
  }

  lemma ExpectedFits(key: Key, run: Run)
    requires RunOrderly(key, run)
    ensures run.context.expected <= MAX_RUN
  {
    hide Validates, OpaqueId;
  }
}
