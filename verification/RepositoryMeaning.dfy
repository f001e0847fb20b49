/** What the values repository operations compute mean: hints earned, retries counted, variations as trees, and
    what of a chunk, an analysis or a recommendation is new. */
module RepositoryMeaning {
  import opened Positions
  import opened Text
  import opened Events
  import opened FoldMeaning
  import opened RepositoryValues

  // ----- hints and attempts -----

  predicate FailedSince(attempts: seq<Attempt>, start: int, i: int) {
    0 <= i < |attempts| && attempts[i].attemptedAt >= start && !attempts[i].correct
  }

  /** The places of the failed attempts since a time. */
  function FailedPlaces(attempts: seq<Attempt>, start: int): set<int> {
    set i | 0 <= i < |attempts| && FailedSince(attempts, start, i)
  }

  lemma {:induction false} FailuresCount(attempts: seq<Attempt>, start: int)
    ensures FailuresSince(attempts, start) == |FailedPlaces(attempts, start)|
  {
    if attempts == [] {
      assert FailedPlaces(attempts, start) == {};
    } else {
      var last := |attempts| - 1;
      var before := FailedPlaces(attempts[..last], start);
      FailuresCount(attempts[..last], start);
      forall i | 0 <= i < last
        ensures FailedSince(attempts[..last], start, i) <==> FailedSince(attempts, start, i)
      {
      }
      assert FailedPlaces(attempts, start) == before + if FailedSince(attempts, start, last) then {last} else {};
    }
  }

  /** A session earns a hint for each of its first three failed attempts, and none before it starts; the level taken
      next is one more than the last and is earned. */
  lemma HintsEarned(drill: Drill)
    ensures
      var failed := |FailedPlaces(drill.attempts, drill.startedAt)|;
      && AvailableHint(drill) == (if drill.startedAt == 0 then 0 else if failed < 3 then failed else 3)
      && (drill.hintLevel < AvailableHint(drill) ==> NextHint(drill) == drill.hintLevel + 1 <= AvailableHint(drill))
  {
    FailuresCount(drill.attempts, drill.startedAt);
  }

  /** Retries are the failed attempts after the last correct one. */
  lemma {:induction false} RetriesAre(attempts: seq<Attempt>)
    ensures
      var first := |attempts| - Retries(attempts);
      && 0 <= first <= |attempts| && (forall i :: first <= i < |attempts| ==> !attempts[i].correct)
      && (first > 0 ==> attempts[first - 1].correct)
  {
    if attempts != [] && !attempts[|attempts| - 1].correct {
      RetriesAre(attempts[..|attempts| - 1]);
    }
  }

  /** An attempt is correct when it plays a solution; its time runs from the start of the session, if that is known and
      not later, and else is the one reported. */
  lemma AttemptJudged(id: nat, drill: Drill, move: string, reported: nat, at: int)
    ensures
      var attempt := NewAttempt(id, drill, move, reported, at);
      && (attempt.correct <==> exists i :: 0 <= i < |drill.solutions| && drill.solutions[i] == move)
      && attempt.attemptedAt == at && attempt.id == id
      && attempt.responseTime == (if 0 < drill.startedAt <= at then at - drill.startedAt else reported)
      && attempt.hintLevel == drill.hintLevel
  {
  }

  // ----- variations -----

  /** Two children of a node are different nodes and play different moves. */
  predicate Apart(nodes: map<nat, VariationNode>, a: nat, b: nat) {
    a != b && (a in nodes && b in nodes ==> nodes[a].uci != nodes[b].uci)
  }

  /** The children of a node are nodes that name it as parent, each another one. */
  ghost predicate Siblings(nodes: map<nat, VariationNode>, n: nat)
    requires n in nodes
  {
    var children := nodes[n].children;
    && (forall i :: 0 <= i < |children| ==> children[i] in nodes && children[i] != 0 && nodes[children[i]].parent == n)
    && (forall i, j :: 0 <= i < j < |children| ==> Apart(nodes, children[i], children[j]))
  }

  /** A node other than the root hangs under an earlier one. */
  ghost predicate Hangs(nodes: map<nat, VariationNode>, n: nat)
    requires n in nodes
  {
    n != 0 ==> 0 <= nodes[n].parent < n && nodes[n].parent in nodes && n in nodes[nodes[n].parent].children
  }

  /** The nodes of a variation are a tree under node 0, at the position it starts from, and its cursor is one of them. */
  ghost predicate IsTree(v: Variation) {
    && 0 in v.nodes && v.nodes[0].parent == -1 && v.nodes[0].fen == v.rootFen && v.current in v.nodes
    && (forall n :: n in v.nodes ==> n < v.nextNode && Hangs(v.nodes, n) && Siblings(v.nodes, n))
  }

  lemma RootIsTree(id: string, gameId: string, rootFen: string, now: int)
    ensures IsTree(RootedVariation(id, gameId, rootFen, now))
  {
  }

  lemma {:induction false} ChildFound(nodes: map<nat, VariationNode>, children: seq<nat>, uci: string)
    ensures
      var found := FindChild(nodes, children, uci);
      && (found.Some? ==> found.value in children && found.value in nodes && nodes[found.value].uci == uci)
      && (found.None? ==> forall i :: 0 <= i < |children| && children[i] in nodes ==> nodes[children[i]].uci != uci)
  {
    if children != [] {
      ChildFound(nodes, children[1..], uci);
      assert forall i :: 0 < i < |children| ==> children[i] == children[1..][i - 1];
    }
  }

  /** What may happen to a node: it gets a further child. */
  predicate Grown(before: VariationNode, after: VariationNode) {
    before.children <= after.children && after == before.(children := after.children)
  }

  /** A node put under another as its last child. */
  function Added(nodes: map<nat, VariationNode>, node: nat, added: nat, m: VariationNode): map<nat, VariationNode>
    requires node in nodes
  {
    nodes[added := m][node := nodes[node].(children := nodes[node].children + [added])]
  }

  lemma AddedHangs(nodes: map<nat, VariationNode>, node: nat, added: nat, m: VariationNode, n: nat)
    requires node in nodes && added !in nodes && node < added && m.parent == node && n in Added(nodes, node, added, m)
    requires n in nodes ==> Hangs(nodes, n)
    ensures Hangs(Added(nodes, node, added, m), n)
  {
    var after := Added(nodes, node, added, m);
    assert added in after[node].children && after[n].parent == if n == added then node else nodes[n].parent;
  }

  lemma AddedSiblings(nodes: map<nat, VariationNode>, node: nat, added: nat, m: VariationNode, n: nat)
    requires node in nodes && added !in nodes && added != 0 && m.parent == node && m.children == [] && n in Added(nodes, node, added, m)
    requires n in nodes ==> Siblings(nodes, n)
    requires Siblings(nodes, node) && forall i :: 0 <= i < |nodes[node].children| ==> nodes[nodes[node].children[i]].uci != m.uci
    ensures Siblings(Added(nodes, node, added, m), n)
  {
    var after := Added(nodes, node, added, m);
    if n != added {
      var children := nodes[n].children;
      assert forall i :: 0 <= i < |children| ==>
        children[i] in nodes && children[i] in after && after[children[i]].parent == n && after[children[i]].uci == nodes[children[i]].uci;
    }
  }

  lemma AddedGrows(nodes: map<nat, VariationNode>, node: nat, added: nat, m: VariationNode)
    requires node in nodes && added !in nodes
    ensures
      var after := Added(nodes, node, added, m);
      && (forall n :: n in nodes ==> n in after && Grown(nodes[n], after[n])) && after.Keys == nodes.Keys + {added} && after[added] == m
  {
  }

  lemma AddedIsTree(v: Variation, node: nat, played: PlayedMove, now: int)
    requires IsTree(v) && node in v.nodes && FindChild(v.nodes, v.nodes[node].children, played.uci).None?
    ensures
      var m := VariationNode(node, played.uci, played.san, played.fen, []);
      && v.nextNode !in v.nodes && Extended(v, node, played, now).nodes == Added(v.nodes, node, v.nextNode, m)
      && IsTree(Extended(v, node, played, now))
  {
    ChildFound(v.nodes, v.nodes[node].children, played.uci);
    var w, m := Extended(v, node, played, now), VariationNode(node, played.uci, played.san, played.fen, []);
    hide FindChild;
    assert v.nextNode !in v.nodes && Siblings(v.nodes, node);
    assert w.nodes == Added(v.nodes, node, v.nextNode, m);
    AddedGrows(v.nodes, node, v.nextNode, m);
    hide Added, Extended, Siblings, Hangs;
    forall n | n in w.nodes
      ensures n < w.nextNode && Hangs(w.nodes, n) && Siblings(w.nodes, n)
    {
      assert n in v.nodes ==> Hangs(v.nodes, n) && Siblings(v.nodes, n);
      AddedHangs(v.nodes, node, v.nextNode, m, n);
      AddedSiblings(v.nodes, node, v.nextNode, m, n);
    }
  }

  /** Playing a move keeps the tree and every node in it, and puts the cursor on the child of the node that plays the
      move: the one there is, or else a new one with the move's notation and position. */
  lemma ExtendedIsTree(v: Variation, node: nat, played: PlayedMove, now: int)
    requires IsTree(v) && node in v.nodes
    ensures
      var w := Extended(v, node, played, now);
      && IsTree(w) && (forall n :: n in v.nodes ==> n in w.nodes && Grown(v.nodes[n], w.nodes[n]))
      && w.nodes[w.current].parent == node && w.nodes[w.current].uci == played.uci
      && (if w.current in v.nodes then w.nodes == v.nodes
          else w.nodes.Keys == v.nodes.Keys + {w.current} && w.nodes[w.current].san == played.san && w.nodes[w.current].fen == played.fen)
      && w.rootFen == v.rootFen && w.gameId == v.gameId
  {
    ChildFound(v.nodes, v.nodes[node].children, played.uci);
    assert Siblings(v.nodes, node);
    hide FindChild, Hangs;
    if FindChild(v.nodes, v.nodes[node].children, played.uci).None? {
      AddedIsTree(v, node, played, now);
      AddedGrows(v.nodes, node, v.nextNode, VariationNode(node, played.uci, played.san, played.fen, []));
      hide Added, Siblings, IsTree;
    }
  }

  // ----- what is new -----

  lemma {:induction false} NoneOfGame(entries: seq<ArchiveEntry>, game: string)
    ensures FirstOf(entries, game).None? <==> forall e :: e in entries ==> e.gameId != game
  {
    if entries != [] {
      NoneOfGame(entries[1..], game);
      assert forall e :: e in entries <==> e == entries[0] || e in entries[1..];
    }
  }

  predicate OnePerGame(entries: seq<ArchiveEntry>) {
    forall i, j :: 0 <= i < j < |entries| ==> entries[i].gameId != entries[j].gameId
  }

  /** Of a chunk the entries indexed are, for each game the archive does not have, the first one of the chunk, and
      no other. */
  lemma {:induction false} UnindexedExact(archive: map<string, ArchiveEntry>, entries: seq<ArchiveEntry>, game: string)
    ensures FirstOf(Unindexed(archive, entries), game) == if game in archive then None else FirstOf(entries, game)
    ensures OnePerGame(Unindexed(archive, entries))
    decreases |entries|
  {
    hide FirstOf;
    if entries == [] {
      NoneOfGame([], game);
    } else {
      var before, last := entries[..|entries| - 1], entries[|entries| - 1];
      var found := Unindexed(archive, before);
      UnindexedExact(archive, before, game);
      UnindexedExact(archive, before, last.gameId);
      assert entries == before + [last];
      FirstConcat(before, [last], game);
      FirstConcat(found, [last], game);
      NoneOfGame(found, last.gameId);
      FirstOfOne(last, game);
    }
  }

  lemma FirstOfOne(e: ArchiveEntry, game: string)
    ensures FirstOf([e], game) == if e.gameId == game then Some(e) else None
  {
    assert [e][1..] == [];
  }

  // ----- drills of an analysis -----

  /** The drill of the first mistake that makes one under an identifier. */
  function FirstDrill(gameId: string, mistakes: seq<Mistake>, id: string, now: int): Option<Drill> {
    if mistakes == [] then None
    else
      var m := mistakes[0];
      if gameId + ":" + NatText(m.ply) == id && m.verifiedSolutions != [] then
        Some(Drill(id, gameId, m.fen, m.verifiedSolutions, [], now, [], 0, 0))
      else FirstDrill(gameId, mistakes[1..], id, now)
  }

  /** The drills an analysis adds are those of identifiers not taken, each of the first mistake with solutions under it. */
  lemma {:induction false} NewDrillsExact(gameId: string, mistakes: seq<Mistake>, drills: map<string, Drill>, now: int, drill: Drill)
    ensures drill in NewDrills(gameId, mistakes, drills, now) <==>
            drill.id !in drills && FirstDrill(gameId, mistakes, drill.id, now) == Some(drill)
    decreases |mistakes|
  {
    hide NatText;
    if mistakes != [] {
      var made := DrillOf(gameId, mistakes[0], now);
      if made.id in drills || made.solutions == [] {
        NewDrillsExact(gameId, mistakes[1..], drills, now, drill);
      } else {
        NewDrillsExact(gameId, mistakes[1..], drills[made.id := made], now, drill);
      }
    }
  }

  predicate IdsApart(added: seq<Drill>, drills: map<string, Drill>) {
    && (forall i, j :: 0 <= i < j < |added| ==> added[i].id != added[j].id)
    && (forall i :: 0 <= i < |added| ==> added[i].id !in drills)
  }

  lemma IdsApartPrepend(made: Drill, rest: seq<Drill>, drills: map<string, Drill>)
    requires made.id !in drills && IdsApart(rest, drills[made.id := made])
    ensures IdsApart([made] + rest, drills)
  {
    assert forall i :: 0 <= i < |rest| ==> rest[i].id in drills[made.id := made] || rest[i].id !in drills;
  }

  /** They have identifiers of their own, not taken before. */
  lemma {:induction false} NewDrillsApart(gameId: string, mistakes: seq<Mistake>, drills: map<string, Drill>, now: int)
    ensures IdsApart(NewDrills(gameId, mistakes, drills, now), drills)
    decreases |mistakes|
  {
    if mistakes != [] {
      var made := DrillOf(gameId, mistakes[0], now);
      hide DrillOf, IdsApart;
      if made.id in drills || made.solutions == [] {
        NewDrillsApart(gameId, mistakes[1..], drills, now);
      } else {
        NewDrillsApart(gameId, mistakes[1..], drills[made.id := made], now);
        IdsApartPrepend(made, NewDrills(gameId, mistakes[1..], drills[made.id := made], now), drills);
      }
    }
  }

  // ----- recommendations -----

  /** A resource is recommended exactly if it was not before, and once. */
  lemma {:induction false} RecommendedExact(resources: seq<string>, recommended: set<string>, resource: string)
    ensures ResourceRecommended(resource) in Recommendations(resources, recommended) <==>
            resource in resources && resource !in recommended
    ensures
      var events := Recommendations(resources, recommended);
      && (forall i, j :: 0 <= i < j < |events| ==> events[i] != events[j])
      && forall e :: e in events ==> e.ResourceRecommended?
    decreases |resources|
  {
    if resources == [] {
      assert Recommendations(resources, recommended) == [];
    } else {
      var before, last := resources[..|resources| - 1], resources[|resources| - 1];
      RecommendedExact(before, recommended, resource);
      RecommendedExact(before, recommended, last);
      var events, others := Recommendations(resources, recommended), Recommendations(before, recommended);
      assert resources == before + [last];
      if last in recommended || last in before {
        assert events == others;
      } else {
        assert events == others + [ResourceRecommended(last)] && ResourceRecommended(last) !in others;
        assert forall i :: 0 <= i < |others| ==> others[i] in others;
      }
      hide Recommendations;
    }
  }

  // ----- reviews -----

  /** A retried move is accepted when it is the best one or one of its alternatives. */
  lemma ReviewJudged(id: nat, game: StoredGame, gameId: string, ply: nat, uci: string, now: int)
    requires Reviewable(game, ply)
    ensures
      var review, assessment := NewReview(id, game, gameId, ply, uci, now), game.analysis.value.moves[ply];
      && (review.accepted <==> assessment.best == uci || exists i :: 0 <= i < |assessment.alternatives| && assessment.alternatives[i] == uci)
      && review == ReviewAttempt(id, gameId, ply, uci, review.accepted, now)
  {
  }

  // ----- what is recorded of games and analyses -----

  lemma {:induction false} MoveNotesExact(gameId: string, moves: seq<MoveAssessment>, n: Note)
    ensures n in MoveNotes(gameId, moves) <==> n.PositionAnalyzed? && n.positionGame == gameId && n.move in moves
    decreases |moves|
  {
    if moves != [] {
      var last, before := moves[|moves| - 1], moves[..|moves| - 1];
      MoveNotesExact(gameId, before, n);
      assert forall m :: m in moves <==> m in before || m == last;
    }
  }

  lemma {:induction false} MistakeNotesExact(gameId: string, mistakes: seq<Mistake>, n: Note)
    ensures n in MistakeNotes(gameId, mistakes) <==>
            exists i :: 0 <= i < |mistakes|
                        && (|| n == MistakeDetected(gameId, mistakes[i]) || n == MistakeClassified(gameId, mistakes[i].ply)
                            || n == ExplanationCreated(gameId, mistakes[i].ply))
    decreases |mistakes|
  {
    if mistakes != [] {
      MistakeNotesExact(gameId, mistakes[..|mistakes| - 1], n);
    }
  }

  /** Of a full analysis are recorded: every move assessed; of each mistake what it is, its class and its explanation;
      the analysis; and the new drills. */
  lemma AnalysisRecorded(analysis: Analysis, drills: map<string, Drill>, now: int, c: Content)
    ensures c in AnalysisContents(analysis, drills, now) <==>
            || c == AnalysisCompleted(analysis)
            || (exists i :: 0 <= i < |analysis.moves| && c == Noted(PositionAnalyzed(analysis.gameId, analysis.moves[i])))
            || (exists i :: 0 <= i < |analysis.mistakes|
                            && (|| c == Noted(MistakeDetected(analysis.gameId, analysis.mistakes[i]))
                                || c == Noted(MistakeClassified(analysis.gameId, analysis.mistakes[i].ply))
                                || c == Noted(ExplanationCreated(analysis.gameId, analysis.mistakes[i].ply))))
            || (c.DrillCreated? && c.drill in NewDrills(analysis.gameId, analysis.mistakes, drills, now))
  {
    var notes := MoveNotes(analysis.gameId, analysis.moves) + MistakeNotes(analysis.gameId, analysis.mistakes);
    if c.Noted? {
      MoveNotesExact(analysis.gameId, analysis.moves, c.note);
      MistakeNotesExact(analysis.gameId, analysis.mistakes, c.note);
    }
    hide MoveNotes, MistakeNotes, NewDrills;
    NotedExact(notes, c);
    CreatedExact(NewDrills(analysis.gameId, analysis.mistakes, drills, now), c);
    hide Notes, DrillContents;
  }

  lemma NotedExact(notes: seq<Note>, c: Content)
    ensures c in Notes(notes) <==> c.Noted? && c.note in notes
  {
    var contents := Notes(notes);
    hide Notes;
    if c.Noted? && c.note in notes {
      var i :| 0 <= i < |notes| && notes[i] == c.note;
      assert contents[i] == c;
    }
  }

  lemma CreatedExact(drills: seq<Drill>, c: Content)
    ensures c in DrillContents(drills) <==> c.DrillCreated? && c.drill in drills
  {
    var contents := DrillContents(drills);
    hide DrillContents;
    if c.DrillCreated? && c.drill in drills {
      var i :| 0 <= i < |drills| && drills[i] == c.drill;
      assert contents[i] == c;
    }
  }

  /** Of a new game are recorded: the game, its length, and the rating of each player whose tag gives one. */
  lemma GameRecorded(game: Imported, c: Content)
    ensures c in GameContents(game) <==>
            || c == GameImported(game) || c == Noted(GameParsed(game.identity, |game.plies|))
            || (game.whiteElo.Some? && c == Noted(RatingObserved(game.identity, game.white, game.whiteElo.value)))
            || (game.blackElo.Some? && c == Noted(RatingObserved(game.identity, game.black, game.blackElo.value)))
    ensures GameContents(game)[0] == GameImported(game)
  {
    NotedExact(RatingNotes(game), c);
    hide Notes;
  }
}
