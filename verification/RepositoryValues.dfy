/** The values repository operations compute: identifiers, dated copies, hints, extended variations. */
module RepositoryValues {
  import opened Positions
  import opened Text
  import opened Events
  import opened Counters
  import opened Effects

  function BatchId(n: nat): string {
    "batch-" + NatText(n)
  }

  function DrillId(gameId: string, ply: nat): string {
    gameId + ":" + NatText(ply)
  }

  predicate IncompleteDrill(drill: Drill) {
    drill.id == "" || drill.fen == "" || drill.solutions == [] || drill.evidence == []
  }

  function Dated(drill: Drill, now: int): (dated: Drill)
    ensures dated.id == drill.id
  {
    if drill.createdAt == 0 then drill.(createdAt := now) else drill
  }

  function DatedIdentity(decided: Identity, now: int): Identity {
    if decided.decidedAt == 0 then decided.(decidedAt := now) else decided
  }

  /** A given name is one of the players'; a confirmed identity has one. */
  predicate NameFits(decided: Identity, game: Imported) {
    var player := decided.playerName == game.white || decided.playerName == game.black;
    (decided.playerName == "" || player) && (decided.confirmed ==> player)
  }

  // ----- drills -----

  function FailuresSince(attempts: seq<Attempt>, start: int): nat {
    if attempts == [] then 0
    else
      var last := attempts[|attempts| - 1];
      FailuresSince(attempts[..|attempts| - 1], start) + if last.attemptedAt >= start && !last.correct then 1 else 0
  }

  /** At most three hints, one for each failed attempt of the running session. */
  function AvailableHint(drill: Drill): (hint: int)
    ensures 0 <= hint <= 3
  {
    if drill.startedAt == 0 then 0
    else
      var failures := FailuresSince(drill.attempts, drill.startedAt);
      if failures > 3 then 3 else failures
  }

  function NextHint(drill: Drill): int {
    if drill.hintLevel + 1 > 3 then 3 else drill.hintLevel + 1
  }

  /** The failed attempts since the last correct one. */
  function Retries(attempts: seq<Attempt>): nat {
    if attempts == [] || attempts[|attempts| - 1].correct then 0 else 1 + Retries(attempts[..|attempts| - 1])
  }

  function ResponseTime(drill: Drill, attemptedAt: int, reported: nat): nat {
    if drill.startedAt > 0 && attemptedAt >= drill.startedAt then attemptedAt - drill.startedAt else reported
  }

  function NewAttempt(id: nat, drill: Drill, move: string, reported: nat, attemptedAt: int): Attempt {
    Attempt(id, attemptedAt, move in drill.solutions, move, ResponseTime(drill, attemptedAt, reported), drill.hintLevel,
            Retries(drill.attempts))
  }

  // ----- variations -----

  datatype PlayedMove = PlayedMove(uci: string, san: string, fen: string)

  function RootFen(ply: GamePly, fromBefore: bool): string {
    if fromBefore then ply.before else ply.after
  }

  function RootedVariation(id: string, gameId: string, rootFen: string, now: int): Variation {
    Variation(id, gameId, rootFen, 0, 1, now, map[0 := VariationNode(-1, "", "", rootFen, [])])
  }

  /** The first child of a node that plays the move. */
  function FindChild(nodes: map<nat, VariationNode>, children: seq<nat>, uci: string): Option<nat> {
    if children == [] then None
    else if children[0] in nodes && nodes[children[0]].uci == uci then Some(children[0])
    else FindChild(nodes, children[1..], uci)
  }

  /** The cursor moves to the child that plays the move, which is added if there is none. */
  function Extended(v: Variation, node: nat, played: PlayedMove, now: int): (extended: Variation)
    requires node in v.nodes
    ensures extended.id == v.id
  {
    var child := FindChild(v.nodes, v.nodes[node].children, played.uci);
    if child.Some? then v.(current := child.value, updatedAt := now)
    else
      var added := VariationNode(node, played.uci, played.san, played.fen, []);
      var nodes := if v.nextNode in v.nodes then v.nodes else v.nodes[v.nextNode := added];
      v.(nodes := nodes[node := nodes[node].(children := nodes[node].children + [v.nextNode])], current := v.nextNode,
         nextNode := v.nextNode + 1, updatedAt := now)
  }

  // ----- analyses -----

  function MistakeNotes(gameId: string, mistakes: seq<Mistake>): seq<Note> {
    if mistakes == [] then []
    else
      var last := mistakes[|mistakes| - 1];
      MistakeNotes(gameId, mistakes[..|mistakes| - 1]) +
      [MistakeDetected(gameId, last), MistakeClassified(gameId, last.ply), ExplanationCreated(gameId, last.ply)]
  }

  function MoveNotes(gameId: string, moves: seq<MoveAssessment>): seq<Note> {
    if moves == [] then [] else MoveNotes(gameId, moves[..|moves| - 1]) + [PositionAnalyzed(gameId, moves[|moves| - 1])]
  }

  function DrillOf(gameId: string, mistake: Mistake, now: int): (drill: Drill)
    ensures drill.attempts == []
  {
    Drill(DrillId(gameId, mistake.ply), gameId, mistake.fen, mistake.verifiedSolutions, [], now, [], 0, 0)
  }

  /** The drills an analysis adds: one per mistake with a verified solution, unless it exists. */
  function NewDrills(gameId: string, mistakes: seq<Mistake>, drills: map<string, Drill>, now: int): seq<Drill>
    decreases |mistakes|
  {
    if mistakes == [] then []
    else
      var drill := DrillOf(gameId, mistakes[0], now);
      if drill.id in drills || drill.solutions == [] then NewDrills(gameId, mistakes[1..], drills, now)
      else [drill] + NewDrills(gameId, mistakes[1..], drills[drill.id := drill], now)
  }

  /** The ratings in a game's tags are observed for both players. */
  function RatingNotes(game: Imported): seq<Note> {
    (if game.whiteElo.Some? then [RatingObserved(game.identity, game.white, game.whiteElo.value)] else []) +
    (if game.blackElo.Some? then [RatingObserved(game.identity, game.black, game.blackElo.value)] else [])
  }

  function Notes(notes: seq<Note>): (contents: seq<Content>)
    ensures |contents| == |notes| && forall i :: 0 <= i < |notes| ==> contents[i] == Noted(notes[i])
  {
    seq(|notes|, i requires 0 <= i < |notes| => Noted(notes[i]))
  }

  /** The events of a new game. */
  function GameContents(game: Imported): seq<Content> {
    [GameImported(game), Noted(GameParsed(game.identity, |game.plies|))] + Notes(RatingNotes(game))
  }

  /** The events of a new game are appended in two goes. */
  lemma GameEntries(game: Imported, log: seq<Entry>, firstId: nat, at: int)
    ensures
      var head := [GameImported(game), Noted(GameParsed(game.identity, |game.plies|))];
      log + Entries(head, firstId, at) + Entries(Notes(RatingNotes(game)), firstId + 2, at) ==
        log + Entries(GameContents(game), firstId, at)
  {
    var head, ratings := [GameImported(game), Noted(GameParsed(game.identity, |game.plies|))], Notes(RatingNotes(game));
    EntriesConcat(head, ratings, firstId, at);
    hide RatingNotes, Notes, Entries;
    assert log + (Entries(head, firstId, at) + Entries(ratings, firstId + 2, at)) ==
           log + Entries(head, firstId, at) + Entries(ratings, firstId + 2, at);
  }

  function DrillContents(drills: seq<Drill>): (contents: seq<Content>)
    ensures |contents| == |drills| && forall i :: 0 <= i < |drills| ==> contents[i] == DrillCreated(drills[i])
  {
    seq(|drills|, i requires 0 <= i < |drills| => DrillCreated(drills[i]))
  }

  lemma DrillContentsPush(drills: seq<Drill>, drill: Drill)
    ensures DrillContents(drills + [drill]) == DrillContents(drills) + [DrillCreated(drill)]
  {
  }

  /** The events of a full analysis. */
  function AnalysisContents(analysis: Analysis, drills: map<string, Drill>, now: int): seq<Content> {
    Notes(MoveNotes(analysis.gameId, analysis.moves) + MistakeNotes(analysis.gameId, analysis.mistakes)) +
    [AnalysisCompleted(analysis)] + DrillContents(NewDrills(analysis.gameId, analysis.mistakes, drills, now))
  }

  /** The events of a full analysis are appended in three goes. */
  lemma {:induction false} AnalysisEntries(analysis: Analysis, drills: map<string, Drill>, log: seq<Entry>, firstId: nat, at: int)
    ensures
      var notes := MoveNotes(analysis.gameId, analysis.moves) + MistakeNotes(analysis.gameId, analysis.mistakes);
      var created := DrillContents(NewDrills(analysis.gameId, analysis.mistakes, drills, at));
      log + Entries(Notes(notes), firstId, at) + [Entry(firstId + |notes|, at, AnalysisCompleted(analysis))] +
      Entries(created, firstId + |notes| + 1, at) ==
        log + Entries(AnalysisContents(analysis, drills, at), firstId, at)
  {
    hide MoveNotes, MistakeNotes, NewDrills;
    var notes := Notes(MoveNotes(analysis.gameId, analysis.moves) + MistakeNotes(analysis.gameId, analysis.mistakes));
    var created := DrillContents(NewDrills(analysis.gameId, analysis.mistakes, drills, at));
    EntriesPush(notes, AnalysisCompleted(analysis), firstId, at);
    EntriesConcat(notes + [AnalysisCompleted(analysis)], created, firstId, at);
    var a, b, c := Entries(notes, firstId, at), [Entry(firstId + |notes|, at, AnalysisCompleted(analysis))],
                   Entries(created, firstId + |notes| + 1, at);
    hide Entries, Notes, DrillContents;
    assert log + a + b + c == log + (a + b + c);
  }

  lemma {:induction false} NothingRecommended(recommended: set<string>, firstId: nat, at: int, log: seq<Entry>)
    ensures Recommendations([], recommended) == [] && log + Entries([], firstId, at) == log
  {
  }

  /** One event for each resource not recommended before, in order. */
  function Recommendations(resources: seq<string>, recommended: set<string>): seq<Content> {
    if resources == [] then []
    else
      var before, last := resources[..|resources| - 1], resources[|resources| - 1];
      Recommendations(before, recommended) + if last in recommended || last in before then [] else [ResourceRecommended(last)]
  }

  lemma {:induction false} RecommendationsStep(resources: seq<string>, i: nat, recommended: set<string>)
    requires i < |resources|
    ensures Recommendations(resources[..i + 1], recommended) ==
            Recommendations(resources[..i], recommended) +
            if resources[i] in recommended || resources[i] in resources[..i] then [] else [ResourceRecommended(resources[i])]
  {
    assert resources[..i + 1][..i] == resources[..i];
  }

  // ----- reviews -----

  /** The move is one of the game's and the full analysis assesses it. */
  predicate Reviewable(game: StoredGame, ply: nat) {
    game.analysis.Some? && ply < |game.analysis.value.moves| && ply < |game.imported.plies|
  }

  function NewReview(id: nat, game: StoredGame, gameId: string, ply: nat, uci: string, now: int): ReviewAttempt
    requires Reviewable(game, ply)
  {
    var assessment := game.analysis.value.moves[ply];
    ReviewAttempt(id, gameId, ply, uci, uci == assessment.best || uci in assessment.alternatives, now)
  }

  // ----- archive chunks -----

  /** The entries not indexed yet, the first of each game. */
  function Unindexed(archive: map<string, ArchiveEntry>, entries: seq<ArchiveEntry>): seq<ArchiveEntry> {
    if entries == [] then []
    else
      var before := Unindexed(archive, entries[..|entries| - 1]);
      var last := entries[|entries| - 1];
      if last.gameId in archive || (exists e :: e in before && e.gameId == last.gameId) then before else before + [last]
  }

  // ----- stored under their own keys -----

  ghost predicate KeyedDrills(drills: map<string, Drill>) {
    forall id :: id in drills ==> drills[id].id == id
  }

  ghost predicate KeyedVariations(variations: map<string, Variation>) {
    forall id :: id in variations ==> variations[id].id == id
  }

  lemma ReplacedBelow(variations: map<string, Variation>, next: nat, v: Variation)
    requires VariationsBelow(variations, next) && v.id in variations
    ensures VariationsBelow(variations[v.id := v], next)
  {
  }

  lemma RemovedBelow(variations: map<string, Variation>, next: nat, id: string)
    requires VariationsBelow(variations, next)
    ensures VariationsBelow(variations - {id}, next)
  {
  }

  lemma ReviewBelow(reviews: seq<ReviewAttempt>, review: ReviewAttempt)
    requires ReviewsBelow(reviews, review.id)
    ensures ReviewsBelow(reviews + [review], review.id + 1)
  {
  }

  lemma BatchBelow(batches: map<string, Batch>, batch: Batch)
    requires BatchesBelow(batches, batch.sequence)
    ensures BatchesBelow(batches[batch.id := batch], batch.sequence + 1)
  {
  }

  /** The loop over a chunk. */
  method FirstEntries(archive: map<string, ArchiveEntry>, entries: seq<ArchiveEntry>) returns (unique: seq<ArchiveEntry>)
    ensures unique == Unindexed(archive, entries)
  {
    unique := [];
    for i := 0 to |entries|
      invariant unique == Unindexed(archive, entries[..i])
    {
      assert entries[..i + 1][..i] == entries[..i];
      if entries[i].gameId !in archive && !(exists e | e in unique :: e.gameId == entries[i].gameId) {
        unique := unique + [entries[i]];
      }
    }
    assert entries[..|entries|] == entries;
  }
}
