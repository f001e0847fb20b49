/** The typed events of the log, the projection they fold into, and the fold. */
module Events {
  import opened Positions

  // ----- values carried by events -----

  datatype GamePly = GamePly(uci: string, before: string, after: string)

  datatype Imported = Imported(identity: string, pgn: string, sourceUrl: string, importMethod: string, white: string,
                               black: string, whiteElo: Option<int>, blackElo: Option<int>, plies: seq<GamePly>)

  datatype MoveAssessment = MoveAssessment(best: string, alternatives: seq<string>)

  datatype Attempt = Attempt(id: nat, attemptedAt: int, correct: bool, move: string, responseTime: nat, hintLevel: int,
                             retries: nat)

  datatype Drill = Drill(id: string, sourceGame: string, fen: string, solutions: seq<string>, evidence: seq<string>,
                         createdAt: int, attempts: seq<Attempt>, hintLevel: int, startedAt: int)

  datatype Mistake = Mistake(ply: nat, fen: string, verifiedSolutions: seq<string>)

  datatype Analysis = Analysis(gameId: string, moves: seq<MoveAssessment>, mistakes: seq<Mistake>)

  datatype Batch = Batch(id: string, sequence: nat, gameIds: seq<string>, counts: seq<nat>)

  datatype ChessComProfile = ChessComProfile(username: string, controls: seq<string>, cursor: string, lastSync: int,
                                             lastError: string)

  datatype Identity = Identity(gameId: string, playerName: string, confirmed: bool, decidedAt: int)

  datatype ArchiveEntry = ArchiveEntry(gameId: string, pgn: string, username: string, month: string, endTime: int)

  datatype Checkpoint = Checkpoint(username: string, month: string, indexedGames: nat, completedAt: int)

  datatype SyncState = SyncState(status: string, username: string, updatedAt: int, lastError: string)

  datatype VariationNode = VariationNode(parent: int, uci: string, san: string, fen: string, children: seq<nat>)

  datatype Variation = Variation(id: string, gameId: string, rootFen: string, current: nat, nextNode: nat, updatedAt: int,
                                 nodes: map<nat, VariationNode>)

  datatype ReviewAttempt = ReviewAttempt(id: nat, gameId: string, ply: nat, uci: string, accepted: bool, attemptedAt: int)

  datatype Marker = Marker(path: string, watermark: nat, version: int)

  // ----- parts of a projection -----

  datatype Table = ShallowTable | SessionTable | HintTable | StartTable | JobTable | CompletionTable | CheckpointTable
                 | VariationTable | PausedField | ProfileField | IdentityField | SyncField

  /** A part of a projection that a later event can overwrite; single fields have the empty key. */
  datatype Cell = Cell(table: Table, key: string)

  predicate IsField(table: Table) {
    table.PausedField? || table.ProfileField? || table.IdentityField? || table.SyncField?
  }

  /** What compaction tells events apart by: a kind and a key. A drill's session is one topic, its hint level
      and its start are two cells. */
  type Topic = t: Cell | !t.table.HintTable? && !t.table.StartTable? && (IsField(t.table) ==> t.key == "")
    witness Cell(JobTable, "")

  // ----- events -----

  /** What can still be read of an event whose payload does not decode: nothing; its topic, by its type alone
      or by the key in its payload; the game of an analysis; or that it is a snapshot marker. */
  datatype Remnant = Nothing | Named(topic: Topic) | OfAnalysis(analysedGame: string) | OfMarker

  /** Events that are only read by people and reports: the projection keeps nothing of them. */
  datatype Note =
    | GameParsed(parsedGame: string, plies: nat)
    | PositionAnalyzed(positionGame: string, move: MoveAssessment)
    | MistakeDetected(mistakeGame: string, mistake: Mistake)
    | MistakeClassified(classifiedGame: string, classifiedPly: nat)
    | ExplanationCreated(explainedGame: string, explainedPly: nat)
    | RatingObserved(ratedGame: string, player: string, rating: int)

  /** What an event holds. A session update whose hint level decodes and whose start does not still sets the
      hint level: `DrillHintUpdated`. */
  datatype Content =
    | GameImported(game: Imported)
    | AnalysisCompleted(analysis: Analysis)
    | DrillCreated(drill: Drill)
    | DrillAttempted(attemptedDrill: string, attempt: Attempt)
    | ResourceRecommended(recommended: string)
    | ResourceCompleted(resource: string, completedAt: int)
    | ProfileSnapshotCreated(marker: Marker)
    | SchemaMigrated
    | LogCompacted(sourceEvents: nat, retainedEvents: nat)
    | BatchCreated(batch: Batch)
    | BatchStateChanged(paused: Option<bool>)
    | AnalysisJobStateChanged(jobGame: string, status: string)
    | DrillSessionUpdated(sessionDrill: string, hintLevel: int, startedAt: int)
    | DrillHintUpdated(hintDrill: string, hint: int)
    | ShallowAnalysisCompleted(shallow: Analysis)
    | ChessComProfileUpdated(profile: ChessComProfile)
    | ArchiveChunkIndexed(entries: seq<ArchiveEntry>)
    | MonthCheckpointed(checkpoint: Checkpoint)
    | SyncStateChanged(sync: SyncState)
    | VariationSaved(variation: Variation)
    | VariationDeleted(deleted: string)
    | ReviewAttempted(review: ReviewAttempt)
    | PlayerIdentityUpdated(identity: Identity)
    | Noted(note: Note)
    | Undecodable(remnant: Remnant)

  datatype Entry = Entry(id: nat, at: int, content: Content)

  // ----- the projection -----

  datatype StoredGame = StoredGame(imported: Imported, analysis: Option<Analysis>, importedAt: int, analyzedAt: int,
                                   shallow: Option<Analysis>)

  datatype Projection = Projection(
    games: map<string, StoredGame>, drills: map<string, Drill>, completions: map<string, int>, recommended: set<string>,
    jobs: map<string, string>, paused: bool, batches: map<string, Batch>, profile: Option<ChessComProfile>,
    identity: Option<Identity>, archive: map<string, ArchiveEntry>, checkpoints: map<string, Checkpoint>,
    sync: SyncState, variations: map<string, Variation>, reviews: seq<ReviewAttempt>)

  const IDLE := SyncState("idle", "", 0, "")

  const EMPTY := Projection(map[], map[], map[], {}, map[], false, map[], None, None, map[], map[], IDLE, map[], [])

  function CheckpointKey(c: Checkpoint): string {
    c.username + "\n" + c.month
  }

  /** Keeps the first entry of each game. */
  function IndexArchive(archive: map<string, ArchiveEntry>, entries: seq<ArchiveEntry>): map<string, ArchiveEntry>
    decreases |entries|
  {
    if entries == [] then archive
    else
      var e := entries[0];
      IndexArchive(if e.gameId in archive then archive else archive[e.gameId := e], entries[1..])
  }

  // ----- one event applied on replay, field by field -----

  function GamesAfter(games: map<string, StoredGame>, e: Entry): map<string, StoredGame> {
    match e.content
    case GameImported(game) => games[game.identity := StoredGame(game, None, e.at, 0, None)]
    case AnalysisCompleted(analysis) =>
      if analysis.gameId !in games then games
      else games[analysis.gameId := games[analysis.gameId].(analysis := Some(analysis), analyzedAt := e.at)]
    case ShallowAnalysisCompleted(shallow) =>
      if shallow.gameId !in games || games[shallow.gameId].analysis.Some? then games
      else games[shallow.gameId := games[shallow.gameId].(shallow := Some(shallow))]
    case _ => games
  }

  function DrillsAfter(drills: map<string, Drill>, e: Entry): map<string, Drill> {
    match e.content
    case DrillCreated(drill) => drills[drill.id := drill]
    case DrillAttempted(id, attempt) =>
      if id !in drills then drills else drills[id := drills[id].(attempts := drills[id].attempts + [attempt])]
    case DrillSessionUpdated(id, hint, started) =>
      if id !in drills then drills else drills[id := drills[id].(hintLevel := hint, startedAt := started)]
    case DrillHintUpdated(id, hint) =>
      if id !in drills then drills else drills[id := drills[id].(hintLevel := hint)]
    case _ => drills
  }

  function CompletionsAfter(completions: map<string, int>, e: Entry): map<string, int> {
    if e.content.ResourceCompleted? then completions[e.content.resource := e.content.completedAt] else completions
  }

  function RecommendedAfter(recommended: set<string>, e: Entry): set<string> {
    if e.content.ResourceRecommended? then recommended + {e.content.recommended} else recommended
  }

  function JobsAfter(jobs: map<string, string>, e: Entry): map<string, string> {
    if e.content.AnalysisJobStateChanged? then jobs[e.content.jobGame := e.content.status] else jobs
  }

  /** A batch state without the field leaves the flag alone. */
  function PausedAfter(paused: bool, e: Entry): bool {
    if e.content.BatchStateChanged? && e.content.paused.Some? then e.content.paused.value else paused
  }

  function BatchesAfter(batches: map<string, Batch>, e: Entry): map<string, Batch> {
    if e.content.BatchCreated? then batches[e.content.batch.id := e.content.batch] else batches
  }

  function ProfileAfter(profile: Option<ChessComProfile>, e: Entry): Option<ChessComProfile> {
    if e.content.ChessComProfileUpdated? then Some(e.content.profile) else profile
  }

  function IdentityAfter(identity: Option<Identity>, e: Entry): Option<Identity> {
    if e.content.PlayerIdentityUpdated? then Some(e.content.identity) else identity
  }

  function ArchiveAfter(archive: map<string, ArchiveEntry>, e: Entry): map<string, ArchiveEntry> {
    if e.content.ArchiveChunkIndexed? then IndexArchive(archive, e.content.entries) else archive
  }

  function CheckpointsAfter(checkpoints: map<string, Checkpoint>, e: Entry): map<string, Checkpoint> {
    if e.content.MonthCheckpointed? then checkpoints[CheckpointKey(e.content.checkpoint) := e.content.checkpoint]
    else checkpoints
  }

  function SyncAfter(sync: SyncState, e: Entry): SyncState {
    if e.content.SyncStateChanged? then e.content.sync else sync
  }

  function VariationsAfter(variations: map<string, Variation>, e: Entry): map<string, Variation> {
    if e.content.VariationSaved? then variations[e.content.variation.id := e.content.variation]
    else if e.content.VariationDeleted? then variations - {e.content.deleted}
    else variations
  }

  function ReviewsAfter(reviews: seq<ReviewAttempt>, e: Entry): seq<ReviewAttempt> {
    if e.content.ReviewAttempted? then reviews + [e.content.review] else reviews
  }

  function Apply(p: Projection, e: Entry): Projection {
    Projection(GamesAfter(p.games, e), DrillsAfter(p.drills, e), CompletionsAfter(p.completions, e),
               RecommendedAfter(p.recommended, e), JobsAfter(p.jobs, e), PausedAfter(p.paused, e),
               BatchesAfter(p.batches, e), ProfileAfter(p.profile, e), IdentityAfter(p.identity, e),
               ArchiveAfter(p.archive, e), CheckpointsAfter(p.checkpoints, e), SyncAfter(p.sync, e),
               VariationsAfter(p.variations, e), ReviewsAfter(p.reviews, e))
  }

  function Fold(p: Projection, log: seq<Entry>): Projection
    decreases |log|
  {
    if log == [] then p else Fold(Apply(p, log[0]), log[1..])
  }

  lemma {:induction false} FoldConcat(p: Projection, a: seq<Entry>, b: seq<Entry>)
    ensures Fold(p, a + b) == Fold(Fold(p, a), b)
    decreases |a|
  {
    hide Apply;
    if a == [] {
      assert a + b == b;
    } else {
      assert (a + b)[0] == a[0] && (a + b)[1..] == a[1..] + b;
      FoldConcat(Apply(p, a[0]), a[1..], b);
    }
  }

  lemma {:induction false} FoldOne(p: Projection, log: seq<Entry>, e: Entry)
    ensures Fold(p, log + [e]) == Apply(Fold(p, log), e)
  {
    hide Apply;
    FoldConcat(p, log, [e]);
    assert Fold(Apply(Fold(p, log), e), [e][1..]) == Apply(Fold(p, log), e);
  }
}
