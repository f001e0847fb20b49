/** What single events do to a projection, and how an operation's events add up on disk. */
module Effects {
  import opened Positions
  import opened Events
  import opened Agreement
  import opened Compaction
  import opened Snapshots

  /** Contents any operation but a snapshot may append. */
  predicate IsPlain(c: Content) {
    !c.ProfileSnapshotCreated? && Complete(c)
  }

  /** The events one operation appends, numbered from the next id and stamped with one clock. */
  function Entries(contents: seq<Content>, firstId: nat, at: int): (log: seq<Entry>)
    ensures |log| == |contents|
    ensures forall i :: 0 <= i < |log| ==> log[i] == Entry(firstId + i, at, contents[i])
  {
    seq(|contents|, i requires 0 <= i < |contents| => Entry(firstId + i, at, contents[i]))
  }

  lemma EntriesPush(contents: seq<Content>, c: Content, firstId: nat, at: int)
    ensures Entries(contents + [c], firstId, at) == Entries(contents, firstId, at) + [Entry(firstId + |contents|, at, c)]
  {
  }

  lemma EntriesConcat(a: seq<Content>, b: seq<Content>, firstId: nat, at: int)
    ensures Entries(a + b, firstId, at) == Entries(a, firstId, at) + Entries(b, firstId + |a|, at)
  {
  }

  lemma LastPushed(disk: seq<Entry>, e: Entry)
    ensures LastId(disk + [e]) == e.id
  {
  }

  lemma LastIs(log: seq<Entry>)
    requires log != []
    ensures LastId(log) == log[|log| - 1].id
  {
  }

  /** An event applied in memory stands for the event appended on disk. */
  lemma {:induction false} AppliedAgrees(memory: Projection, disk: seq<Entry>, e: Entry)
    requires Agree({}, memory, Fold(EMPTY, disk))
    ensures Agree({}, Apply(memory, e), Fold(EMPTY, disk + [e]))
  {
    hide Agree, Fold, Apply;
    FoldOne(EMPTY, disk, e);
    ApplyAgree({}, memory, Fold(EMPTY, disk), e);
  }

  lemma NotedApplied(p: Projection, e: Entry)
    requires e.content.Noted?
    ensures Apply(p, e) == p
  {
  }

  lemma MarkerApplied(p: Projection, e: Entry)
    requires e.content.ProfileSnapshotCreated?
    ensures Apply(p, e) == p
  {
  }

  /** Kinds the replay does not look at, and payloads it cannot read. */
  lemma IgnoredApplied(p: Projection, e: Entry)
    requires e.content.Noted? || e.content.Undecodable? || e.content.SchemaMigrated? || e.content.LogCompacted? ||
             e.content.ProfileSnapshotCreated?
    ensures Apply(p, e) == p
  {
  }

  lemma BatchStateApplied(p: Projection, e: Entry)
    requires e.content.BatchStateChanged?
    ensures Apply(p, e) == if e.content.paused.Some? then p.(paused := e.content.paused.value) else p
  {
  }

  predicate HasAnalysis(p: Projection, id: string) {
    id in p.games && p.games[id].analysis.Some?
  }

  /** Analyses of unknown games, and shallow ones under a full one, change nothing. */
  lemma AnalysisIgnored(p: Projection, e: Entry)
    ensures e.content.AnalysisCompleted? && e.content.analysis.gameId !in p.games ==> Apply(p, e) == p
    ensures e.content.ShallowAnalysisCompleted? && e.content.shallow.gameId !in p.games ==> Apply(p, e) == p
    ensures e.content.ShallowAnalysisCompleted? && HasAnalysis(p, e.content.shallow.gameId) ==> Apply(p, e) == p
  {
    if e.content.AnalysisCompleted? {
      FullIgnored(p, e);
    } else if e.content.ShallowAnalysisCompleted? {
      ShallowIgnored(p, e);
    }
    hide Apply;
  }

  lemma FullIgnored(p: Projection, e: Entry)
    requires e.content.AnalysisCompleted?
    ensures e.content.analysis.gameId !in p.games ==> Apply(p, e) == p
  {
  }

  lemma ShallowIgnored(p: Projection, e: Entry)
    requires e.content.ShallowAnalysisCompleted?
    ensures e.content.shallow.gameId !in p.games || HasAnalysis(p, e.content.shallow.gameId) ==> Apply(p, e) == p
  {
  }

  lemma AttemptIgnored(p: Projection, e: Entry)
    requires e.content.DrillAttempted? && e.content.attemptedDrill !in p.drills
    ensures Apply(p, e) == p
  {
  }

  lemma SessionIgnored(p: Projection, e: Entry)
    requires e.content.DrillSessionUpdated? && e.content.sessionDrill !in p.drills
    ensures Apply(p, e) == p
  {
  }

  lemma HintIgnored(p: Projection, e: Entry)
    requires e.content.DrillHintUpdated? && e.content.hintDrill !in p.drills
    ensures Apply(p, e) == p
  {
  }

  lemma GameApplied(p: Projection, e: Entry)
    requires e.content.GameImported?
    ensures Apply(p, e) == p.(games := p.games[e.content.game.identity := StoredGame(e.content.game, None, e.at, 0, None)])
  {
  }

  lemma AnalysisApplied(p: Projection, e: Entry)
    requires e.content.AnalysisCompleted? && e.content.analysis.gameId in p.games
    ensures
      var id := e.content.analysis.gameId;
      Apply(p, e) == p.(games := p.games[id := p.games[id].(analysis := Some(e.content.analysis), analyzedAt := e.at)])
  {
  }

  lemma ShallowApplied(p: Projection, e: Entry)
    requires e.content.ShallowAnalysisCompleted? && e.content.shallow.gameId in p.games
    requires p.games[e.content.shallow.gameId].analysis.None?
    ensures
      var id := e.content.shallow.gameId;
      Apply(p, e) == p.(games := p.games[id := p.games[id].(shallow := Some(e.content.shallow))])
  {
  }

  lemma DrillApplied(p: Projection, e: Entry)
    requires e.content.DrillCreated?
    ensures Apply(p, e) == p.(drills := p.drills[e.content.drill.id := e.content.drill])
  {
  }

  lemma AttemptApplied(p: Projection, e: Entry)
    requires e.content.DrillAttempted? && e.content.attemptedDrill in p.drills
    ensures
      var id := e.content.attemptedDrill;
      Apply(p, e) == p.(drills := p.drills[id := p.drills[id].(attempts := p.drills[id].attempts + [e.content.attempt])])
  {
  }

  lemma SessionApplied(p: Projection, e: Entry)
    requires e.content.DrillSessionUpdated? && e.content.sessionDrill in p.drills
    ensures
      var id := e.content.sessionDrill;
      Apply(p, e) == p.(drills := p.drills[id := p.drills[id].(hintLevel := e.content.hintLevel, startedAt := e.content.startedAt)])
  {
  }

  lemma HintApplied(p: Projection, e: Entry)
    requires e.content.DrillHintUpdated? && e.content.hintDrill in p.drills
    ensures
      var id := e.content.hintDrill;
      Apply(p, e) == p.(drills := p.drills[id := p.drills[id].(hintLevel := e.content.hint)])
  {
  }

  lemma CompletionApplied(p: Projection, e: Entry)
    requires e.content.ResourceCompleted?
    ensures Apply(p, e) == p.(completions := p.completions[e.content.resource := e.content.completedAt])
  {
  }

  lemma RecommendationApplied(p: Projection, e: Entry)
    requires e.content.ResourceRecommended?
    ensures Apply(p, e) == p.(recommended := p.recommended + {e.content.recommended})
  {
  }

  lemma JobApplied(p: Projection, e: Entry)
    requires e.content.AnalysisJobStateChanged?
    ensures Apply(p, e) == p.(jobs := p.jobs[e.content.jobGame := e.content.status])
  {
  }

  lemma PausedApplied(p: Projection, e: Entry)
    requires e.content.BatchStateChanged? && e.content.paused.Some?
    ensures Apply(p, e) == p.(paused := e.content.paused.value)
  {
  }

  lemma BatchApplied(p: Projection, e: Entry)
    requires e.content.BatchCreated?
    ensures Apply(p, e) == p.(batches := p.batches[e.content.batch.id := e.content.batch])
  {
  }

  lemma ProfileApplied(p: Projection, e: Entry)
    requires e.content.ChessComProfileUpdated?
    ensures Apply(p, e) == p.(profile := Some(e.content.profile))
  {
  }

  lemma IdentityApplied(p: Projection, e: Entry)
    requires e.content.PlayerIdentityUpdated?
    ensures Apply(p, e) == p.(identity := Some(e.content.identity))
  {
  }

  lemma ArchiveApplied(p: Projection, e: Entry)
    requires e.content.ArchiveChunkIndexed?
    ensures Apply(p, e) == p.(archive := IndexArchive(p.archive, e.content.entries))
  {
  }

  lemma CheckpointApplied(p: Projection, e: Entry)
    requires e.content.MonthCheckpointed?
    ensures Apply(p, e) == p.(checkpoints := p.checkpoints[CheckpointKey(e.content.checkpoint) := e.content.checkpoint])
  {
  }

  lemma SyncApplied(p: Projection, e: Entry)
    requires e.content.SyncStateChanged?
    ensures Apply(p, e) == p.(sync := e.content.sync)
  {
  }

  lemma SavedApplied(p: Projection, e: Entry)
    requires e.content.VariationSaved?
    ensures Apply(p, e) == p.(variations := p.variations[e.content.variation.id := e.content.variation])
  {
  }

  lemma DeletedApplied(p: Projection, e: Entry)
    requires e.content.VariationDeleted?
    ensures Apply(p, e) == p.(variations := p.variations - {e.content.deleted})
  {
  }

  lemma ReviewApplied(p: Projection, e: Entry)
    requires e.content.ReviewAttempted?
    ensures Apply(p, e) == p.(reviews := p.reviews + [e.content.review])
  {
  }

  /** Clearing a shallow analysis under a full one is not observable. */
  lemma ShallowClearable(p: Projection, id: string)
    requires id in p.games && p.games[id].analysis.Some?
    ensures Agree({}, p.(games := p.games[id := p.games[id].(shallow := None)]), p)
  {
    AgreeSame({}, p);
    GamesPut({}, p.games, p.games, id, p.games[id].(shallow := None), p.games[id]);
    assert p.games[id := p.games[id]] == p.games;
    hide GamesAgree, DrillsAgree, MapsAgree;
  }
}
