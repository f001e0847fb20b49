/** What the projection of a log holds, read off the log: for each value, the event that decides it. */
module FoldMeaning {
  import opened Positions
  import opened Events

  /** What is asked of the log: the events about one thing. */
  datatype Question =
    | AboutJob(key: string) | AboutCompletion(key: string) | AboutMonth(username: string, month: string) | AboutBatch(key: string)
    | AboutProfile | AboutIdentity | AboutSync | AboutPause | AboutVariation(key: string) | AboutRecommended(key: string)
    | AboutImport(key: string) | AboutAnalysis(key: string) | AboutShallow(key: string)
    | AboutDrill(key: string) | AboutHint(key: string) | AboutSession(key: string)

  predicate Answers(c: Content, q: Question) {
    match q
    case AboutJob(game) => c.AnalysisJobStateChanged? && c.jobGame == game
    case AboutCompletion(resource) => c.ResourceCompleted? && c.resource == resource
    case AboutMonth(username, month) =>
      c.MonthCheckpointed? && c.checkpoint.username + "\n" + c.checkpoint.month == username + "\n" + month
    case AboutBatch(id) => c.BatchCreated? && c.batch.id == id
    case AboutProfile => c.ChessComProfileUpdated?
    case AboutIdentity => c.PlayerIdentityUpdated?
    case AboutSync => c.SyncStateChanged?
    case AboutPause => c.BatchStateChanged? && c.paused.Some?
    case AboutVariation(id) => (c.VariationSaved? && c.variation.id == id) || (c.VariationDeleted? && c.deleted == id)
    case AboutRecommended(resource) => c.ResourceRecommended? && c.recommended == resource
    case AboutImport(game) => c.GameImported? && c.game.identity == game
    case AboutAnalysis(game) => c.AnalysisCompleted? && c.analysis.gameId == game
    case AboutShallow(game) => c.ShallowAnalysisCompleted? && c.shallow.gameId == game
    case AboutDrill(id) => c.DrillCreated? && c.drill.id == id
    case AboutHint(id) => (c.DrillSessionUpdated? && c.sessionDrill == id) || (c.DrillHintUpdated? && c.hintDrill == id)
    case AboutSession(id) => c.DrillSessionUpdated? && c.sessionDrill == id
  }

  /** The place of the newest event that answers. */
  function Newest(log: seq<Entry>, q: Question): (place: Option<nat>)
    ensures place.Some? ==> place.value < |log| && Answers(log[place.value].content, q)
    ensures forall j :: 0 <= j < |log| && (place.None? || place.value < j) ==> !Answers(log[j].content, q)
  {
    if log == [] then None
    else if Answers(log[|log| - 1].content, q) then Some(|log| - 1)
    else Newest(log[..|log| - 1], q)
  }

  /** What it says, if there is one. */
  function Decides(log: seq<Entry>, q: Question): Option<Content> {
    match Newest(log, q)
    case Some(i) => Some(log[i].content)
    case None => None
  }

  lemma {:induction false} LastApplied(log: seq<Entry>)
    requires log != []
    ensures
      var p, e := Fold(EMPTY, log[..|log| - 1]), log[|log| - 1];
      Fold(EMPTY, log) == Apply(p, e)
  {
    hide Apply;
    FoldOne(EMPTY, log[..|log| - 1], log[|log| - 1]);
    assert log == log[..|log| - 1] + [log[|log| - 1]];
  }

  lemma DecidesLast(log: seq<Entry>, q: Question)
    requires log != []
    ensures
      var before, c := log[..|log| - 1], log[|log| - 1].content;
      Decides(log, q) == if Answers(c, q) then Some(c) else Decides(before, q)
  {
    hide Answers;
  }

  // ----- the newest event decides -----

  /** The status of a game's job. */
  lemma {:induction false} JobKept(log: seq<Entry>, game: string)
    ensures
      var jobs, decided := Fold(EMPTY, log).jobs, Decides(log, AboutJob(game));
      if decided.Some? then game in jobs && jobs[game] == decided.value.status else game !in jobs
    decreases |log|
  {
    if log != [] {
      JobKept(log[..|log| - 1], game);
      LastApplied(log);
      DecidesLast(log, AboutJob(game));
      hide Fold, Decides, GamesAfter, DrillsAfter, VariationsAfter, ArchiveAfter, CheckpointsAfter;
    }
  }

  /** When a resource was completed, and whether it was recommended. */
  lemma {:induction false} CompletionKept(log: seq<Entry>, resource: string)
    ensures
      var p, decided := Fold(EMPTY, log), Decides(log, AboutCompletion(resource));
      && (if decided.Some? then resource in p.completions && p.completions[resource] == decided.value.completedAt
          else resource !in p.completions)
      && (resource in p.recommended <==> Decides(log, AboutRecommended(resource)).Some?)
    decreases |log|
  {
    if log != [] {
      CompletionKept(log[..|log| - 1], resource);
      LastApplied(log);
      DecidesLast(log, AboutCompletion(resource));
      DecidesLast(log, AboutRecommended(resource));
      hide Fold, Decides, GamesAfter, DrillsAfter, VariationsAfter, ArchiveAfter, CheckpointsAfter;
    }
  }

  lemma {:induction false} BatchKept(log: seq<Entry>, id: string)
    ensures
      var batches, decided := Fold(EMPTY, log).batches, Decides(log, AboutBatch(id));
      if decided.Some? then id in batches && batches[id] == decided.value.batch else id !in batches
    decreases |log|
  {
    if log != [] {
      BatchKept(log[..|log| - 1], id);
      LastApplied(log);
      DecidesLast(log, AboutBatch(id));
      hide Fold, Decides, GamesAfter, DrillsAfter, VariationsAfter, ArchiveAfter, CheckpointsAfter;
    }
  }

  /** The checkpoint of a month. */
  lemma {:induction false} MonthKept(log: seq<Entry>, username: string, month: string)
    ensures
      var kept, key, decided := Fold(EMPTY, log).checkpoints, username + "\n" + month, Decides(log, AboutMonth(username, month));
      if decided.Some? then key in kept && kept[key] == decided.value.checkpoint else key !in kept
    decreases |log|
  {
    if log != [] {
      MonthKept(log[..|log| - 1], username, month);
      LastApplied(log);
      DecidesLast(log, AboutMonth(username, month));
      hide Fold, Decides, GamesAfter, DrillsAfter, VariationsAfter, ArchiveAfter;
    }
  }

  /** A variation, unless it was deleted since it was saved. */
  lemma {:induction false} VariationKept(log: seq<Entry>, id: string)
    ensures
      var kept, decided := Fold(EMPTY, log).variations, Decides(log, AboutVariation(id));
      if decided.Some? && decided.value.VariationSaved? then id in kept && kept[id] == decided.value.variation else id !in kept
    decreases |log|
  {
    if log != [] {
      VariationKept(log[..|log| - 1], id);
      LastApplied(log);
      DecidesLast(log, AboutVariation(id));
      hide Fold, Decides, GamesAfter, DrillsAfter, ArchiveAfter, CheckpointsAfter;
    }
  }

  /** The profile, the player's identity, the state of the synchronisation, and the pause flag. */
  lemma {:induction false} KeptOnce(log: seq<Entry>)
    ensures
      var p := Fold(EMPTY, log);
      var profile, identity, sync, pause := Decides(log, AboutProfile), Decides(log, AboutIdentity), Decides(log, AboutSync),
                                            Decides(log, AboutPause);
      && p.profile == (if profile.Some? then Some(profile.value.profile) else None)
      && p.identity == (if identity.Some? then Some(identity.value.identity) else None)
      && p.sync == (if sync.Some? then sync.value.sync else SyncState("idle", "", 0, ""))
      && p.paused == (pause.Some? && pause.value.paused.value)
    decreases |log|
  {
    if log != [] {
      KeptOnce(log[..|log| - 1]);
      LastApplied(log);
      DecidesLast(log, AboutProfile);
      DecidesLast(log, AboutIdentity);
      DecidesLast(log, AboutSync);
      DecidesLast(log, AboutPause);
      hide Fold, Decides, GamesAfter, DrillsAfter, VariationsAfter, ArchiveAfter, CheckpointsAfter;
    }
  }

  // ----- everything in order -----

  /** All reviews, in the order of their events. */
  function ReviewsIn(log: seq<Entry>): seq<ReviewAttempt> {
    if log == [] then []
    else
      var c := log[|log| - 1].content;
      ReviewsIn(log[..|log| - 1]) + if c.ReviewAttempted? then [c.review] else []
  }

  lemma {:induction false} ReviewsKept(log: seq<Entry>)
    ensures Fold(EMPTY, log).reviews == ReviewsIn(log)
    decreases |log|
  {
    if log != [] {
      ReviewsKept(log[..|log| - 1]);
      LastApplied(log);
      hide Fold, GamesAfter, DrillsAfter, VariationsAfter, ArchiveAfter, CheckpointsAfter;
    }
  }

  /** All archive entries, in the order of their events and within these. */
  function ArchivedIn(log: seq<Entry>): seq<ArchiveEntry> {
    if log == [] then []
    else
      var c := log[|log| - 1].content;
      ArchivedIn(log[..|log| - 1]) + if c.ArchiveChunkIndexed? then c.entries else []
  }

  /** The first entry of a game. */
  function FirstOf(entries: seq<ArchiveEntry>, game: string): Option<ArchiveEntry> {
    if entries == [] then None else if entries[0].gameId == game then Some(entries[0]) else FirstOf(entries[1..], game)
  }

  lemma {:induction false} FirstConcat(a: seq<ArchiveEntry>, b: seq<ArchiveEntry>, game: string)
    ensures FirstOf(a + b, game) == if FirstOf(a, game).Some? then FirstOf(a, game) else FirstOf(b, game)
  {
    if a == [] {
      assert a + b == b;
    } else {
      assert (a + b)[1..] == a[1..] + b;
      FirstConcat(a[1..], b, game);
    }
  }

  lemma {:induction false} IndexKeepsFirst(archive: map<string, ArchiveEntry>, entries: seq<ArchiveEntry>, game: string)
    ensures
      var indexed, first := IndexArchive(archive, entries), FirstOf(entries, game);
      if game in archive then game in indexed && indexed[game] == archive[game]
      else if first.Some? then game in indexed && indexed[game] == first.value
      else game !in indexed
    decreases |entries|
  {
    if entries != [] {
      var e := entries[0];
      IndexKeepsFirst(if e.gameId in archive then archive else archive[e.gameId := e], entries[1..], game);
    }
  }

  /** The archive has of each game the entry that came first. */
  lemma {:induction false} ArchiveKept(log: seq<Entry>, game: string)
    ensures
      var archive, first := Fold(EMPTY, log).archive, FirstOf(ArchivedIn(log), game);
      if first.Some? then game in archive && archive[game] == first.value else game !in archive
    decreases |log|
  {
    if log != [] {
      var p, c := Fold(EMPTY, log[..|log| - 1]), log[|log| - 1].content;
      ArchiveKept(log[..|log| - 1], game);
      LastApplied(log);
      if c.ArchiveChunkIndexed? {
        IndexKeepsFirst(p.archive, c.entries, game);
        FirstConcat(ArchivedIn(log[..|log| - 1]), c.entries, game);
      } else {
        assert ArchivedIn(log[..|log| - 1]) + [] == ArchivedIn(log[..|log| - 1]);
      }
      hide Fold, IndexArchive, FirstOf, GamesAfter, DrillsAfter, VariationsAfter, CheckpointsAfter;
    }
  }

  // ----- games and drills -----

  /** The newest answer after a place. */
  function DecidesAfter(log: seq<Entry>, i: nat, q: Question): Option<nat> {
    var newest := Newest(log, q);
    if newest.Some? && newest.value > i then newest else None
  }

  lemma NewestLast(log: seq<Entry>, q: Question)
    requires log != []
    ensures
      var last := |log| - 1;
      Newest(log, q) == if Answers(log[last].content, q) then Some(last) else Newest(log[..last], q)
  {
    hide Answers;
  }

  function Lookup<T>(table: map<string, T>, key: string): Option<T> {
    if key in table then Some(table[key]) else None
  }

  /** A game as it was imported last, with the full analysis that came last after that, and without one with the
      shallow analysis that came last. */
  predicate GameReads(log: seq<Entry>, game: string, stored: Option<StoredGame>) {
    var imported := Newest(log, AboutImport(game));
    if imported.None? then stored.None?
    else
      var e := log[imported.value];
      var full, shallow := DecidesAfter(log, imported.value, AboutAnalysis(game)), DecidesAfter(log, imported.value, AboutShallow(game));
      && stored.Some? && stored.value.imported == e.content.game && stored.value.importedAt == e.at
      && (if full.Some? then
            stored.value.analysis == Some(log[full.value].content.analysis) && stored.value.analyzedAt == log[full.value].at
          else
            && stored.value.analysis == None && stored.value.analyzedAt == 0
            && stored.value.shallow == if shallow.Some? then Some(log[shallow.value].content.shallow) else None)
  }

  lemma ImportReads(log: seq<Entry>, game: string, games: map<string, StoredGame>)
    requires log != [] && Answers(log[|log| - 1].content, AboutImport(game))
    ensures GameReads(log, game, Lookup(GamesAfter(games, log[|log| - 1]), game))
  {
    NewestLast(log, AboutImport(game));
    hide Newest;
  }

  lemma OtherReads(log: seq<Entry>, game: string, stored: Option<StoredGame>)
    requires log != [] && GameReads(log[..|log| - 1], game, stored)
    requires
      var c := log[|log| - 1].content;
      !Answers(c, AboutImport(game)) && !Answers(c, AboutAnalysis(game)) && !Answers(c, AboutShallow(game))
    ensures GameReads(log, game, stored)
  {
    NewestLast(log, AboutImport(game));
    NewestLast(log, AboutAnalysis(game));
    NewestLast(log, AboutShallow(game));
    hide Newest, Answers;
  }

  lemma AnalysisReads(log: seq<Entry>, game: string, games: map<string, StoredGame>)
    requires log != [] && Answers(log[|log| - 1].content, AboutAnalysis(game)) && GameReads(log[..|log| - 1], game, Lookup(games, game))
    ensures GameReads(log, game, Lookup(GamesAfter(games, log[|log| - 1]), game))
  {
    NewestLast(log, AboutImport(game));
    NewestLast(log, AboutAnalysis(game));
    hide Newest;
  }

  lemma ShallowReads(log: seq<Entry>, game: string, games: map<string, StoredGame>)
    requires log != [] && Answers(log[|log| - 1].content, AboutShallow(game)) && GameReads(log[..|log| - 1], game, Lookup(games, game))
    ensures GameReads(log, game, Lookup(GamesAfter(games, log[|log| - 1]), game))
  {
    NewestLast(log, AboutImport(game));
    NewestLast(log, AboutAnalysis(game));
    NewestLast(log, AboutShallow(game));
    assert log[|log| - 1].content.ShallowAnalysisCompleted? && log[|log| - 1].content.shallow.gameId == game;
    assert !Answers(log[|log| - 1].content, AboutImport(game)) && !Answers(log[|log| - 1].content, AboutAnalysis(game));
    hide Newest, Answers;
  }

  lemma ElsewhereGames(games: map<string, StoredGame>, e: Entry, game: string)
    requires !Answers(e.content, AboutImport(game)) && !Answers(e.content, AboutAnalysis(game)) && !Answers(e.content, AboutShallow(game))
    ensures Lookup(GamesAfter(games, e), game) == Lookup(games, game)
  {
  }

  lemma {:induction false} GameKept(log: seq<Entry>, game: string)
    ensures GameReads(log, game, Lookup(Fold(EMPTY, log).games, game))
    decreases |log|
  {
    if log != [] {
      var games, c := Fold(EMPTY, log[..|log| - 1]).games, log[|log| - 1].content;
      GameKept(log[..|log| - 1], game);
      LastApplied(log);
      hide Fold, GameReads, GamesAfter, DrillsAfter, VariationsAfter, ArchiveAfter, CheckpointsAfter, Answers, Lookup;
      if Answers(c, AboutImport(game)) {
        ImportReads(log, game, games);
      } else if Answers(c, AboutAnalysis(game)) {
        AnalysisReads(log, game, games);
      } else if Answers(c, AboutShallow(game)) {
        ShallowReads(log, game, games);
      } else {
        ElsewhereGames(games, log[|log| - 1], game);
        OtherReads(log, game, Lookup(games, game));
      }
    }
  }

  /** The attempts at a drill recorded after a place, in order. */
  function AttemptsIn(log: seq<Entry>, i: nat, id: string): seq<Attempt> {
    if |log| <= i + 1 then []
    else
      var c := log[|log| - 1].content;
      AttemptsIn(log[..|log| - 1], i, id) + if c.DrillAttempted? && c.attemptedDrill == id then [c.attempt] else []
  }

  function HintIn(c: Content): int
    requires c.DrillHintUpdated? || c.DrillSessionUpdated?
  {
    if c.DrillHintUpdated? then c.hint else c.hintLevel
  }

  /** A drill as it was created last, with the attempts and the state of its session since. */
  predicate DrillReads(log: seq<Entry>, id: string, drill: Option<Drill>) {
    var created := Newest(log, AboutDrill(id));
    if created.None? then drill.None?
    else
      var original := log[created.value].content.drill;
      var hint, session := DecidesAfter(log, created.value, AboutHint(id)), DecidesAfter(log, created.value, AboutSession(id));
      drill == Some(original.(attempts := original.attempts + AttemptsIn(log, created.value, id),
                              hintLevel := if hint.None? then original.hintLevel else HintIn(log[hint.value].content),
                              startedAt := if session.None? then original.startedAt else log[session.value].content.startedAt))
  }

  predicate Tries(c: Content, id: string) {
    c.DrillAttempted? && c.attemptedDrill == id
  }

  lemma AttemptsLast(log: seq<Entry>, i: nat, id: string)
    requires log != []
    ensures
      var last := |log| - 1;
      AttemptsIn(log, i, id) ==
        if i < last then AttemptsIn(log[..last], i, id) + (if Tries(log[last].content, id) then [log[last].content.attempt] else []) else []
  {
  }

  lemma CreationReads(log: seq<Entry>, id: string, drills: map<string, Drill>)
    requires log != [] && Answers(log[|log| - 1].content, AboutDrill(id))
    ensures DrillReads(log, id, Lookup(DrillsAfter(drills, log[|log| - 1]), id))
  {
    var drill := log[|log| - 1].content.drill;
    NewestLast(log, AboutDrill(id));
    AttemptsLast(log, |log| - 1, id);
    assert drill.attempts + [] == drill.attempts;
    hide Newest, AttemptsIn;
  }

  lemma UpdateReads(log: seq<Entry>, id: string, drills: map<string, Drill>)
    requires log != [] && DrillReads(log[..|log| - 1], id, Lookup(drills, id))
    requires Answers(log[|log| - 1].content, AboutHint(id))
    ensures DrillReads(log, id, Lookup(DrillsAfter(drills, log[|log| - 1]), id))
  {
    NewestLast(log, AboutDrill(id));
    NewestLast(log, AboutHint(id));
    NewestLast(log, AboutSession(id));
    var created := Newest(log, AboutDrill(id));
    if created.Some? {
      AttemptsLast(log, created.value, id);
      assert AttemptsIn(log[..|log| - 1], created.value, id) + [] == AttemptsIn(log[..|log| - 1], created.value, id);
    }
    HintAnswers(log[|log| - 1].content, id);
    hide Newest, AttemptsIn, Answers;
  }

  lemma HintAnswers(c: Content, id: string)
    requires Answers(c, AboutHint(id))
    ensures !Answers(c, AboutDrill(id)) && !Tries(c, id)
    ensures (c.DrillSessionUpdated? && c.sessionDrill == id) || (c.DrillHintUpdated? && c.hintDrill == id)
    ensures Answers(c, AboutSession(id)) <==> c.DrillSessionUpdated?
  {
  }

  lemma TriesAnswers(c: Content, id: string)
    requires Tries(c, id)
    ensures !Answers(c, AboutDrill(id)) && !Answers(c, AboutHint(id)) && !Answers(c, AboutSession(id))
    ensures c.DrillAttempted? && c.attemptedDrill == id
  {
  }

  lemma AppendedOnce<T>(a: seq<T>, b: seq<T>, x: T)
    ensures a + b + [x] == a + (b + [x])
  {
  }

  lemma AttemptReads(log: seq<Entry>, id: string, drills: map<string, Drill>)
    requires log != [] && DrillReads(log[..|log| - 1], id, Lookup(drills, id)) && Tries(log[|log| - 1].content, id)
    ensures DrillReads(log, id, Lookup(DrillsAfter(drills, log[|log| - 1]), id))
  {
    NewestLast(log, AboutDrill(id));
    NewestLast(log, AboutHint(id));
    NewestLast(log, AboutSession(id));
    TriesAnswers(log[|log| - 1].content, id);
    var created := Newest(log, AboutDrill(id));
    if created.Some? {
      AttemptsLast(log, created.value, id);
      AppendedOnce(log[created.value].content.drill.attempts, AttemptsIn(log[..|log| - 1], created.value, id),
                   log[|log| - 1].content.attempt);
    }
    hide Newest, AttemptsIn, Answers, Tries, HintIn;
  }

  lemma RestReads(log: seq<Entry>, id: string, drill: Option<Drill>)
    requires log != [] && DrillReads(log[..|log| - 1], id, drill)
    requires
      var c := log[|log| - 1].content;
      !Answers(c, AboutDrill(id)) && !Answers(c, AboutHint(id)) && !Answers(c, AboutSession(id)) && !Tries(c, id)
    ensures DrillReads(log, id, drill)
  {
    NewestLast(log, AboutDrill(id));
    NewestLast(log, AboutHint(id));
    NewestLast(log, AboutSession(id));
    var created := Newest(log, AboutDrill(id));
    if created.Some? {
      AttemptsLast(log, created.value, id);
      assert AttemptsIn(log[..|log| - 1], created.value, id) + [] == AttemptsIn(log[..|log| - 1], created.value, id);
    }
    hide Newest, AttemptsIn, Answers, Tries;
  }

  lemma ElsewhereDrills(drills: map<string, Drill>, e: Entry, id: string)
    requires !Answers(e.content, AboutDrill(id)) && !Answers(e.content, AboutHint(id)) && !Tries(e.content, id)
    ensures Lookup(DrillsAfter(drills, e), id) == Lookup(drills, id) && !Answers(e.content, AboutSession(id))
  {
  }

  lemma {:induction false} DrillKept(log: seq<Entry>, id: string)
    ensures DrillReads(log, id, Lookup(Fold(EMPTY, log).drills, id))
    decreases |log|
  {
    if log != [] {
      var drills, c := Fold(EMPTY, log[..|log| - 1]).drills, log[|log| - 1].content;
      DrillKept(log[..|log| - 1], id);
      LastApplied(log);
      hide Fold, DrillReads, GamesAfter, DrillsAfter, VariationsAfter, ArchiveAfter, CheckpointsAfter, Answers, Lookup, Tries;
      if Answers(c, AboutDrill(id)) {
        CreationReads(log, id, drills);
      } else if Answers(c, AboutHint(id)) {
        UpdateReads(log, id, drills);
      } else if Tries(c, id) {
        AttemptReads(log, id, drills);
      } else {
        ElsewhereDrills(drills, log[|log| - 1], id);
        RestReads(log, id, Lookup(drills, id));
      }
    }
  }
}
