/** The repository: every operation appends events to the log and then updates the projection in
    memory. Each method keeps `Valid`: the memory agrees with folding the events read when the log was opened
    and appended since. The bytes of the log hold those events as long as it was not torn when opened, and then
    a restart between operations loses nothing. */
module Repositories {
  import opened Positions
  import opened Text
  import opened Events
  import opened Agreement
  import opened Compaction
  import opened Snapshots
  import opened SnapshotRuns
  import opened Counters
  import opened Effects
  import opened RepositoryValues
  import Bytes
  import Records
  import ReplayProofs
  import Appends
  import RetainScan
  import EventLogs
  import Crashes

  datatype Outcome = Done | Unchanged | NotFound | InvalidArgument | NotLegal | IoError

  class Repository {
    // the log, as read when it was opened and appended to since, and the snapshot directory
    var history: seq<Entry>
    var nextId: nat
    const intact: bool
    const torn: bool
    var files: map<string, File>
    // the projection
    var memory: Projection
    // allocation counters
    var nextAttemptId: nat
    var nextBatchId: nat
    var nextVariationId: nat
    var nextReviewId: nat
    // how far the projection has followed the log
    var projectionEventId: nat
    var contiguous: bool

    ghost predicate LogSound()
      reads `history, `files, `nextId
    {
      Sound(Disk(history, files)) && nextId == LastId(history) + 1
    }

    /** Folding the log gives the projection in memory. */
    ghost predicate MemorySound()
      reads `memory, `history
    {
      Agree({}, memory, Fold(EMPTY, history))
    }

    /** Whenever the projection is contiguous its event id is the last of the log; it is contiguous
        exactly when the log was intact when opened. */
    ghost predicate NotesSound()
      reads `contiguous, `projectionEventId, `history
    {
      contiguous == intact && (contiguous ==> projectionEventId == LastId(history))
    }

    /** Values are stored under their own identifiers; new batches, variations and reviews get fresh ones. */
    ghost predicate KeysSound()
      reads `memory, `nextBatchId, `nextVariationId, `nextReviewId
    {
      && KeyedDrills(memory.drills) && KeyedVariations(memory.variations)
      && BatchesBelow(memory.batches, nextBatchId)
      && VariationsBelow(memory.variations, nextVariationId)
      && ReviewsBelow(memory.reviews, nextReviewId)
    }

    /** New attempts get fresh numbers. */
    ghost predicate FreshAttempts()
      reads `memory, `nextAttemptId
    {
      DrillsBelow(memory.drills, nextAttemptId)
    }

    ghost predicate Valid()
      reads this
    {
      LogSound() && MemorySound() && NotesSound() && KeysSound()
    }

    /** The log was opened, or rewritten, with the given bytes and the given records were appended since. */
    ghost predicate Wrote(origin: Bytes.Bytes, appended: seq<Records.Event>, decode: RetainScan.Decoder)
      reads `history
    {
      && Records.AllEncodable(appended)
      && history == RetainScan.TypedAll(Records.ReplayAll(origin).events + appended, decode)
      && intact == EventLogs.IsIntact(Records.ReplayAll(origin)) && torn == Records.ReplayAll(origin).truncated
    }

    // ----- the log -----

    method Append(content: Content, at: int) returns (e: Entry)
      requires LogSound() && IsPlain(content)
      modifies `history, `nextId
      ensures LogSound() && e == Entry(old(nextId), at, content)
      ensures history == old(history) + [e] && nextId == old(nextId) + 1
    {
      hide Sound;
      e := Entry(nextId, at, content);
      StepKeepsSound(Disk(history, files), Step.Append(e));
      history := history + [e];
      nextId := nextId + 1;
    }

    method Note(e: Entry)
      modifies `projectionEventId, `contiguous
      ensures
        if old(contiguous) && e.id == old(projectionEventId) + 1 then projectionEventId == e.id && contiguous
        else projectionEventId == old(projectionEventId) && !contiguous
    {
      if contiguous && e.id == projectionEventId + 1 {
        projectionEventId := e.id;
        return;
      }
      contiguous := false;
    }

    // ----- operations of one event -----

    /** Every status change of an analysis job is recorded; the last one per game counts. */
    method RecordJobState(gameId: string, status: string, now: int)
      requires Valid()
      modifies this
      ensures Valid()
      ensures old(FreshAttempts()) ==> FreshAttempts()
      ensures history == old(history) + [Entry(old(nextId), now, AnalysisJobStateChanged(gameId, status))]
    {
      hide Agree, Fold, Sound, Apply, LastId, BatchesBelow, VariationsBelow, ReviewsBelow, KeyedDrills, KeyedVariations,
           DrillsBelow;
      ghost var before, log := memory, history;
      var e := Append(AnalysisJobStateChanged(gameId, status), now);
      memory := memory.(jobs := memory.jobs[gameId := status]);
      JobApplied(before, e);
      AppliedAgrees(before, log, e);
      Note(e);
      LastPushed(log, e);
    }

    /** The queue's pause flag. */
    method SetBackgroundPaused(value: bool, now: int)
      requires Valid()
      modifies this
      ensures Valid()
      ensures old(FreshAttempts()) ==> FreshAttempts()
      ensures history == old(history) + [Entry(old(nextId), now, BatchStateChanged(Some(value)))]
      ensures memory == old(memory).(paused := value)
    {
      hide Agree, Fold, Sound, Apply, LastId, BatchesBelow, VariationsBelow, ReviewsBelow, KeyedDrills, KeyedVariations,
           DrillsBelow;
      ghost var before, log := memory, history;
      var e := Append(BatchStateChanged(Some(value)), now);
      memory := memory.(paused := value);
      PausedApplied(before, e);
      AppliedAgrees(before, log, e);
      Note(e);
      LastPushed(log, e);
    }

    /** A resource of the catalogue was worked through. */
    method CompleteResource(resource: string, known: bool, completedAt: int, now: int) returns (outcome: Outcome)
      requires Valid()
      modifies this
      ensures Valid()
      ensures old(FreshAttempts()) ==> FreshAttempts()
      ensures outcome == if known then Done else NotFound
      ensures history == old(history) + if known then [Entry(old(nextId), now, ResourceCompleted(resource, completedAt))] else []
    {
      hide Agree, Fold, Sound, Apply, LastId, BatchesBelow, VariationsBelow, ReviewsBelow, KeyedDrills, KeyedVariations,
           DrillsBelow;
      ghost var before, log := memory, history;
      if !known {
        return NotFound;
      }
      var e := Append(ResourceCompleted(resource, completedAt), now);
      memory := memory.(completions := memory.completions[resource := completedAt]);
      CompletionApplied(before, e);
      AppliedAgrees(before, log, e);
      Note(e);
      LastPushed(log, e);
      return Done;
    }

    /** A quick analysis, kept only while there is no full one. */
    method SaveShallowAnalysis(analysis: Analysis, now: int) returns (outcome: Outcome)
      requires Valid()
      modifies this
      ensures Valid()
      ensures old(FreshAttempts()) ==> FreshAttempts()
      ensures
        var games := old(memory).games;
        outcome == if analysis.gameId !in games then NotFound
                   else if games[analysis.gameId].analysis.Some? then Unchanged else Done
      ensures history == old(history) + if outcome == Done then [Entry(old(nextId), now, ShallowAnalysisCompleted(analysis))] else []
    {
      hide Agree, Fold, Sound, Apply, LastId, BatchesBelow, VariationsBelow, ReviewsBelow, KeyedDrills, KeyedVariations,
           DrillsBelow;
      ghost var before, log := memory, history;
      if analysis.gameId !in memory.games {
        return NotFound;
      }
      if memory.games[analysis.gameId].analysis.Some? {
        return Unchanged;
      }
      var e := Append(ShallowAnalysisCompleted(analysis), now);
      memory := memory.(games := memory.games[analysis.gameId := memory.games[analysis.gameId].(shallow := Some(analysis))]);
      ShallowApplied(before, e);
      AppliedAgrees(before, log, e);
      Note(e);
      LastPushed(log, e);
      return Done;
    }

    /** A new drill with legal solutions and evidence; an existing one is left alone. */
    method AddValidatedDrill(drill: Drill, legal: bool, now: int) returns (outcome: Outcome)
      requires Valid()
      modifies this
      ensures Valid()
      ensures
        outcome == if IncompleteDrill(drill) then InvalidArgument else if drill.id in old(memory).drills then Unchanged
                   else if !legal then NotLegal else Done
      ensures history == old(history) + if outcome == Done then [Entry(old(nextId), now, DrillCreated(Dated(drill, now)))] else []
      ensures memory == if outcome == Done then old(memory).(drills := old(memory).drills[drill.id := Dated(drill, now)]) else old(memory)
      ensures nextAttemptId == old(nextAttemptId)
      ensures outcome == Done && old(FreshAttempts()) ==> (FreshAttempts() <==> AttemptsBelow(drill.attempts, nextAttemptId))
    {
      hide Valid, KeysSound, DrillsBelow, AttemptsBelow, IncompleteDrill;
      if IncompleteDrill(drill) {
        return InvalidArgument;
      }
      if drill.id in memory.drills {
        return Unchanged;
      }
      if !legal {
        return NotLegal;
      }
      AddDrill(Dated(drill, now), now);
      return Done;
    }

    /** Starts the drill's session unless one is running. */
    method BeginDrillSession(id: string, now: int) returns (outcome: Outcome)
      requires Valid()
      modifies this
      ensures Valid()
      ensures old(FreshAttempts()) ==> FreshAttempts()
      ensures
        var drills := old(memory).drills;
        outcome == if id !in drills then NotFound else if drills[id].startedAt != 0 then Unchanged else Done
      ensures
        history == old(history) + if outcome != Done then []
                            else [Entry(old(nextId), now, DrillSessionUpdated(id, old(memory).drills[id].hintLevel, now))]
    {
      hide Agree, Fold, Sound, Apply, LastId, BatchesBelow, VariationsBelow, ReviewsBelow, KeyedVariations, DrillsBelow;
      ghost var before, log := memory, history;
      if id !in memory.drills {
        return NotFound;
      }
      var drill := memory.drills[id];
      if drill.startedAt != 0 {
        return Unchanged;
      }
      var e := Append(DrillSessionUpdated(id, drill.hintLevel, now), now);
      SameAttemptsBelow(memory.drills, nextAttemptId, id, drill.(startedAt := now));
      memory := memory.(drills := memory.drills[id := drill.(startedAt := now)]);
      SessionApplied(before, e);
      AppliedAgrees(before, log, e);
      Note(e);
      LastPushed(log, e);
      return Done;
    }

    /** One more hint, once enough attempts of the session have failed. */
    method AdvanceHint(id: string, now: int) returns (outcome: Outcome)
      requires Valid()
      modifies this
      ensures Valid()
      ensures old(FreshAttempts()) ==> FreshAttempts()
      ensures
        var drills := old(memory).drills;
        outcome == if id !in drills then NotFound
                   else if drills[id].hintLevel >= AvailableHint(drills[id]) then InvalidArgument else Done
      ensures
        history == old(history) + if outcome != Done then []
                            else
                              var drill := old(memory).drills[id];
                              [Entry(old(nextId), now, DrillSessionUpdated(id, NextHint(drill), drill.startedAt))]
    {
      hide Agree, Fold, Sound, Apply, LastId, BatchesBelow, VariationsBelow, ReviewsBelow, KeyedVariations, DrillsBelow, AvailableHint, NextHint;
      ghost var before, log := memory, history;
      if id !in memory.drills {
        return NotFound;
      }
      var drill := memory.drills[id];
      if drill.hintLevel >= AvailableHint(drill) {
        return InvalidArgument;
      }
      var e := Append(DrillSessionUpdated(id, NextHint(drill), drill.startedAt), now);
      SameAttemptsBelow(memory.drills, nextAttemptId, id, drill.(hintLevel := NextHint(drill)));
      memory := memory.(drills := memory.drills[id := drill.(hintLevel := NextHint(drill))]);
      SessionApplied(before, e);
      AppliedAgrees(before, log, e);
      Note(e);
      LastPushed(log, e);
      return Done;
    }

    /** A batch under the next batch number. */
    method CreateBatch(gameIds: seq<string>, counts: seq<nat>, now: int) returns (batch: Batch)
      requires Valid()
      modifies this
      ensures Valid()
      ensures old(FreshAttempts()) ==> FreshAttempts()
      ensures batch == Batch(BatchId(old(nextBatchId)), old(nextBatchId), gameIds, counts) && nextBatchId == old(nextBatchId) + 1
      ensures history == old(history) + [Entry(old(nextId), now, BatchCreated(batch))]
    {
      hide Agree, Fold, Sound, Apply, LastId, BatchesBelow, VariationsBelow, ReviewsBelow, KeyedDrills, KeyedVariations,
           DrillsBelow;
      ghost var before, log := memory, history;
      batch := Batch(BatchId(nextBatchId), nextBatchId, gameIds, counts);
      BatchBelow(memory.batches, batch);
      nextBatchId := nextBatchId + 1;
      var e := Append(BatchCreated(batch), now);
      memory := memory.(batches := memory.batches[batch.id := batch]);
      BatchApplied(before, e);
      AppliedAgrees(before, log, e);
      Note(e);
      LastPushed(log, e);
    }

    /** The profile, if it changed; its fields are validated and normalised beforehand. */
    method SaveChessComProfile(profile: ChessComProfile, now: int) returns (outcome: Outcome)
      requires Valid()
      modifies this
      ensures Valid()
      ensures old(FreshAttempts()) ==> FreshAttempts()
      ensures outcome == if old(memory).profile == Some(profile) then Unchanged else Done
      ensures history == old(history) + if outcome == Done then [Entry(old(nextId), now, ChessComProfileUpdated(profile))] else []
    {
      hide Agree, Fold, Sound, Apply, LastId, BatchesBelow, VariationsBelow, ReviewsBelow, KeyedDrills, KeyedVariations,
           DrillsBelow;
      ghost var before, log := memory, history;
      if memory.profile == Some(profile) {
        return Unchanged;
      }
      var e := Append(ChessComProfileUpdated(profile), now);
      memory := memory.(profile := Some(profile));
      ProfileApplied(before, e);
      AppliedAgrees(before, log, e);
      Note(e);
      LastPushed(log, e);
      return Done;
    }

    /** Which player the user is; a name must be one of the two in the game. */
    method SavePlayerIdentity(decided: Identity, now: int) returns (outcome: Outcome)
      requires Valid()
      modifies this
      ensures Valid()
      ensures old(FreshAttempts()) ==> FreshAttempts()
      ensures
        var games := old(memory).games;
        outcome == if decided.gameId !in games then NotFound
                   else if !NameFits(decided, games[decided.gameId].imported) then InvalidArgument
                   else if old(memory).identity == Some(DatedIdentity(decided, now)) then Unchanged else Done
      ensures
        history == old(history) + if outcome == Done then [Entry(old(nextId), now, PlayerIdentityUpdated(DatedIdentity(decided, now)))]
                            else []
    {
      hide Agree, Fold, Sound, Apply, LastId, BatchesBelow, VariationsBelow, ReviewsBelow, KeyedDrills, KeyedVariations,
           DrillsBelow;
      ghost var before, log := memory, history;
      if decided.gameId !in memory.games {
        return NotFound;
      }
      if !NameFits(decided, memory.games[decided.gameId].imported) {
        return InvalidArgument;
      }
      var identity := DatedIdentity(decided, now);
      if memory.identity == Some(identity) {
        return Unchanged;
      }
      var e := Append(PlayerIdentityUpdated(identity), now);
      memory := memory.(identity := Some(identity));
      IdentityApplied(before, e);
      AppliedAgrees(before, log, e);
      Note(e);
      LastPushed(log, e);
      return Done;
    }

    /** A month is complete; a checkpoint older than the stored one is refused. */
    method CheckpointMonth(checkpoint: Checkpoint, now: int) returns (outcome: Outcome)
      requires Valid()
      modifies this
      ensures Valid()
      ensures old(FreshAttempts()) ==> FreshAttempts()
      ensures
        var key, stored := CheckpointKey(checkpoint), old(memory).checkpoints;
        outcome == if key in stored && stored[key] == checkpoint then Unchanged
                   else if key in stored && checkpoint.completedAt < stored[key].completedAt then InvalidArgument else Done
      ensures history == old(history) + if outcome == Done then [Entry(old(nextId), now, MonthCheckpointed(checkpoint))] else []
    {
      hide Agree, Fold, Sound, Apply, LastId, BatchesBelow, VariationsBelow, ReviewsBelow, KeyedDrills, KeyedVariations, DrillsBelow, CheckpointKey;
      ghost var before, log := memory, history;
      var key := CheckpointKey(checkpoint);
      if key in memory.checkpoints {
        if memory.checkpoints[key] == checkpoint {
          return Unchanged;
        }
        if checkpoint.completedAt < memory.checkpoints[key].completedAt {
          return InvalidArgument;
        }
      }
      var e := Append(MonthCheckpointed(checkpoint), now);
      memory := memory.(checkpoints := memory.checkpoints[key := checkpoint]);
      CheckpointApplied(before, e);
      AppliedAgrees(before, log, e);
      Note(e);
      LastPushed(log, e);
      return Done;
    }

    /** The state of the archive synchronisation; a state older than the stored one is refused. */
    method SaveSyncState(state: SyncState, now: int) returns (outcome: Outcome)
      requires Valid()
      modifies this
      ensures Valid()
      ensures old(FreshAttempts()) ==> FreshAttempts()
      ensures
        outcome == if state.updatedAt < old(memory).sync.updatedAt then InvalidArgument
                   else if state == old(memory).sync then Unchanged else Done
      ensures history == old(history) + if outcome == Done then [Entry(old(nextId), now, SyncStateChanged(state))] else []
    {
      hide Agree, Fold, Sound, Apply, LastId, BatchesBelow, VariationsBelow, ReviewsBelow, KeyedDrills, KeyedVariations,
           DrillsBelow;
      ghost var before, log := memory, history;
      if state.updatedAt < memory.sync.updatedAt {
        return InvalidArgument;
      }
      if state == memory.sync {
        return Unchanged;
      }
      var e := Append(SyncStateChanged(state), now);
      memory := memory.(sync := state);
      SyncApplied(before, e);
      AppliedAgrees(before, log, e);
      Note(e);
      LastPushed(log, e);
      return Done;
    }

    /** A chunk of the archive; only games not indexed yet are written, the first entry of each. */
    method IndexArchiveChunk(entries: seq<ArchiveEntry>, now: int) returns (outcome: Outcome, added: nat)
      requires Valid()
      modifies this
      ensures Valid()
      ensures old(FreshAttempts()) ==> FreshAttempts()
      ensures outcome == if |entries| > 256 then InvalidArgument
                         else if Unindexed(old(memory).archive, entries) == [] then Unchanged else Done
      ensures added == if outcome == Done then |Unindexed(old(memory).archive, entries)| else 0
      ensures
        history == old(history) + if outcome != Done then []
                            else [Entry(old(nextId), now, ArchiveChunkIndexed(Unindexed(old(memory).archive, entries)))]
    {
      hide Agree, Fold, Sound, Apply, LastId, BatchesBelow, VariationsBelow, ReviewsBelow, KeyedDrills, KeyedVariations, DrillsBelow,
           IndexArchive, Unindexed;
      ghost var before, log := memory, history;
      if |entries| > 256 {
        return InvalidArgument, 0;
      }
      var unique := FirstEntries(memory.archive, entries);
      if unique == [] {
        return Unchanged, 0;
      }
      var e := Append(ArchiveChunkIndexed(unique), now);
      memory := memory.(archive := IndexArchive(memory.archive, unique));
      ArchiveApplied(before, e);
      AppliedAgrees(before, log, e);
      Note(e);
      LastPushed(log, e);
      return Done, |unique|;
    }

    // ----- variations and reviews -----

    /** A variation from a ply of a game, under the next variation number, which is fresh. */
    method CreateVariation(gameId: string, rootPly: nat, fromBefore: bool, now: int)
      returns (outcome: Outcome, variation: Option<Variation>)
      requires Valid()
      requires nextVariationId < ID_LIMIT
      modifies this
      ensures Valid()
      ensures old(FreshAttempts()) ==> FreshAttempts()
      ensures
        var games := old(memory).games;
        outcome == if gameId !in games then NotFound else if rootPly >= |games[gameId].imported.plies| then InvalidArgument else Done
      ensures outcome != Done ==> variation == None && history == old(history)
      ensures outcome == Done ==>
                && variation == Some(RootedVariation(VariationId(old(nextVariationId)), gameId,
                                                     RootFen(old(memory).games[gameId].imported.plies[rootPly], fromBefore), now))
                && variation.value.id !in old(memory).variations
                && history == old(history) + [Entry(old(nextId), now, VariationSaved(variation.value))]
    {
      hide Agree, Fold, Sound, Apply, LastId, BatchesBelow, VariationsBelow, ReviewsBelow, KeyedDrills, DrillsBelow, VariationId;
      ghost var before, log := memory, history;
      if gameId !in memory.games {
        return NotFound, None;
      }
      if rootPly >= |memory.games[gameId].imported.plies| {
        return InvalidArgument, None;
      }
      var ply := memory.games[gameId].imported.plies[rootPly];
      var created := RootedVariation(VariationId(nextVariationId), gameId, RootFen(ply, fromBefore), now);
      NextIsFresh(memory.variations, nextVariationId);
      AllocatedBelow(memory.variations, nextVariationId, created);
      nextVariationId := nextVariationId + 1;
      var e := Append(VariationSaved(created), now);
      memory := memory.(variations := memory.variations[created.id := created]);
      SavedApplied(before, e);
      AppliedAgrees(before, log, e);
      Note(e);
      LastPushed(log, e);
      return Done, Some(created);
    }

    /** A legal move played in a variation: along an existing child, or as a new one. */
    method ExtendVariation(id: string, node: nat, played: Option<PlayedMove>, now: int) returns (outcome: Outcome)
      requires Valid()
      modifies this
      ensures Valid()
      ensures old(FreshAttempts()) ==> FreshAttempts()
      ensures
        var variations := old(memory).variations;
        outcome == if id !in variations || node !in variations[id].nodes then NotFound
                   else if played.None? then NotLegal else Done
      ensures
        history == old(history) + if outcome != Done then []
                            else [Entry(old(nextId), now, VariationSaved(Extended(old(memory).variations[id], node, played.value, now)))]
    {
      hide Agree, Fold, Sound, Apply, LastId, BatchesBelow, VariationsBelow, ReviewsBelow, KeyedDrills, DrillsBelow, Extended;
      ghost var before, log := memory, history;
      if id !in memory.variations || node !in memory.variations[id].nodes {
        return NotFound;
      }
      if played.None? {
        return NotLegal;
      }
      var updated := Extended(memory.variations[id], node, played.value, now);
      ReplacedBelow(memory.variations, nextVariationId, updated);
      var e := Append(VariationSaved(updated), now);
      memory := memory.(variations := memory.variations[id := updated]);
      SavedApplied(before, e);
      AppliedAgrees(before, log, e);
      Note(e);
      LastPushed(log, e);
      return Done;
    }

    /** The cursor of a variation. */
    method SetVariationCursor(id: string, node: nat, now: int) returns (outcome: Outcome)
      requires Valid()
      modifies this
      ensures Valid()
      ensures old(FreshAttempts()) ==> FreshAttempts()
      ensures
        var variations := old(memory).variations;
        outcome == if id !in variations || node !in variations[id].nodes then NotFound else Done
      ensures
        history == old(history) + if outcome != Done then []
                            else [Entry(old(nextId), now, VariationSaved(old(memory).variations[id].(current := node, updatedAt := now)))]
    {
      hide Agree, Fold, Sound, Apply, LastId, BatchesBelow, VariationsBelow, ReviewsBelow, KeyedDrills, DrillsBelow;
      ghost var before, log := memory, history;
      if id !in memory.variations || node !in memory.variations[id].nodes {
        return NotFound;
      }
      var updated := memory.variations[id].(current := node, updatedAt := now);
      ReplacedBelow(memory.variations, nextVariationId, updated);
      var e := Append(VariationSaved(updated), now);
      memory := memory.(variations := memory.variations[id := updated]);
      SavedApplied(before, e);
      AppliedAgrees(before, log, e);
      Note(e);
      LastPushed(log, e);
      return Done;
    }

    /** Deletes a variation, if there is one. */
    method DeleteVariation(id: string, now: int) returns (deleted: bool)
      requires Valid()
      modifies this
      ensures Valid()
      ensures old(FreshAttempts()) ==> FreshAttempts()
      ensures deleted <==> id in old(memory).variations
      ensures history == old(history) + if deleted then [Entry(old(nextId), now, VariationDeleted(id))] else []
    {
      hide Agree, Fold, Sound, Apply, LastId, BatchesBelow, VariationsBelow, ReviewsBelow, KeyedDrills, DrillsBelow;
      ghost var before, log := memory, history;
      if id !in memory.variations {
        return false;
      }
      RemovedBelow(memory.variations, nextVariationId, id);
      var e := Append(VariationDeleted(id), now);
      memory := memory.(variations := memory.variations - {id});
      DeletedApplied(before, e);
      AppliedAgrees(before, log, e);
      Note(e);
      LastPushed(log, e);
      return true;
    }

    /** A retry of an analysed move, under the next review number; accepted if it is best or as good. */
    method RecordReviewAttempt(gameId: string, ply: nat, played: Option<string>, now: int) returns (outcome: Outcome)
      requires Valid()
      modifies this
      ensures Valid()
      ensures old(FreshAttempts()) ==> FreshAttempts()
      ensures
        var games := old(memory).games;
        outcome == if gameId !in games then NotFound else if !Reviewable(games[gameId], ply) then InvalidArgument
                   else if played.None? then NotLegal else Done
      ensures
        history == old(history) + if outcome != Done then []
                            else [Entry(old(nextId), now, ReviewAttempted(NewReview(old(nextReviewId), old(memory).games[gameId], gameId,
                                                                                    ply, played.value, now)))]
    {
      hide Agree, Fold, Sound, Apply, LastId, BatchesBelow, VariationsBelow, ReviewsBelow, KeyedDrills, KeyedVariations,
           DrillsBelow;
      ghost var before, log := memory, history;
      if gameId !in memory.games {
        return NotFound;
      }
      if !Reviewable(memory.games[gameId], ply) {
        return InvalidArgument;
      }
      if played.None? {
        return NotLegal;
      }
      var review := NewReview(nextReviewId, memory.games[gameId], gameId, ply, played.value, now);
      ReviewBelow(memory.reviews, review);
      nextReviewId := nextReviewId + 1;
      var e := Append(ReviewAttempted(review), now);
      memory := memory.(reviews := memory.reviews + [review]);
      ReviewApplied(before, e);
      AppliedAgrees(before, log, e);
      Note(e);
      LastPushed(log, e);
      return Done;
    }

    // ----- operations of several events -----

    /** An event the projection keeps nothing of. */
    method LogNote(note: Note, now: int)
      requires Valid()
      modifies this
      ensures Valid()
      ensures old(FreshAttempts()) ==> FreshAttempts()
      ensures memory == old(memory) && history == old(history) + [Entry(old(nextId), now, Noted(note))] && nextId == old(nextId) + 1
    {
      hide Agree, Fold, Sound, Apply, LastId, BatchesBelow, VariationsBelow, ReviewsBelow, KeyedDrills, KeyedVariations,
           DrillsBelow;
      ghost var before, log := memory, history;
      var e := Append(Noted(note), now);
      memory := memory.(games := memory.games);
      NotedApplied(before, e);
      AppliedAgrees(before, log, e);
      Note(e);
      LastPushed(log, e);
    }

    /** A drill not known yet. */
    method AddDrill(drill: Drill, now: int)
      requires Valid()
      modifies this
      ensures Valid()
      ensures memory == old(memory).(drills := old(memory).drills[drill.id := drill])
      ensures nextAttemptId == old(nextAttemptId)
      ensures old(FreshAttempts()) ==> (FreshAttempts() <==> AttemptsBelow(drill.attempts, nextAttemptId))
      ensures history == old(history) + [Entry(old(nextId), now, DrillCreated(drill))] && nextId == old(nextId) + 1
    {
      hide Agree, Fold, Sound, Apply, LastId, BatchesBelow, VariationsBelow, ReviewsBelow, KeyedVariations, DrillsBelow;
      ghost var before, log := memory, history;
      if FreshAttempts() {
        DrillBelow(memory.drills, nextAttemptId, drill.id, drill);
      }
      var e := Append(DrillCreated(drill), now);
      memory := memory.(drills := memory.drills[drill.id := drill]);
      DrillApplied(before, e);
      AppliedAgrees(before, log, e);
      Note(e);
      LastPushed(log, e);
    }

    /** A session update of a known drill. */
    method UpdateSession(id: string, hint: int, started: int, now: int)
      requires Valid()
      requires id in memory.drills
      modifies this
      ensures Valid()
      ensures old(FreshAttempts()) ==> FreshAttempts()
      ensures history == old(history) + [Entry(old(nextId), now, DrillSessionUpdated(id, hint, started))]
      ensures nextAttemptId == old(nextAttemptId)
    {
      hide Agree, Fold, Sound, Apply, LastId, BatchesBelow, VariationsBelow, ReviewsBelow, KeyedVariations, DrillsBelow;
      ghost var before, log := memory, history;
      var e := Append(DrillSessionUpdated(id, hint, started), now);
      SameAttemptsBelow(memory.drills, nextAttemptId, id, memory.drills[id].(hintLevel := hint, startedAt := started));
      memory := memory.(drills := memory.drills[id := memory.drills[id].(hintLevel := hint, startedAt := started)]);
      SessionApplied(before, e);
      AppliedAgrees(before, log, e);
      Note(e);
      LastPushed(log, e);
    }

    /** An attempt appended to a known drill. */
    method LogAttempt(id: string, attempt: Attempt, now: int)
      requires Valid()
      requires id in memory.drills
      modifies this
      ensures Valid()
      ensures memory.drills.Keys == old(memory.drills.Keys) && nextAttemptId == old(nextAttemptId)
      ensures old(FreshAttempts()) && attempt.id < nextAttemptId ==> FreshAttempts()
      ensures history == old(history) + [Entry(old(nextId), now, DrillAttempted(id, attempt))] && nextId == old(nextId) + 1
    {
      hide Agree, Fold, Sound, Apply, LastId, BatchesBelow, VariationsBelow, ReviewsBelow, KeyedVariations, DrillsBelow;
      ghost var before, log := memory, history;
      if attempt.id < nextAttemptId {
        AttemptBelow(memory.drills, nextAttemptId, nextAttemptId, id, attempt);
      }
      var e := Append(DrillAttempted(id, attempt), now);
      memory := memory.(drills := memory.drills[id := memory.drills[id].(attempts := memory.drills[id].attempts + [attempt])]);
      AttemptApplied(before, e);
      AppliedAgrees(before, log, e);
      Note(e);
      LastPushed(log, e);
    }

    /** A full analysis: the shallow one is cleared, which the fold does not do and no one can see. */
    method FinishAnalysis(analysis: Analysis, now: int)
      requires Valid()
      requires analysis.gameId in memory.games
      modifies this
      ensures Valid()
      ensures old(FreshAttempts()) ==> FreshAttempts()
      ensures memory.drills == old(memory).drills
      ensures history == old(history) + [Entry(old(nextId), now, AnalysisCompleted(analysis))] && nextId == old(nextId) + 1
    {
      hide Agree, Fold, Sound, Apply, LastId, BatchesBelow, VariationsBelow, ReviewsBelow, KeyedDrills, KeyedVariations,
           DrillsBelow;
      ghost var before, log := memory, history;
      var id := analysis.gameId;
      var e := Append(AnalysisCompleted(analysis), now);
      memory := memory.(games := memory.games[id := memory.games[id].(analysis := Some(analysis), shallow := None, analyzedAt := now)]);
      AnalysisApplied(before, e);
      AppliedAgrees(before, log, e);
      ShallowClearable(Apply(before, e), id);
      assert memory == Apply(before, e).(games := Apply(before, e).games[id := Apply(before, e).games[id].(shallow := None)]);
      AgreeTransitive({}, memory, Apply(before, e), Fold(EMPTY, history));
      Note(e);
      LastPushed(log, e);
    }

    /** A recommendation not made before. */
    method Recommend(resource: string, now: int)
      requires Valid()
      modifies this
      ensures Valid()
      ensures old(FreshAttempts()) ==> FreshAttempts()
      ensures memory == old(memory).(recommended := old(memory).recommended + {resource})
      ensures history == old(history) + [Entry(old(nextId), now, ResourceRecommended(resource))] && nextId == old(nextId) + 1
    {
      hide Agree, Fold, Sound, Apply, LastId, BatchesBelow, VariationsBelow, ReviewsBelow, KeyedDrills, KeyedVariations,
           DrillsBelow;
      ghost var before, log := memory, history;
      var e := Append(ResourceRecommended(resource), now);
      memory := memory.(recommended := memory.recommended + {resource});
      RecommendationApplied(before, e);
      AppliedAgrees(before, log, e);
      Note(e);
      LastPushed(log, e);
    }

    /** An attempt at a drill, judged against its solutions; a correct one ends the session. */
    method RecordAttempt(id: string, move: string, legal: bool, reported: nat, attemptedAt: int, now: int)
      returns (outcome: Outcome, attempt: Option<Attempt>)
      requires Valid()
      modifies this
      ensures Valid()
      ensures outcome == if id !in old(memory).drills then NotFound else if !legal then InvalidArgument else Done
      ensures old(FreshAttempts()) ==> FreshAttempts() && AttemptUnused(old(memory).drills, old(nextAttemptId))
      ensures outcome != Done ==> attempt == None && history == old(history)
      ensures outcome == Done ==>
                && attempt == Some(NewAttempt(old(nextAttemptId), old(memory).drills[id], move, reported, attemptedAt))
                && nextAttemptId == old(nextAttemptId) + 1
                && history == old(history) + Entries([DrillAttempted(id, attempt.value)] +
                             if attempt.value.correct then [DrillSessionUpdated(id, 0, 0)] else [], old(nextId), now)
    {
      hide Valid, DrillsBelow, AttemptUnused;
      NextUnused(memory.drills, nextAttemptId);
      if id !in memory.drills {
        return NotFound, None;
      }
      if !legal {
        return InvalidArgument, None;
      }
      var recorded := NewAttempt(nextAttemptId, memory.drills[id], move, reported, attemptedAt);
      TakeAttemptId();
      ghost var log, first := history, nextId;
      LogAttempt(id, recorded, now);
      ghost var contents := [DrillAttempted(id, recorded)];
      assert history == log + Entries(contents, first, now);
      if recorded.correct {
        EntriesPush(contents, DrillSessionUpdated(id, 0, 0), first, now);
        UpdateSession(id, 0, 0, now);
      } else {
        assert contents + [] == contents;
      }
      return Done, Some(recorded);
    }

    method TakeAttemptId()
      requires Valid()
      modifies `nextAttemptId
      ensures Valid() && nextAttemptId == old(nextAttemptId) + 1
      ensures old(FreshAttempts()) ==> FreshAttempts()
    {
      hide DrillsBelow;
      LaterBelow(memory.drills, nextAttemptId, nextAttemptId + 1);
      nextAttemptId := nextAttemptId + 1;
    }

    /** Records the recommendations not made before. */
    method RecommendResources(resources: seq<string>, now: int)
      requires Valid()
      modifies this
      ensures Valid() && forall r :: r in memory.recommended <==> r in old(memory).recommended || r in resources
      ensures old(FreshAttempts()) ==> FreshAttempts()
      ensures history == old(history) + Entries(Recommendations(resources, old(memory).recommended), old(nextId), now)
    {
      hide Valid, Entries, Recommendations;
      ghost var known, first, log := memory.recommended, nextId, history;
      ghost var contents: seq<Content> := [];
      NothingRecommended(known, first, now, log);
      for i := 0 to |resources|
        invariant Valid() && nextId == first + |contents| && (old(FreshAttempts()) ==> FreshAttempts())
        invariant contents == Recommendations(resources[..i], known)
        invariant forall r :: r in memory.recommended <==> r in known || r in resources[..i]
        invariant history == log + Entries(contents, first, now)
      {
        assert resources[..i + 1] == resources[..i] + [resources[i]];
        RecommendationsStep(resources, i, known);
        if resources[i] !in memory.recommended {
          EntriesPush(contents, ResourceRecommended(resources[i]), first, now);
          Recommend(resources[i], now);
          contents := contents + [ResourceRecommended(resources[i])];
        } else {
          assert contents + [] == contents;
        }
      }
      assert resources[..|resources|] == resources;
    }

    /** Appends notes one by one. */
    method LogNotes(notes: seq<Note>, now: int)
      requires Valid()
      modifies this
      ensures Valid() && memory == old(memory) && nextId == old(nextId) + |notes|
      ensures old(FreshAttempts()) ==> FreshAttempts()
      ensures history == old(history) + Entries(Notes(notes), old(nextId), now)
    {
      hide Valid;
      for i := 0 to |notes|
        invariant Valid() && memory == old(memory) && nextId == old(nextId) + i && (old(FreshAttempts()) ==> FreshAttempts())
        invariant history == old(history) + Entries(Notes(notes[..i]), old(nextId), now)
      {
        assert Notes(notes[..i + 1]) == Notes(notes[..i]) + [Noted(notes[i])];
        EntriesPush(Notes(notes[..i]), Noted(notes[i]), old(nextId), now);
        LogNote(notes[i], now);
      }
      assert notes[..|notes|] == notes;
    }

    /** A game, unless it is known: two events, then the memory, then the ratings in its tags. */
    method AddGame(game: Imported, now: int) returns (outcome: Outcome)
      requires Valid()
      modifies this
      ensures Valid()
      ensures old(FreshAttempts()) ==> FreshAttempts()
      ensures outcome == if game.identity in old(memory).games then Unchanged else Done
      ensures history == old(history) + if outcome == Done then Entries(GameContents(game), old(nextId), now) else []
      ensures game.identity in memory.games
    {
      hide Valid, GameContents, RatingNotes, Entries, Notes;
      if game.identity in memory.games {
        return Unchanged;
      }
      GameEntries(game, history, nextId, now);
      ImportGame(game, now);
      LogNotes(RatingNotes(game), now);
      return Done;
    }

    method ImportGame(game: Imported, now: int)
      requires Valid() && game.identity !in memory.games
      modifies this
      ensures Valid() && nextId == old(nextId) + 2
      ensures old(FreshAttempts()) ==> FreshAttempts()
      ensures memory.games == old(memory).games[game.identity := StoredGame(game, None, now, 0, None)]
      ensures history == old(history) + Entries([GameImported(game), Noted(GameParsed(game.identity, |game.plies|))], old(nextId), now)
    {
      hide Agree, Fold, Sound, Apply, LastId, BatchesBelow, VariationsBelow, ReviewsBelow, KeyedDrills, KeyedVariations,
           DrillsBelow;
      ghost var before, log := memory, history;
      var imported := Append(GameImported(game), now);
      var parsed := Append(Noted(GameParsed(game.identity, |game.plies|)), now);
      memory := memory.(games := memory.games[game.identity := StoredGame(game, None, now, 0, None)]);
      GameApplied(before, imported);
      AppliedAgrees(before, log, imported);
      NotedApplied(memory, parsed);
      AppliedAgrees(memory, log + [imported], parsed);
      LastPushed(log, imported);
      LastPushed(log + [imported], parsed);
      Note(imported);
      Note(parsed);
      assert history == log + Entries([imported.content, parsed.content], old(nextId), now);
    }

    /** A full analysis of a known game: a note per move and three per mistake, the analysis, and a
        drill for each mistake with a verified solution. */
    method SaveAnalysis(analysis: Analysis, now: int) returns (outcome: Outcome)
      requires Valid()
      modifies this
      ensures Valid()
      ensures old(FreshAttempts()) ==> FreshAttempts()
      ensures outcome == if analysis.gameId in old(memory).games then Done else NotFound
      ensures history == old(history) +
                      if outcome == Done then Entries(AnalysisContents(analysis, old(memory).drills, now), old(nextId), now)
                      else []
    {
      hide Valid, MoveNotes, MistakeNotes, NewDrills, Entries, Notes, DrillContents, AnalysisContents;
      if analysis.gameId !in memory.games {
        return NotFound;
      }
      AnalysisEntries(analysis, memory.drills, history, nextId, now);
      LogNotes(MoveNotes(analysis.gameId, analysis.moves) + MistakeNotes(analysis.gameId, analysis.mistakes), now);
      FinishAnalysis(analysis, now);
      AddDrills(analysis.gameId, analysis.mistakes, now);
      return Done;
    }

    /** The drills of an analysis, one mistake at a time. */
    method AddDrills(gameId: string, mistakes: seq<Mistake>, now: int)
      requires Valid()
      modifies this
      ensures Valid()
      ensures old(FreshAttempts()) ==> FreshAttempts()
      ensures history == old(history) + Entries(DrillContents(NewDrills(gameId, mistakes, old(memory).drills, now)), old(nextId), now)
    {
      hide Valid, DrillOf;
      ghost var known, first, log := memory.drills, nextId, history;
      ghost var created: seq<Drill> := [];
      assert mistakes[0..] == mistakes;
      for i := 0 to |mistakes|
        invariant Valid() && nextId == first + |created| && (old(FreshAttempts()) ==> FreshAttempts())
        invariant created + NewDrills(gameId, mistakes[i..], memory.drills, now) == NewDrills(gameId, mistakes, known, now)
        invariant history == log + Entries(DrillContents(created), first, now)
      {
        assert mistakes[i..][1..] == mistakes[i + 1..];
        var drill := DrillOf(gameId, mistakes[i], now);
        if drill.id !in memory.drills && drill.solutions != [] {
          DrillContentsPush(created, drill);
          EntriesPush(DrillContents(created), DrillCreated(drill), first, now);
          AddDrill(drill, now);
          created := created + [drill];
        }
      }
      assert created + [] == created;
    }

    // ----- snapshots and compaction -----

    /** Writes a snapshot of the projection and authorises it with a marker; refused if the log is not
        intact or the projection has not followed it to its end. */
    method CreateSnapshot(name: string, now: int) returns (outcome: Outcome)
      requires Valid()
      modifies this
      ensures Valid() && memory == old(memory)
      ensures old(FreshAttempts()) ==> FreshAttempts()
      ensures outcome == if intact then Done else IoError
      ensures outcome == Done ==>
                && history == old(history) + [Entry(old(nextId), now, ProfileSnapshotCreated(Marker(name, LastId(old(history)), 2)))]
                && files == old(files)[name := Snapshot(LastId(old(history)), 2, SnapshotOf(memory))]
      ensures outcome != Done ==> history == old(history) && files == old(files)
    {
      hide Agree, Fold, Sound, Apply, BatchesBelow, VariationsBelow, ReviewsBelow, KeyedDrills, KeyedVariations, DrillsBelow, SnapshotOf;
      if !intact {
        return IoError;
      }
      if !contiguous || LastId(history) != projectionEventId {
        return IoError;
      }
      ghost var log := history;
      var watermark := projectionEventId;
      var e := Entry(nextId, now, ProfileSnapshotCreated(Marker(name, watermark, 2)));
      StepKeepsSound(Disk(history, files), TakeSnapshot(name, memory, e));
      files := files[name := Snapshot(watermark, 2, SnapshotOf(memory))];
      history := history + [e];
      nextId := nextId + 1;
      MarkerApplied(memory, e);
      AppliedAgrees(memory, log, e);
      Note(e);
      return Done;
    }

    /** Compacts the log and follows the events compaction added. The repository stays valid exactly when the
        compaction lost nothing, as it never does from a log of complete events. */
    method CompactStorage(legacy: bool, now: int) returns (outcome: Outcome)
      requires Valid()
      modifies this
      ensures memory == old(memory) && files == old(files) && NotesSound() && KeysSound()
      ensures old(FreshAttempts()) ==> FreshAttempts()
      ensures outcome == if intact then Done else IoError
      ensures outcome == Done ==> (Valid() <==> Compactable(Disk(old(history), files)))
      ensures outcome != Done || AllComplete(old(history)) ==> Valid()
      ensures history == if outcome == Done then Compact(old(history)) + CompactionEnd(legacy, old(nextId), now) else old(history)
    {
      hide Agree, Fold, Sound, Apply, BatchesBelow, VariationsBelow, ReviewsBelow, KeyedDrills, KeyedVariations, DrillsBelow, Compact,
           Compactable, AllComplete, CompactionMarkers, LastId, Increasing;
      if !intact {
        return IoError;
      }
      ghost var log := history;
      var markers := CompactionEnd(legacy, nextId, now);
      SoundIncreasing(Disk(history, files));
      CompactionEndMarks(legacy, nextId, now);
      CompactingSound(Disk(history, files), markers, memory);
      if AllComplete(history) {
        CompleteCompactable(Disk(history, files));
      }
      KeptIds(history, markers);
      history := Compact(history) + markers;
      nextId := nextId + |markers|;
      LastIs(history);
      FollowNewEvents(LastId(log), |history| - |markers|);
      return Done;
    }

    /** Notes every event beyond the projection's. */
    method FollowNewEvents(ghost last: nat, ghost kept: nat)
      requires contiguous && projectionEventId == last && kept < |history|
      requires forall i :: 0 <= i < kept ==> history[i].id <= last
      requires forall i :: kept <= i < |history| ==> history[i].id == last + 1 + (i - kept)
      modifies `projectionEventId, `contiguous
      ensures contiguous && projectionEventId == history[|history| - 1].id
    {
      for i := 0 to |history|
        invariant contiguous && projectionEventId == if i <= kept then last else history[i - 1].id
      {
        if history[i].id > projectionEventId {
          Note(history[i]);
        }
      }
    }

    // ----- start-up -----

    /** One event of the replay, in the order the program tests its kinds. */
    method ApplyEvent(e: Entry)
      requires KeysSound()
      modifies `memory, `nextAttemptId, `nextBatchId, `nextVariationId, `nextReviewId
      ensures memory == Apply(old(memory), e) && KeysSound()
      ensures old(FreshAttempts()) ==>
                (FreshAttempts() <==> (e.content.DrillCreated? ==> AttemptsBelow(e.content.drill.attempts, nextAttemptId)))
    {
      hide Apply, BatchesBelow, VariationsBelow, ReviewsBelow, CheckpointKey, IndexArchive, NextVariation, DrillsBelow, AttemptsBelow;
      var c := e.content;
      if c.GameImported? {
        GameApplied(memory, e);
        memory := memory.(games := memory.games[c.game.identity := StoredGame(c.game, None, e.at, 0, None)]);
      } else if c.AnalysisCompleted? || c.ShallowAnalysisCompleted? {
        ApplyAnalysis(e);
      } else if c.DrillCreated? || c.DrillAttempted? || c.DrillSessionUpdated? || c.DrillHintUpdated? {
        ApplyDrillEvent(e);
      } else if c.ResourceCompleted? {
        CompletionApplied(memory, e);
        memory := memory.(completions := memory.completions[c.resource := c.completedAt]);
      } else if c.ResourceRecommended? {
        RecommendationApplied(memory, e);
        memory := memory.(recommended := memory.recommended + {c.recommended});
      } else if c.AnalysisJobStateChanged? {
        JobApplied(memory, e);
        memory := memory.(jobs := memory.jobs[c.jobGame := c.status]);
      } else if c.BatchStateChanged? {
        BatchStateApplied(memory, e);
        if c.paused.Some? {
          memory := memory.(paused := c.paused.value);
        }
      } else if c.BatchCreated? || c.VariationSaved? || c.VariationDeleted? || c.ReviewAttempted? {
        ApplyNumbered(e);
      } else if c.ChessComProfileUpdated? {
        ProfileApplied(memory, e);
        memory := memory.(profile := Some(c.profile));
      } else if c.PlayerIdentityUpdated? {
        IdentityApplied(memory, e);
        memory := memory.(identity := Some(c.identity));
      } else if c.ArchiveChunkIndexed? {
        ArchiveApplied(memory, e);
        memory := memory.(archive := IndexArchive(memory.archive, c.entries));
      } else if c.MonthCheckpointed? {
        CheckpointApplied(memory, e);
        memory := memory.(checkpoints := memory.checkpoints[CheckpointKey(c.checkpoint) := c.checkpoint]);
      } else if c.SyncStateChanged? {
        SyncApplied(memory, e);
        memory := memory.(sync := c.sync);
      } else {
        IgnoredApplied(memory, e);
      }
    }

    method ApplyAnalysis(e: Entry)
      requires e.content.AnalysisCompleted? || e.content.ShallowAnalysisCompleted?
      modifies `memory
      ensures memory == Apply(old(memory), e) && memory == old(memory).(games := memory.games)
    {
      hide Apply;
      var c := e.content;
      AnalysisIgnored(memory, e);
      if c.AnalysisCompleted? {
        var id := c.analysis.gameId;
        if id in memory.games {
          AnalysisApplied(memory, e);
          memory := memory.(games := memory.games[id := memory.games[id].(analysis := Some(c.analysis), analyzedAt := e.at)]);
        }
      } else {
        var id := c.shallow.gameId;
        if id in memory.games && memory.games[id].analysis.None? {
          ShallowApplied(memory, e);
          memory := memory.(games := memory.games[id := memory.games[id].(shallow := Some(c.shallow))]);
        }
      }
    }

    method ApplyDrillEvent(e: Entry)
      requires
        e.content.DrillCreated? || e.content.DrillAttempted? || e.content.DrillSessionUpdated? || e.content.DrillHintUpdated?
      requires KeyedDrills(memory.drills)
      modifies `memory, `nextAttemptId
      ensures memory == Apply(old(memory), e) && memory == old(memory).(drills := memory.drills) && KeyedDrills(memory.drills)
      ensures old(FreshAttempts()) ==>
                (FreshAttempts() <==> (e.content.DrillCreated? ==> AttemptsBelow(e.content.drill.attempts, nextAttemptId)))
    {
      hide Apply, DrillsBelow, AttemptsBelow;
      var c := e.content;
      if c.DrillCreated? {
        DrillApplied(memory, e);
        if FreshAttempts() {
          DrillBelow(memory.drills, nextAttemptId, c.drill.id, c.drill);
        }
        memory := memory.(drills := memory.drills[c.drill.id := c.drill]);
      } else if c.DrillAttempted? {
        ApplyAttempt(e);
      } else {
        ApplySession(e);
      }
    }

    method ApplyAttempt(e: Entry)
      requires e.content.DrillAttempted? && KeyedDrills(memory.drills)
      modifies `memory, `nextAttemptId
      ensures memory == Apply(old(memory), e) && memory == old(memory).(drills := memory.drills) && KeyedDrills(memory.drills)
      ensures old(FreshAttempts()) ==> FreshAttempts()
    {
      hide Apply, DrillsBelow;
      var id, attempt := e.content.attemptedDrill, e.content.attempt;
      if id in memory.drills {
        AttemptApplied(memory, e);
        ghost var next := nextAttemptId;
        if attempt.id + 1 > nextAttemptId {
          nextAttemptId := attempt.id + 1;
        }
        AttemptBelow(memory.drills, next, nextAttemptId, id, attempt);
        memory := memory.(drills := memory.drills[id := memory.drills[id].(attempts := memory.drills[id].attempts + [attempt])]);
      } else {
        AttemptIgnored(memory, e);
      }
    }

    method ApplySession(e: Entry)
      requires (e.content.DrillSessionUpdated? || e.content.DrillHintUpdated?) && KeyedDrills(memory.drills)
      modifies `memory
      ensures memory == Apply(old(memory), e) && memory == old(memory).(drills := memory.drills) && KeyedDrills(memory.drills)
      ensures old(FreshAttempts()) ==> FreshAttempts()
    {
      hide Apply, DrillsBelow;
      var c := e.content;
      var id := if c.DrillSessionUpdated? then c.sessionDrill else c.hintDrill;
      if id !in memory.drills {
        if c.DrillSessionUpdated? {
          SessionIgnored(memory, e);
        } else {
          HintIgnored(memory, e);
        }
        return;
      }
      var drill := memory.drills[id];
      if c.DrillSessionUpdated? {
        SessionApplied(memory, e);
        drill := drill.(hintLevel := c.hintLevel, startedAt := c.startedAt);
      } else {
        HintApplied(memory, e);
        drill := drill.(hintLevel := c.hint);
      }
      SameAttemptsBelow(memory.drills, nextAttemptId, id, drill);
      memory := memory.(drills := memory.drills[id := drill]);
    }

    /** Events whose numbers push an allocation counter ahead. */
    method ApplyNumbered(e: Entry)
      requires e.content.BatchCreated? || e.content.VariationSaved? || e.content.VariationDeleted? || e.content.ReviewAttempted?
      requires KeysSound()
      modifies `memory, `nextBatchId, `nextVariationId, `nextReviewId
      ensures memory == Apply(old(memory), e) && memory.drills == old(memory).drills && KeysSound()
    {
      hide Apply, VariationsBelow, NextVariation, KeyedDrills;
      var c := e.content;
      if c.BatchCreated? {
        BatchApplied(memory, e);
        nextBatchId := if c.batch.sequence + 1 > nextBatchId then c.batch.sequence + 1 else nextBatchId;
        memory := memory.(batches := memory.batches[c.batch.id := c.batch]);
      } else if c.VariationSaved? {
        SavedApplied(memory, e);
        SavedBelow(memory.variations, nextVariationId, c.variation);
        nextVariationId := NextVariation(nextVariationId, c.variation.id);
        memory := memory.(variations := memory.variations[c.variation.id := c.variation]);
      } else if c.VariationDeleted? {
        DeletedApplied(memory, e);
        RemovedBelow(memory.variations, nextVariationId, c.deleted);
        memory := memory.(variations := memory.variations - {c.deleted});
      } else {
        ReviewApplied(memory, e);
        nextReviewId := if c.review.id + 1 > nextReviewId then c.review.id + 1 else nextReviewId;
        memory := memory.(reviews := memory.reviews + [c.review]);
      }
    }

    /** Opens the repository on the bytes of a log, whatever they are, and a directory listing: the newest
        authorised snapshot, then the events after its watermark and those no snapshot holds. */
    constructor (file: Bytes.Bytes, decode: RetainScan.Decoder, directory: map<string, File>, listing: seq<Named>)
      requires
        var log := RetainScan.TypedAll(Records.ReplayAll(file).events, decode);
        Sound(Disk(log, directory)) && Listed(Disk(log, directory), listing)
      requires forall n :: n in listing ==> WellParsed(n.file)
      ensures Valid() && Wrote(file, [], decode) && files == directory && memory == Startup(listing, history)
      ensures history == RetainScan.TypedAll(Records.ReplayAll(file).events, decode)
      ensures BornWithout(history) ==> FreshAttempts()
    {
      hide Sound, Startup, LastId, WellParsed, Listed, Valid, MemorySound, NotesSound, KeysSound, FreshAttempts, BornWithout,
           RetainScan.TypedAll, Records.ReplayFrom;
      var state := EventLogs.ReplayBytes(file);
      var log := RetainScan.TypedAll(state.events, decode);
      history, files, intact, torn := log, directory, EventLogs.IsIntact(state), state.truncated;
      nextId := LastId(log) + 1;
      memory := EMPTY;
      nextAttemptId, nextBatchId, nextVariationId, nextReviewId := 1, 1, 1, 1;
      projectionEventId, contiguous := 0, true;
      new;
      assert state.events + [] == state.events;
      Open(listing);
    }

    method Open(listing: seq<Named>)
      requires LogSound() && memory == EMPTY && nextBatchId == 1
      requires Listed(Disk(history, files), listing) && forall n :: n in listing ==> WellParsed(n.file)
      modifies `memory, `nextAttemptId, `nextBatchId, `nextVariationId, `nextReviewId, `projectionEventId, `contiguous
      ensures Valid() && memory == Startup(listing, history)
      ensures BornWithout(history) ==> FreshAttempts()
    {
      hide Sound, Startup, LastId, Fold, Agree, WellParsed, Listed, KeysSound, DrillsBelow, BornWithout;
      ListedGood(Disk(history, files), listing);
      StartupAgrees(listing, history);
      Load(listing);
      FollowTo(LastId(history));
    }

    /** After replay the projection is at the last event, and contiguous if the log was intact. */
    method FollowTo(last: nat)
      modifies `projectionEventId, `contiguous
      ensures projectionEventId == last && contiguous == intact
    {
      projectionEventId := last;
      contiguous := intact;
    }

    method Load(listing: seq<Named>)
      requires memory == EMPTY && nextBatchId == 1
      requires forall n :: n in listing ==> WellParsed(n.file)
      modifies `memory, `nextAttemptId, `nextBatchId, `nextVariationId, `nextReviewId
      ensures memory == Startup(listing, history) && KeysSound()
      ensures BornWithout(history) ==> FreshAttempts()
    {
      hide Apply, Fold, Select, Suffix, Passes;
      var choice := ChooseSnapshot(listing, history);
      ChosenWellParsed(listing, history);
      memory := choice.content;
      nextBatchId := BatchCeiling(memory.batches, nextBatchId);
      nextAttemptId := AttemptCeiling(memory.drills, nextAttemptId);
      hide KeysSound;
      assert KeysSound() by {
        FreshKeys();
      }
      NothingReplayed(choice);
      for i := 0 to |history|
        invariant KeysSound() && memory == Fold(choice.content, Suffix(history[..i], choice.watermark))
        invariant BornWithout(history) ==> FreshAttempts()
      {
        assert history[..i + 1] == history[..i] + [history[i]];
        SuffixConcat(history[..i], [history[i]], choice.watermark);
        SuffixSingle(history[i], choice.watermark);
        assert Suffix(history[..i], choice.watermark) + [] == Suffix(history[..i], choice.watermark);
        if Passes(history[i], choice.watermark) {
          FoldOne(choice.content, Suffix(history[..i], choice.watermark), history[i]);
          ApplyEvent(history[i]);
        }
      }
      assert history[..|history|] == history;
    }

    lemma FreshKeys()
      requires KeyedDrills(memory.drills) && memory.variations == map[] && memory.reviews == []
      requires BatchesBelow(memory.batches, nextBatchId)
      ensures KeysSound()
    {
    }
  }

  /** A restart between operations loses nothing if the log was not torn when it was opened: a repository
      opened on the bytes another left, over any listing of its snapshot directory, has the same projection. */
  method Restart(left: Repository, origin: Bytes.Bytes, appended: seq<Records.Event>, decode: RetainScan.Decoder,
                 listing: seq<Named>)
    returns (again: Repository)
    requires left.Valid() && left.Wrote(origin, appended, decode) && !left.torn
    requires Listed(Disk(left.history, left.files), listing) && forall n :: n in listing ==> WellParsed(n.file)
    ensures fresh(again) && again.Valid() && again.Wrote(origin + Records.SerializeAll(appended), [], decode) && !again.torn
    ensures again.history == left.history && again.files == left.files && again.intact == left.intact
    ensures Agree({}, again.memory, left.memory)
    ensures BornWithout(left.history) ==> again.FreshAttempts()
  {
    hide Agree, Fold, Sound, Startup, WellParsed, Listed, LastId, RetainScan.TypedAll, Records.ReplayFrom, Records.SerializeAll;
    Appends.AppendsReplay(origin, appended);
    again := new Repository(origin + Records.SerializeAll(appended), decode, left.files, listing);
    AgreeSymmetric({}, left.memory, Fold(EMPTY, left.history));
    AgreeTransitive({}, again.memory, Fold(EMPTY, left.history), left.memory);
  }

  /** Entries appended to the log keep it the given bytes and the records appended since. */
  lemma {:induction false} WrittenSince(log: seq<Entry>, origin: Bytes.Bytes, appended: seq<Records.Event>,
                                        more: seq<Records.Event>, decode: RetainScan.Decoder)
    requires log == RetainScan.TypedAll(Records.ReplayAll(origin).events + appended, decode)
    ensures log + RetainScan.TypedAll(more, decode) ==
            RetainScan.TypedAll(Records.ReplayAll(origin).events + (appended + more), decode)
  {
    hide RetainScan.TypedAll, Records.ReplayFrom;
    var events := Records.ReplayAll(origin).events;
    RetainScan.TypedConcat(events + appended, more, decode);
    assert events + appended + more == events + (appended + more);
  }

  /** Behind a damaged record and one torn after its header, which recovery leaves alone, a pause is kept in
      memory, appended, and lost to the next start-up. */
  method TornPauseForgotten(b: Records.Event, index: nat, changed: Bytes.byte, e: Records.Event, k: nat, d: Records.Event,
                            decode: RetainScan.Decoder)
    returns (file: Bytes.Bytes, left: Repository, again: Repository)
    requires Records.Encodable(b) && Records.Encodable(e) && Records.Encodable(d) && Records.Supported(d)
    requires ReplayProofs.Damageable(b, index) && changed != Records.Serialize(b)[index]
    requires Records.MINIMUM_SIZE <= k && k + |Records.Serialize(d)| < |Records.Serialize(e)|
    requires d.id == 1 && decode(d.kind, d.payload) == BatchStateChanged(Some(true))
    ensures file == Records.Serialize(b)[index := changed] + Records.Serialize(e)[..k] && Crashes.Recovered(file) == file
    ensures left.Valid() && left.torn && left.Wrote(file, [d], decode) && left.memory.paused
    ensures again.Valid() && again.Wrote(file + Records.Serialize(d), [], decode) && !again.memory.paused
  {
    hide Sound, Startup, left.MemorySound, left.NotesSound, left.KeysSound, left.FreshAttempts, Records.Serialize,
         Records.ReplayFrom, Records.Encodable, Records.Supported, BornWithout;
    file := Records.Serialize(b)[index := changed] + Records.Serialize(e)[..k];
    Appends.TornAppendLost(b, index, changed, e, k, d);
    NothingSound();
    left := new Repository(file, decode, map[], []);
    assert left.nextId == 1;
    left.SetBackgroundPaused(true, d.timestamp);
    assert left.history == [RetainScan.Typed(d, decode)];
    RetainScan.TypedConcat([], [d], decode);
    assert [d][1..] == [] && [] + [d] == [d];
    again := new Repository(file + Records.Serialize(d), decode, map[], []);
    NothingStarted();
  }

  lemma NothingSound()
    ensures Sound(Disk([], map[]))
  {
  }

  lemma NothingStarted()
    ensures Startup([], []) == EMPTY
  {
  }

  /** A drill that comes with the next attempt number makes the next attempt use that number again. */
  method AttemptNumberReused(r: Repository, drill: Drill, carried: Attempt, move: string, now: int) returns (attempt: Attempt)
    requires r.Valid() && !IncompleteDrill(drill) && drill.id !in r.memory.drills
    requires carried in drill.attempts && carried.id == r.nextAttemptId
    modifies r
    ensures r.Valid() && attempt.id == carried.id
    ensures |r.history| >= |old(r.history)| + 2
    ensures r.history[|old(r.history)|].content == DrillCreated(Dated(drill, now))
    ensures r.history[|old(r.history)| + 1].content == DrillAttempted(drill.id, attempt)
  {
    hide r.Valid, r.FreshAttempts, IncompleteDrill, Dated, AttemptsBelow;
    var outcome := r.AddValidatedDrill(drill, true, now);
    ghost var log := r.history;
    var recorded;
    outcome, recorded := r.RecordAttempt(drill.id, move, true, 0, now, now);
    attempt := recorded.value;
    assert r.history[|log|].content == DrillAttempted(drill.id, attempt);
    assert r.history[..|log|] == log;
  }

  // ----- choosing a snapshot -----

  /** What reading a snapshot file yields: drills under their own ids, no variations or reviews. */
  ghost predicate WellParsed(f: File) {
    f.Snapshot? ==> KeyedDrills(f.content.drills) && f.content.variations == map[] && f.content.reviews == []
  }

  lemma {:induction false} ChosenWellParsed(listing: seq<Named>, log: seq<Entry>)
    requires forall n :: n in listing ==> WellParsed(n.file)
    ensures
      var content := Select(listing, log).content;
      KeyedDrills(content.drills) && content.variations == map[] && content.reviews == []
  {
    hide Authorised, MarkerFor;
    SelectNewest(listing, log);
  }

  lemma NothingReplayed(choice: Choice)
    ensures Fold(choice.content, Suffix([], choice.watermark)) == choice.content
  {
  }

  lemma ListedGood(d: Disk, listing: seq<Named>)
    requires Sound(d) && Listed(d, listing)
    ensures Increasing(d.log) && AllGood((set n | n in listing), d.log)
  {
    hide Authorised, Good;
  }

  lemma {:induction false} MarkerStep(log: seq<Entry>, i: nat, name: string, f: File)
    requires i < |log|
    ensures
      var rest := MarkerFor(log[i + 1..], name, f);
      MarkerFor(log[i..], name, f) == if Authorises(log[i], name, f) && log[i].id > rest then log[i].id else rest
  {
    hide Authorises;
    assert log[i..][1..] == log[i + 1..];
  }

  /** The latest marker that authorises a file. */
  method LatestMarker(log: seq<Entry>, name: string, f: File) returns (marker: nat)
    ensures marker == MarkerFor(log, name, f)
  {
    hide Authorises, MarkerFor;
    marker := 0;
    var i := |log|;
    NoMarker(name, f);
    assert log[|log|..] == [];
    while i > 0
      invariant 0 <= i <= |log| && marker == MarkerFor(log[i..], name, f)
    {
      i := i - 1;
      MarkerStep(log, i, name, f);
      if Authorises(log[i], name, f) && log[i].id > marker {
        marker := log[i].id;
      }
    }
    assert log[0..] == log;
  }

  lemma {:induction false} NoMarker(name: string, f: File)
    ensures MarkerFor([], name, f) == 0
  {
  }

  /** The directory scan. */
  method ChooseSnapshot(listing: seq<Named>, log: seq<Entry>) returns (choice: Choice)
    ensures choice == Select(listing, log)
  {
    hide MarkerFor;
    choice := NO_CHOICE;
    for i := 0 to |listing|
      invariant choice == Select(listing[..i], log)
    {
      assert listing[..i + 1][..i] == listing[..i];
      if listing[i].file.Snapshot? {
        var marker := LatestMarker(log, listing[i].name, listing[i].file);
        var watermark := listing[i].file.watermark;
        if !(marker == 0 || watermark < choice.watermark || (watermark == choice.watermark && marker <= choice.marker)) {
          choice := Choice(watermark, marker, listing[i].file.content);
        }
      }
    }
    assert listing[..|listing|] == listing;
  }

  /** A number above every batch, and no less than the one given. */
  method BatchCeiling(batches: map<string, Batch>, start: nat) returns (next: nat)
    ensures BatchesBelow(batches, next) && next >= start
  {
    next := start;
    var keys := batches.Keys;
    while keys != {}
      invariant keys <= batches.Keys && next >= start
      invariant forall id :: id in batches && id !in keys ==> batches[id].sequence < next
      decreases |keys|
    {
      var id :| id in keys;
      if batches[id].sequence + 1 > next {
        next := batches[id].sequence + 1;
      }
      keys := keys - {id};
    }
  }

  /** A number above every attempt, and no less than the one given. */
  method AttemptCeiling(drills: map<string, Drill>, start: nat) returns (next: nat)
    ensures next >= start && DrillsBelow(drills, next)
  {
    next := start;
    var keys := drills.Keys;
    while keys != {}
      invariant keys <= drills.Keys && next >= start
      invariant forall id :: id in drills && id !in keys ==> AttemptsBelow(drills[id].attempts, next)
      decreases |keys|
    {
      var id :| id in keys;
      var attempts := drills[id].attempts;
      for i := 0 to |attempts|
        invariant next >= start
        invariant forall id :: id in drills && id !in keys ==> AttemptsBelow(drills[id].attempts, next)
        invariant AttemptsBelow(attempts[..i], next)
      {
        if attempts[i].id + 1 > next {
          next := attempts[i].id + 1;
        }
        assert attempts[..i + 1] == attempts[..i] + [attempts[i]];
      }
      assert attempts[..|attempts|] == attempts;
      keys := keys - {id};
    }
  }
}
