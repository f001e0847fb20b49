/** Compaction: which events the reverse scan drops, and exactly when folding what remains means the same.

    The scan tells events apart by kind and key alone. An event that no longer decodes, or that leaves out
    the value of its kind, therefore drops the earlier events of its topic without rewriting what they wrote. */
module Compaction {
  import opened Positions
  import opened Events
  import opened Agreement

  /** The game a full analysis event names, whether or not its analysis decodes. */
  function AnalysedGame(c: Content): Option<string> {
    if c.AnalysisCompleted? then Some(c.analysis.gameId)
    else if c.Undecodable? && c.remnant.OfAnalysis? then Some(c.remnant.analysedGame)
    else None
  }

  predicate IsMarker(c: Content) {
    c.ProfileSnapshotCreated? || (c.Undecodable? && c.remnant.OfMarker?)
  }

  /** An event of the topic; a full analysis also supersedes the shallow ones of its game. */
  predicate SupersedesTopic(later: Content, topic: Topic) {
    || (TopicOf(later).Some? && TopicOf(later).value == topic)
    || (AnalysedGame(later).Some? && topic == Cell(ShallowTable, AnalysedGame(later).value))
  }

  /** Whether a later event makes an earlier one redundant for the scan. */
  predicate Supersedes(later: Content, earlier: Content) {
    || (TopicOf(earlier).Some? && SupersedesTopic(later, TopicOf(earlier).value))
    || (IsMarker(earlier) && IsMarker(later))
    || (earlier.SchemaMigrated? && later.SchemaMigrated?)
  }

  predicate Superseded(c: Content, later: seq<Entry>) {
    exists x :: x in later && Supersedes(x.content, c)
  }

  predicate Dropped(c: Content, later: seq<Entry>) {
    c.LogCompacted? || Superseded(c, later)
  }

  function Compact(log: seq<Entry>): seq<Entry>
    decreases |log|
  {
    if log == [] then []
    else (if Dropped(log[0].content, log[1..]) then [] else [log[0]]) + Compact(log[1..])
  }

  // ----- folding -----

  /** The cells some event of the log overwrites. */
  function OverwrittenIn(log: seq<Entry>): set<Cell>
    decreases |log|
  {
    if log == [] then {} else Overwritten(log[0].content) + OverwrittenIn(log[1..])
  }

  lemma {:induction false} FoldAgree(ignored: set<Cell>, p: Projection, q: Projection, log: seq<Entry>)
    requires Agree(ignored, p, q)
    ensures Agree(ignored, Fold(p, log), Fold(q, log))
    decreases |log|
  {
    hide Agree, Apply;
    if log != [] {
      ApplyAgree(ignored, p, q, log[0]);
      FoldAgree(ignored, Apply(p, log[0]), Apply(q, log[0]), log[1..]);
    }
  }

  /** A difference disappears once an event that overwrites its cell is folded in. */
  lemma {:induction false} FoldSettles(ignored: set<Cell>, p: Projection, q: Projection, log: seq<Entry>)
    requires Agree(ignored, p, q)
    ensures Agree(ignored - OverwrittenIn(log), Fold(p, log), Fold(q, log))
    decreases |log|
  {
    hide Agree, Apply, Overwritten;
    if log == [] {
      assert ignored - OverwrittenIn(log) == ignored;
    } else {
      var left := ignored - Overwritten(log[0].content);
      OverwriteAgree(ignored, p, q, log[0]);
      FoldSettles(left, Apply(p, log[0]), Apply(q, log[0]), log[1..]);
      assert left - OverwrittenIn(log[1..]) == ignored - OverwrittenIn(log);
    }
  }

  /** And stays as long as no event overwrites its cell. */
  lemma {:induction false} FoldKeepsDifference(p: Projection, q: Projection, log: seq<Entry>, cell: Cell)
    requires cell !in OverwrittenIn(log)
    ensures CellAgrees(cell, Fold(p, log), Fold(q, log)) <==> CellAgrees(cell, p, q)
    decreases |log|
  {
    hide Apply, CellAgrees, Overwritten;
    if log != [] {
      KeepsDifference(p, q, log[0], cell);
      FoldKeepsDifference(Apply(p, log[0]), Apply(q, log[0]), log[1..], cell);
    }
  }

  // ----- what may be lost -----

  /** The cells an event is the last to overwrite. */
  function LastWrites(c: Content, later: seq<Entry>): set<Cell> {
    Overwritten(c) - OverwrittenIn(later)
  }

  /** The cells whose last overwriting event is dropped. */
  function Lost(log: seq<Entry>): (cells: set<Cell>)
    ensures cells <= OverwrittenIn(log)
    decreases |log|
  {
    if log == [] then {}
    else (if Dropped(log[0].content, log[1..]) then LastWrites(log[0].content, log[1..]) else {}) + Lost(log[1..])
  }

  lemma Unprojected(p: Projection, e: Entry)
    requires e.content.LogCompacted? || e.content.SchemaMigrated? || IsMarker(e.content)
    ensures Apply(p, e) == p && Overwritten(e.content) == {}
  {
    hide CheckpointKey;
  }

  lemma Widen(ignored: set<Cell>, wider: set<Cell>, p: Projection, q: Projection)
    requires Agree(ignored, p, q) && ignored <= wider
    ensures Agree(wider, p, q)
  {
    hide Agree, CellAgrees;
    AgreeNarrow(ignored, wider, p, q);
  }

  /** Leaving out a dropped event shows at most in the cells it is the last to overwrite. */
  lemma {:induction false} DroppedIrrelevant(p: Projection, e: Entry, rest: seq<Entry>)
    requires Dropped(e.content, rest)
    ensures Agree(LastWrites(e.content, rest), Fold(Apply(p, e), rest), Fold(p, rest))
  {
    hide Agree, Apply, Overwritten, OverwrittenIn, Fold;
    if TopicOf(e.content).Some? {
      ApplyTouches(Overwritten(e.content), p, e);
    } else {
      Unprojected(p, e);
      AgreeSame(Overwritten(e.content), p);
    }
    FoldSettles(Overwritten(e.content), Apply(p, e), p, rest);
  }

  /** Folding the compacted log agrees with folding the log on everything but the cells whose last
      overwriting event is dropped. */
  lemma {:induction false} CompactAgrees(p: Projection, log: seq<Entry>)
    ensures Agree(Lost(log), Fold(p, log), Fold(p, Compact(log)))
    decreases |log|
  {
    hide Agree, Apply, Dropped, LastWrites;
    if log == [] {
      AgreeSame(Lost(log), p);
    } else {
      var e, rest := log[0], log[1..];
      if Dropped(e.content, rest) {
        assert Compact(log) == Compact(rest);
        var middle, end := Fold(p, rest), Fold(p, Compact(rest));
        DroppedIrrelevant(p, e, rest);
        Widen(LastWrites(e.content, rest), Lost(log), Fold(p, log), middle);
        CompactAgrees(p, rest);
        Widen(Lost(rest), Lost(log), middle, end);
        AgreeTransitive(Lost(log), Fold(p, log), middle, end);
      } else {
        assert Compact(log) == [e] + Compact(rest);
        assert Lost(log) == Lost(rest);
        CompactAgrees(Apply(p, e), rest);
      }
    }
  }

  // ----- the main theorem -----

  /** Every dropped event left the cells it is the last to overwrite as they were. */
  ghost predicate NothingLost(p: Projection, log: seq<Entry>)
    decreases |log|
  {
    if log == [] then true
    else
      var e, rest := log[0], log[1..];
      if Dropped(e.content, rest) then
        (forall cell :: cell in LastWrites(e.content, rest) ==> CellAgrees(cell, Apply(p, e), p)) && NothingLost(p, rest)
      else NothingLost(Apply(p, e), rest)
  }

  /** Leaving out a dropped event changes nothing exactly when it left its last writes as they were. */
  lemma {:induction false} DroppedExact(p: Projection, e: Entry, rest: seq<Entry>)
    requires Dropped(e.content, rest)
    ensures Agree({}, Fold(Apply(p, e), rest), Fold(p, rest)) <==>
            forall cell :: cell in LastWrites(e.content, rest) ==> CellAgrees(cell, Apply(p, e), p)
  {
    hide Agree, Apply, CellAgrees, Fold, Dropped;
    var writes := LastWrites(e.content, rest);
    var with, without := Fold(Apply(p, e), rest), Fold(p, rest);
    DroppedIrrelevant(p, e, rest);
    forall cell | cell in writes
      ensures CellAgrees(cell, with, without) <==> CellAgrees(cell, Apply(p, e), p)
    {
      FoldKeepsDifference(Apply(p, e), p, rest, cell);
    }
    if Agree({}, with, without) {
      forall cell | cell in writes
        ensures CellAgrees(cell, Apply(p, e), p)
      {
        AgreeAtCell({}, with, without, cell);
      }
    } else if forall cell :: cell in writes ==> CellAgrees(cell, Apply(p, e), p) {
      AgreeNarrow(writes, {}, with, without);
    }
  }

  /** What one dropped event lost is not put back by dropping others. */
  lemma {:induction false} LossesApart(p: Projection, e: Entry, rest: seq<Entry>)
    requires Dropped(e.content, rest)
    requires Agree({}, Fold(Apply(p, e), rest), Fold(p, Compact(rest)))
    ensures Agree({}, Fold(Apply(p, e), rest), Fold(p, rest))
  {
    hide Agree, Apply, CellAgrees, Fold, Dropped, Compact, Lost;
    var writes, lost := LastWrites(e.content, rest), Lost(rest);
    var with, without, end := Fold(Apply(p, e), rest), Fold(p, rest), Fold(p, Compact(rest));
    CompactAgrees(p, rest);
    AgreeSymmetric(lost, without, end);
    Widen({}, lost, with, end);
    AgreeTransitive(lost, with, end, without);
    DroppedIrrelevant(p, e, rest);
    forall cell | cell in writes
      ensures CellAgrees(cell, with, without)
    {
      AgreeAtCell(lost, with, without, cell);
    }
    AgreeNarrow(writes, {}, with, without);
  }

  /** From any start, folding the compacted log gives the same projection as folding the log, exactly
      when every dropped event left the cells it is the last to overwrite as they were. */
  lemma {:induction false} CompactionExact(p: Projection, log: seq<Entry>)
    ensures Agree({}, Fold(p, log), Fold(p, Compact(log))) <==> NothingLost(p, log)
    decreases |log|
  {
    hide Agree, Apply, CellAgrees, Dropped, LastWrites;
    if log == [] {
      AgreeSame({}, p);
    } else {
      var e, rest := log[0], log[1..];
      if Dropped(e.content, rest) {
        assert Compact(log) == Compact(rest);
        var with, without, end := Fold(p, log), Fold(p, rest), Fold(p, Compact(rest));
        DroppedExact(p, e, rest);
        CompactionExact(p, rest);
        if Agree({}, with, end) {
          LossesApart(p, e, rest);
          AgreeSymmetric({}, with, without);
          AgreeTransitive({}, without, with, end);
        } else if Agree({}, with, without) && Agree({}, without, end) {
          AgreeTransitive({}, with, without, end);
        }
      } else {
        assert Compact(log) == [e] + Compact(rest);
        CompactionExact(Apply(p, e), rest);
      }
    }
  }

  // ----- logs that lose nothing -----

  /** An event that overwrites every cell its topic has: all but a batch state without the flag, a session
      without its start, and events of a topic or an analysis that do not decode. */
  predicate Complete(c: Content) {
    && (c.BatchStateChanged? ==> c.paused.Some?) && !c.DrillHintUpdated?
    && !(c.Undecodable? && (c.remnant.Named? || c.remnant.OfAnalysis?))
  }

  ghost predicate AllComplete(log: seq<Entry>) {
    forall x :: x in log ==> Complete(x.content)
  }

  /** The cells of a topic. */
  function CellsOf(topic: Topic): set<Cell> {
    if topic.table.SessionTable? then Session(topic.key) else {topic}
  }

  /** An event of a topic overwrites cells of that topic, all of them if it is complete. */
  lemma TopicOverwrites(c: Content)
    requires TopicOf(c).Some?
    ensures Overwritten(c) <= CellsOf(TopicOf(c).value)
    ensures Complete(c) ==> Overwritten(c) == CellsOf(TopicOf(c).value)
  {
    hide CheckpointKey;
  }

  lemma OthersOverwrite(c: Content)
    ensures c.SchemaMigrated? || IsMarker(c) ==> Overwritten(c) == {} && TopicOf(c).None?
    ensures AnalysedGame(c).Some? && Complete(c) ==> Overwritten(c) == {Cell(ShallowTable, AnalysedGame(c).value)}
  {
    hide CheckpointKey;
  }

  lemma CompleteOverwrites(later: Content, earlier: Content)
    requires Supersedes(later, earlier) && Complete(later)
    ensures Overwritten(earlier) <= Overwritten(later)
  {
    hide Complete, Overwritten, TopicOf, AnalysedGame, IsMarker;
    if TopicOf(earlier).Some? {
      TopicOverwrites(earlier);
      if TopicOf(later).Some? {
        TopicOverwrites(later);
      }
    }
    OthersOverwrite(earlier);
    OthersOverwrite(later);
  }

  lemma {:induction false} OverwrittenByMember(log: seq<Entry>, x: Entry)
    requires x in log
    ensures Overwritten(x.content) <= OverwrittenIn(log)
    decreases |log|
  {
    hide Overwritten;
    if x != log[0] {
      OverwrittenByMember(log[1..], x);
    }
  }

  /** A cell is lost only to a later event that names it without overwriting it. */
  lemma {:induction false} CompleteLosesNothing(p: Projection, log: seq<Entry>)
    requires AllComplete(log)
    ensures Lost(log) == {} && NothingLost(p, log)
    decreases |log|
  {
    hide Supersedes, Overwritten, Complete, Apply;
    if log != [] {
      var e, rest := log[0], log[1..];
      assert forall x :: x in rest ==> x in log;
      if Dropped(e.content, rest) {
        if e.content.LogCompacted? {
          Unprojected(p, e);
        } else {
          var x :| x in rest && Supersedes(x.content, e.content);
          CompleteOverwrites(x.content, e.content);
          OverwrittenByMember(rest, x);
        }
        assert LastWrites(e.content, rest) == {};
        CompleteLosesNothing(p, rest);
      } else {
        CompleteLosesNothing(Apply(p, e), rest);
      }
    }
  }

  /** For logs of complete events, as the program itself writes them, compaction preserves the projection
      from any start. */
  lemma {:induction false} CompactionPreserves(p: Projection, log: seq<Entry>)
    requires AllComplete(log)
    ensures Agree({}, Fold(p, log), Fold(p, Compact(log)))
  {
    hide Agree, Fold, Compact, NothingLost, Lost;
    CompleteLosesNothing(p, log);
    CompactionExact(p, log);
  }

  // ----- logs that lose something -----

  lemma {:induction false} CompactPair(e: Entry, x: Entry)
    requires Supersedes(x.content, e.content) && !x.content.LogCompacted?
    ensures Compact([e, x]) == [x]
  {
    hide Supersedes;
    assert [e, x][1..] == [x] && [x][1..] == [];
    assert x in [x] && Superseded(e.content, [x]);
    assert !Dropped(x.content, []);
    assert Compact([x]) == [x] + Compact([]);
  }

  lemma {:induction false} FoldPair(p: Projection, e: Entry, x: Entry)
    ensures Fold(p, [e, x]) == Apply(Apply(p, e), x) && Fold(p, [x]) == Apply(p, x)
  {
    hide Apply;
    FoldOne(p, [], x);
    FoldOne(p, [e], x);
    FoldOne(p, [], e);
    assert [] + [x] == [x] && [e] + [x] == [e, x] && [] + [e] == [e];
  }

  /** An event that does not decode forgets what the superseded event wrote. */
  lemma {:induction false} UndecodableForgets(p: Projection, e: Entry, x: Entry)
    requires Supersedes(x.content, e.content) && x.content.Undecodable?
    ensures Fold(p, [e, x]) == Apply(p, e) && Fold(p, Compact([e, x])) == p
  {
    hide Supersedes, Compact, Fold;
    CompactPair(e, x);
    FoldPair(p, e, x);
  }

  /** A batch state without the flag makes compaction forget a pause. */
  lemma {:induction false} CompactionForgetsPause()
    ensures
      var log := [Entry(1, 0, BatchStateChanged(Some(true))), Entry(2, 0, BatchStateChanged(None))];
      Fold(EMPTY, log).paused && !Fold(EMPTY, Compact(log)).paused
  {
    var e, x := Entry(1, 0, BatchStateChanged(Some(true))), Entry(2, 0, BatchStateChanged(None));
    hide Compact, Fold;
    CompactPair(e, x);
    FoldPair(EMPTY, e, x);
  }

  /** A profile that is followed by one that does not decode is forgotten. */
  lemma {:induction false} CompactionForgetsProfile(profile: ChessComProfile)
    ensures
      var log := [Entry(1, 0, ChessComProfileUpdated(profile)), Entry(2, 0, Undecodable(Named(Cell(ProfileField, ""))))];
      Fold(EMPTY, log).profile == Some(profile) && Fold(EMPTY, Compact(log)).profile == None
  {
    hide Fold, Compact;
    UndecodableForgets(EMPTY, Entry(1, 0, ChessComProfileUpdated(profile)), Entry(2, 0, Undecodable(Named(Cell(ProfileField, "")))));
  }

  /** A shallow analysis is forgotten for a full one that does not decode. */
  lemma {:induction false} CompactionForgetsAnalysis(p: Projection, shallow: Analysis)
    requires shallow.gameId in p.games && p.games[shallow.gameId].analysis == None
    ensures
      var log := [Entry(1, 0, ShallowAnalysisCompleted(shallow)), Entry(2, 0, Undecodable(OfAnalysis(shallow.gameId)))];
      Fold(p, log) == p.(games := p.games[shallow.gameId := p.games[shallow.gameId].(shallow := Some(shallow))]) && Fold(p, Compact(log)) == p
  {
    hide Fold, Compact;
    UndecodableForgets(p, Entry(1, 0, ShallowAnalysisCompleted(shallow)), Entry(2, 0, Undecodable(OfAnalysis(shallow.gameId))));
  }
}
