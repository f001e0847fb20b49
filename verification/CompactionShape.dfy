/** What compaction drops and what it keeps, told by the kind of an event and the key in it: of each kind and key
    only the last stays, and nothing else goes. */
module CompactionShape {
  import opened Positions
  import opened Events
  import opened Agreement
  import opened Compaction
  import opened Snapshots

  // ----- kinds and keys, of payloads that decode and of those that do not -----

  function NamedKey(c: Content, table: Table): Option<string> {
    if c.Undecodable? && c.remnant.Named? && c.remnant.topic.table == table then Some(c.remnant.topic.key) else None
  }

  function ShallowOf(c: Content): Option<string> {
    if c.ShallowAnalysisCompleted? then Some(c.shallow.gameId) else NamedKey(c, ShallowTable)
  }

  function FullOf(c: Content): Option<string> {
    match c
    case AnalysisCompleted(analysis) => Some(analysis.gameId)
    case Undecodable(OfAnalysis(game)) => Some(game)
    case _ => None
  }

  function JobOf(c: Content): Option<string> {
    if c.AnalysisJobStateChanged? then Some(c.jobGame) else NamedKey(c, JobTable)
  }

  function CompletionOf(c: Content): Option<string> {
    if c.ResourceCompleted? then Some(c.resource) else NamedKey(c, CompletionTable)
  }

  function SessionOf(c: Content): Option<string> {
    if c.DrillSessionUpdated? then Some(c.sessionDrill)
    else if c.DrillHintUpdated? then Some(c.hintDrill)
    else NamedKey(c, SessionTable)
  }

  function MonthOf(c: Content): Option<string> {
    if c.MonthCheckpointed? then Some(c.checkpoint.username + "\n" + c.checkpoint.month) else NamedKey(c, CheckpointTable)
  }

  function VariationOf(c: Content): Option<string> {
    if c.VariationSaved? then Some(c.variation.id)
    else if c.VariationDeleted? then Some(c.deleted)
    else NamedKey(c, VariationTable)
  }

  predicate IsSnapshotMarker(c: Content) {
    c.ProfileSnapshotCreated? || c == Undecodable(OfMarker)
  }

  predicate IsBatchState(c: Content) {
    c.BatchStateChanged? || NamedKey(c, PausedField).Some?
  }

  predicate IsProfile(c: Content) {
    c.ChessComProfileUpdated? || NamedKey(c, ProfileField).Some?
  }

  predicate IsIdentity(c: Content) {
    c.PlayerIdentityUpdated? || NamedKey(c, IdentityField).Some?
  }

  predicate IsSync(c: Content) {
    c.SyncStateChanged? || NamedKey(c, SyncField).Some?
  }

  predicate Same(a: Option<string>, b: Option<string>) {
    a.Some? && a == b
  }

  /** A later event of an earlier one's kind and key, a full analysis after a shallow one included. */
  predicate Outdates(later: Content, earlier: Content) {
    || Same(ShallowOf(earlier), ShallowOf(later)) || Same(ShallowOf(earlier), FullOf(later))
    || Same(JobOf(earlier), JobOf(later)) || Same(CompletionOf(earlier), CompletionOf(later))
    || Same(SessionOf(earlier), SessionOf(later)) || Same(MonthOf(earlier), MonthOf(later))
    || Same(VariationOf(earlier), VariationOf(later))
    || (IsSnapshotMarker(earlier) && IsSnapshotMarker(later)) || (IsBatchState(earlier) && IsBatchState(later))
    || (earlier.SchemaMigrated? && later.SchemaMigrated?) || (IsProfile(earlier) && IsProfile(later))
    || (IsIdentity(earlier) && IsIdentity(later)) || (IsSync(earlier) && IsSync(later))
  }

  function Flag(has: bool): Option<string> {
    if has then Some("") else None
  }

  lemma SameFlag(a: bool, b: bool)
    ensures Same(Flag(a), Flag(b)) <==> a && b
  {
  }

  /** The key of a kind of its own, if the event has one. */
  function KeyIn(c: Content, table: Table): Option<string> {
    match table
    case ShallowTable => ShallowOf(c)
    case JobTable => JobOf(c)
    case CompletionTable => CompletionOf(c)
    case SessionTable => SessionOf(c)
    case CheckpointTable => MonthOf(c)
    case VariationTable => VariationOf(c)
    case PausedField => Flag(IsBatchState(c))
    case ProfileField => Flag(IsProfile(c))
    case IdentityField => Flag(IsIdentity(c))
    case SyncField => Flag(IsSync(c))
    case _ => None
  }

  lemma TopicIs(c: Content, table: Table)
    ensures KeyIn(c, table) == if TopicOf(c).Some? && TopicOf(c).value.table == table then Some(TopicOf(c).value.key) else None
  {
  }

  lemma OthersAre(c: Content)
    ensures FullOf(c) == AnalysedGame(c) && (IsSnapshotMarker(c) <==> IsMarker(c))
  {
  }

  predicate SameAt(later: Content, earlier: Content, table: Table) {
    Same(KeyIn(earlier, table), KeyIn(later, table))
  }

  lemma SameTopic(later: Content, earlier: Content, table: Table)
    ensures SameAt(later, earlier, table) <==>
            && TopicOf(earlier).Some? && TopicOf(later).Some? && TopicOf(later).value == TopicOf(earlier).value
            && TopicOf(earlier).value.table == table
  {
    TopicIs(earlier, table);
    TopicIs(later, table);
    hide KeyIn, TopicOf;
  }

  predicate SameAnywhere(later: Content, earlier: Content) {
    || SameAt(later, earlier, ShallowTable) || SameAt(later, earlier, JobTable) || SameAt(later, earlier, CompletionTable)
    || SameAt(later, earlier, SessionTable) || SameAt(later, earlier, CheckpointTable) || SameAt(later, earlier, VariationTable)
    || SameAt(later, earlier, PausedField) || SameAt(later, earlier, ProfileField) || SameAt(later, earlier, IdentityField)
    || SameAt(later, earlier, SyncField)
  }

  lemma KeysAt(c: Content)
    ensures KeyIn(c, ShallowTable) == ShallowOf(c) && KeyIn(c, JobTable) == JobOf(c) && KeyIn(c, CompletionTable) == CompletionOf(c)
    ensures KeyIn(c, SessionTable) == SessionOf(c) && KeyIn(c, CheckpointTable) == MonthOf(c)
    ensures KeyIn(c, VariationTable) == VariationOf(c)
  {
    hide ShallowOf, JobOf, CompletionOf, SessionOf, MonthOf, VariationOf, IsBatchState, IsProfile, IsIdentity, IsSync, Flag;
  }

  lemma FieldsAt(c: Content)
    ensures KeyIn(c, PausedField) == Flag(IsBatchState(c)) && KeyIn(c, ProfileField) == Flag(IsProfile(c))
    ensures KeyIn(c, IdentityField) == Flag(IsIdentity(c)) && KeyIn(c, SyncField) == Flag(IsSync(c))
  {
    hide ShallowOf, JobOf, CompletionOf, SessionOf, MonthOf, VariationOf, IsBatchState, IsProfile, IsIdentity, IsSync, Flag;
  }

  lemma KeysCompared(later: Content, earlier: Content, table: Table, a: Option<string>, b: Option<string>)
    requires KeyIn(earlier, table) == a && KeyIn(later, table) == b
    ensures SameAt(later, earlier, table) == Same(a, b)
  {
  }

  lemma KeysAgree(later: Content, earlier: Content)
    ensures SameAt(later, earlier, ShallowTable) == Same(ShallowOf(earlier), ShallowOf(later))
    ensures SameAt(later, earlier, JobTable) == Same(JobOf(earlier), JobOf(later))
    ensures SameAt(later, earlier, CompletionTable) == Same(CompletionOf(earlier), CompletionOf(later))
    ensures SameAt(later, earlier, SessionTable) == Same(SessionOf(earlier), SessionOf(later))
    ensures SameAt(later, earlier, CheckpointTable) == Same(MonthOf(earlier), MonthOf(later))
    ensures SameAt(later, earlier, VariationTable) == Same(VariationOf(earlier), VariationOf(later))
  {
    KeysAt(later);
    KeysAt(earlier);
    hide *;
    KeysCompared(later, earlier, ShallowTable, ShallowOf(earlier), ShallowOf(later));
    KeysCompared(later, earlier, JobTable, JobOf(earlier), JobOf(later));
    KeysCompared(later, earlier, CompletionTable, CompletionOf(earlier), CompletionOf(later));
    KeysCompared(later, earlier, SessionTable, SessionOf(earlier), SessionOf(later));
    KeysCompared(later, earlier, CheckpointTable, MonthOf(earlier), MonthOf(later));
    KeysCompared(later, earlier, VariationTable, VariationOf(earlier), VariationOf(later));
  }

  lemma FieldsAgree(later: Content, earlier: Content)
    ensures SameAt(later, earlier, PausedField) <==> IsBatchState(earlier) && IsBatchState(later)
    ensures SameAt(later, earlier, ProfileField) <==> IsProfile(earlier) && IsProfile(later)
    ensures SameAt(later, earlier, IdentityField) <==> IsIdentity(earlier) && IsIdentity(later)
    ensures SameAt(later, earlier, SyncField) <==> IsSync(earlier) && IsSync(later)
  {
    FieldsAt(later);
    FieldsAt(earlier);
    SameFlag(IsBatchState(earlier), IsBatchState(later));
    SameFlag(IsProfile(earlier), IsProfile(later));
    SameFlag(IsIdentity(earlier), IsIdentity(later));
    SameFlag(IsSync(earlier), IsSync(later));
    hide Same, KeyIn, IsBatchState, IsProfile, IsIdentity, IsSync, Flag;
  }

  lemma OutdatesByTable(later: Content, earlier: Content)
    ensures Outdates(later, earlier) <==>
            || SameAnywhere(later, earlier) || Same(ShallowOf(earlier), FullOf(later))
            || (IsSnapshotMarker(earlier) && IsSnapshotMarker(later)) || (earlier.SchemaMigrated? && later.SchemaMigrated?)
  {
    KeysAgree(later, earlier);
    FieldsAgree(later, earlier);
    hide SameAt, Same, ShallowOf, FullOf, JobOf, CompletionOf, SessionOf, MonthOf, VariationOf, IsSnapshotMarker, IsBatchState, IsProfile,
         IsIdentity, IsSync;
  }

  lemma SameTopicAnywhere(later: Content, earlier: Content)
    ensures SameAnywhere(later, earlier) <==>
            TopicOf(earlier).Some? && TopicOf(later).Some? && TopicOf(later).value == TopicOf(earlier).value
  {
    SameTopic(later, earlier, ShallowTable);
    SameTopic(later, earlier, JobTable);
    SameTopic(later, earlier, CompletionTable);
    SameTopic(later, earlier, SessionTable);
    SameTopic(later, earlier, CheckpointTable);
    SameTopic(later, earlier, VariationTable);
    SameTopic(later, earlier, PausedField);
    SameTopic(later, earlier, ProfileField);
    SameTopic(later, earlier, IdentityField);
    SameTopic(later, earlier, SyncField);
    hide KeyIn, TopicOf, Same;
  }

  /** Outdated by kind and key is what the scan goes by. */
  lemma OutdatesExact(later: Content, earlier: Content)
    ensures Supersedes(later, earlier) <==> Outdates(later, earlier)
  {
    OthersAre(later);
    OthersAre(earlier);
    TopicIs(earlier, ShallowTable);
    OutdatesByTable(later, earlier);
    SameTopicAnywhere(later, earlier);
    assert KeyIn(earlier, ShallowTable) == ShallowOf(earlier);
    hide Outdates, SameAnywhere, KeyIn, ShallowOf, FullOf, TopicOf, AnalysedGame, IsMarker, IsSnapshotMarker;
  }

  // ----- what is kept and what is gone -----

  /** The event at the place stays: it is no compaction record and nothing after it outdates it. */
  ghost predicate Stays(log: seq<Entry>, i: nat)
    requires i < |log|
  {
    && !log[i].content.LogCompacted?
    && forall j :: i < j < |log| ==> !Outdates(log[j].content, log[i].content)
  }

  lemma FirstStays(log: seq<Entry>)
    requires log != []
    ensures Stays(log, 0) <==> !Dropped(log[0].content, log[1..])
  {
    hide Supersedes, Outdates;
    var e, rest := log[0], log[1..];
    forall x | x in rest
      ensures Supersedes(x.content, e.content) <==> Outdates(x.content, e.content)
    {
      OutdatesExact(x.content, e.content);
    }
    forall j | 0 < j < |log|
      ensures log[j] == rest[j - 1] && log[j] in rest
    {
    }
    if !Stays(log, 0) && !e.content.LogCompacted? {
      var j :| 0 < j < |log| && Outdates(log[j].content, e.content);
      assert log[j] in rest;
    }
  }

  lemma TailStays(log: seq<Entry>, i: nat)
    requires 0 < i < |log|
    ensures Stays(log, i) <==> Stays(log[1..], i - 1)
  {
    hide Outdates;
    var rest := log[1..];
    assert forall j :: 0 < j < |log| ==> log[j] == rest[j - 1];
    assert forall j :: 0 <= j < |rest| ==> rest[j] == log[j + 1];
  }

  /** An event is in the compacted log exactly if some place of the log it stands at stays: an event is gone
      only where a later one of its kind and key follows, or because it records an earlier compaction. */
  lemma {:induction false} KeptExact(log: seq<Entry>, e: Entry)
    ensures e in Compact(log) <==> exists i :: 0 <= i < |log| && log[i] == e && Stays(log, i)
    decreases |log|
  {
    hide Stays, Dropped;
    if log != [] {
      var rest := log[1..];
      FirstStays(log);
      KeptExact(rest, e);
      if e in Compact(rest) {
        var i :| 0 <= i < |rest| && rest[i] == e && Stays(rest, i);
        TailStays(log, i + 1);
        assert log[i + 1] == e;
      }
      forall i | 0 < i < |log| && log[i] == e && Stays(log, i)
        ensures e in Compact(rest)
      {
        TailStays(log, i);
        assert rest[i - 1] == e;
      }
    }
  }

  /** In the compacted log no event outdates an earlier one, and no earlier compaction is recorded. */
  lemma {:induction false} NoneOutdated(log: seq<Entry>)
    ensures forall i :: 0 <= i < |Compact(log)| ==> Stays(Compact(log), i)
    decreases |log|
  {
    hide Stays, Dropped;
    if log != [] {
      var e, rest, kept := log[0], log[1..], Compact(log[1..]);
      NoneOutdated(rest);
      if Dropped(e.content, rest) {
        assert Compact(log) == kept;
      } else {
        var all := [e] + kept;
        assert Compact(log) == all && all[1..] == kept;
        forall i | 0 <= i < |all|
          ensures Stays(all, i)
        {
          if i == 0 {
            NarrowedStays(log, kept);
          } else {
            assert Stays(kept, i - 1);
            TailStays(all, i);
          }
        }
      }
    }
  }

  lemma NarrowedStays(log: seq<Entry>, kept: seq<Entry>)
    requires log != [] && !Dropped(log[0].content, log[1..]) && kept == Compact(log[1..])
    ensures Stays([log[0]] + kept, 0)
  {
    hide Stays, Supersedes;
    forall x | x in kept
      ensures x in log[1..]
    {
      CompactIn(log[1..], x);
    }
    assert !Dropped(log[0].content, kept);
    assert ([log[0]] + kept)[1..] == kept;
    FirstStays([log[0]] + kept);
  }

  /** Of each kind and key one event is left, the last, and the shallow analyses of a fully analysed game
      stand behind its full ones. */
  lemma OneOfEach(log: seq<Entry>, i: nat, j: nat)
    requires i < j < |Compact(log)|
    ensures
      var c, d := Compact(log)[i].content, Compact(log)[j].content;
      && (ShallowOf(c).Some? ==> ShallowOf(d) != ShallowOf(c) && FullOf(d) != ShallowOf(c))
      && (JobOf(c).Some? ==> JobOf(d) != JobOf(c)) && (CompletionOf(c).Some? ==> CompletionOf(d) != CompletionOf(c))
      && (SessionOf(c).Some? ==> SessionOf(d) != SessionOf(c)) && (MonthOf(c).Some? ==> MonthOf(d) != MonthOf(c))
      && (VariationOf(c).Some? ==> VariationOf(d) != VariationOf(c))
      && !(IsSnapshotMarker(c) && IsSnapshotMarker(d)) && !(IsBatchState(c) && IsBatchState(d))
      && !(c.SchemaMigrated? && d.SchemaMigrated?) && !(IsProfile(c) && IsProfile(d))
      && !(IsIdentity(c) && IsIdentity(d)) && !(IsSync(c) && IsSync(d))
      && !c.LogCompacted? && !d.LogCompacted?
  {
    NoneOutdated(log);
    assert Stays(Compact(log), i) && Stays(Compact(log), j);
    hide Compact, ShallowOf, FullOf, JobOf, CompletionOf, SessionOf, MonthOf, VariationOf, IsSnapshotMarker, IsBatchState, IsProfile,
         IsIdentity, IsSync;
  }
}
