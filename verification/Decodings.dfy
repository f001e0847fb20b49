/** The bytes of the log and the typed log of the repository are one log: what the bytes decode to moves with
    every append and compaction as the typed log does. */
module Decodings {
  import opened Bytes
  import opened Records
  import opened ReplayProofs
  import opened Appends
  import opened Events
  import opened Compaction
  import opened RetainScan
  import opened EventLogs
  import opened Snapshots
  import Crashes
  import SnapshotRuns

  /** The decoder knows the two events compaction adds. */
  ghost predicate KnowsMarkers(decode: Decoder) {
    forall payload :: decode(SCHEMA_MIGRATED, payload).SchemaMigrated? && decode(LOG_COMPACTED, payload).LogCompacted?
  }

  /** A file, damaged or not but not torn, whose records decode to the typed log. */
  ghost predicate Holds(file: Bytes, decode: Decoder, log: seq<Entry>) {
    !ReplayAll(file).truncated && TypedAll(ReplayAll(file).events, decode) == log
  }

  // ----- records and entries -----

  lemma {:induction false} UpgradedTyped(events: seq<Event>, decode: Decoder)
    ensures TypedAll(Upgraded(events), decode) == TypedAll(events, decode)
  {
    var a, b := TypedAll(Upgraded(events), decode), TypedAll(events, decode);
    hide TypedAll, Upgraded;
    forall i | 0 <= i < |events|
      ensures a[i] == b[i]
    {
    }
  }

  /** A compacted log decodes to the compacted typed log and compaction's own events. */
  lemma {:induction false} CompactedTyped(events: seq<Event>, decode: Decoder, nextId: nat, notes: Notes)
    ensures TypedAll(CompactedEvents(events, decode, nextId, notes), decode) ==
            Compact(TypedAll(events, decode)) + TypedAll(Markers(HasLegacySchema(events), nextId, notes), decode)
  {
    hide TypedAll, Upgraded, Retained, Compact, Markers, HasLegacySchema;
    var markers := Markers(HasLegacySchema(events), nextId, notes);
    UpgradedTyped(Retained(events, decode) + markers, decode);
    TypedConcat(Retained(events, decode), markers, decode);
    RetainedIsCompact(events, decode);
  }

  lemma TypedIds(events: seq<Event>, decode: Decoder)
    ensures Crashes.IncreasingIds(events) <==> Increasing(TypedAll(events, decode))
    ensures Crashes.LastEventId(events) == LastId(TypedAll(events, decode))
  {
    var log := TypedAll(events, decode);
    hide TypedAll;
    assert forall i :: 0 <= i < |log| ==> log[i].id == events[i].id;
  }

  lemma {:induction false} TypedOne(e: Event, decode: Decoder)
    ensures TypedAll([e], decode) == [Typed(e, decode)]
  {
    assert [e][1..] == [];
  }

  lemma MarkersMark(legacy: bool, nextId: nat, notes: Notes, decode: Decoder)
    requires KnowsMarkers(decode) && nextId > 0
    ensures SnapshotRuns.CompactionMarkers(TypedAll(Markers(legacy, nextId, notes), decode), nextId - 1)
  {
    var log := TypedAll(Markers(legacy, nextId, notes), decode);
    hide TypedAll;
    assert forall i :: 0 <= i < |log| ==> log[i].id == nextId + i;
  }

  // ----- the log's operations -----

  /** An opened log gives out the id after the last entry. */
  lemma OpenedId(file: Bytes, decode: Decoder, log: seq<Entry>)
    requires Holds(file, decode, log) && Increasing(log)
    ensures NextId(ReplayAll(file).events) == LastId(log) + 1
  {
    hide ReplayFrom, NextId, Crashes.IncreasingIds, Increasing;
    TypedIds(ReplayAll(file).events, decode);
    Crashes.NextIdIs(ReplayAll(file).events);
  }

  /** Recovery leaves a log torn exactly when it is damaged as well, and reads the same records. */
  lemma {:induction false} RecoveredTorn(file: Bytes)
    ensures ReplayAll(Crashes.Recovered(file)).truncated <==> ReplayAll(file).truncated && ReplayAll(file).corruptions != []
    ensures ReplayAll(Crashes.Recovered(file)).events == ReplayAll(file).events
  {
    hide ReplayFrom, SerializeAll, IntactEvents;
    ReplayCanonical(file);
    PrefixReplay(file, 0);
    SerializedReplays(IntactEvents(file));
  }

  /** Appending a record to any log that is not torn appends the entry it decodes to. */
  lemma AppendDecodes(file: Bytes, decode: Decoder, log: seq<Entry>, e: Event)
    requires Holds(file, decode, log) && Encodable(e) && Supported(e)
    ensures Holds(file + Serialize(e), decode, log + [Typed(e, decode)])
    ensures IsIntact(ReplayAll(file + Serialize(e))) <==> IsIntact(ReplayAll(file))
  {
    hide ReplayFrom, Serialize, Encodable, Supported, TypedAll;
    AppendReplays(file, e);
    TypedConcat(ReplayAll(file).events, [e], decode);
    TypedOne(e, decode);
  }

  /** The file compaction writes for an intact log holds the compacted typed log and compaction's own events. */
  lemma {:induction false} CompactDecodes(file: Bytes, decode: Decoder, log: seq<Entry>, nextId: nat, notes: Notes)
    requires IsIntact(ReplayAll(file)) && Holds(file, decode, log) && KnowsMarkers(decode) && nextId == LastId(log) + 1
    requires AllEncodable(CompactedEvents(ReplayAll(file).events, decode, nextId, notes))
    ensures
      var events := ReplayAll(file).events;
      var markers := TypedAll(Markers(HasLegacySchema(events), nextId, notes), decode);
      var compacted := SerializeAll(CompactedEvents(events, decode, nextId, notes));
      && SnapshotRuns.CompactionMarkers(markers, LastId(log))
      && IsIntact(ReplayAll(compacted)) && Holds(compacted, decode, Compact(log) + markers)
  {
    hide ReplayFrom, SerializeAll, TypedAll, CompactedEvents, Markers, HasLegacySchema, Compact, SnapshotRuns.CompactionMarkers, LastId;
    var events := ReplayAll(file).events;
    CompactedTyped(events, decode, nextId, notes);
    MarkersMark(HasLegacySchema(events), nextId, notes, decode);
    SerializedReplays(CompactedEvents(events, decode, nextId, notes));
  }
}
