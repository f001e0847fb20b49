/** Runs of the event log with crashes at any byte: the log always holds exactly the completed records,
    and no completed id is ever used twice. */
module Crashes {
  import opened Positions
  import opened Bytes
  import opened Records
  import opened ReplayProofs
  import opened RetainScan
  import opened EventLogs
  import Compaction

  /** The file, whether a process has it open and with what next id; and, for the statement, the
      records completed and still retained, and every id ever given to a completed record. */
  datatype Machine = Machine(file: Bytes, running: bool, nextId: nat, completed: seq<Event>, issued: seq<nat>)

  datatype Step =
    | AppendRecord(kind: nat, payload: Bytes, timestamp: int)
    | TearAppend(tornKind: nat, tornPayload: Bytes, tornAt: int, written: nat)
    | CompactLog(decode: Decoder, notes: Notes)
    | Crash
    | Reopen

  function NewEvent(m: Machine, kind: nat, payload: Bytes, timestamp: int): Event {
    Event(CURRENT_SCHEMA, kind, m.nextId, timestamp, payload)
  }

  function MarkerIds(events: seq<Event>, nextId: nat): seq<nat> {
    if HasLegacySchema(events) then [nextId, nextId + 1] else [nextId]
  }

  /** A crash may strike at any time; every other step needs a process, and reopening needs none. The
      id space is not exhausted, and compaction's own events fit a record. */
  ghost predicate Enabled(m: Machine, step: Step) {
    match step
    case AppendRecord(kind, payload, timestamp) => m.running && Encodable(NewEvent(m, kind, payload, timestamp))
    case TearAppend(kind, payload, timestamp, written) =>
      && m.running && Encodable(NewEvent(m, kind, payload, timestamp))
      && written <= MINIMUM_SIZE + |payload|
    case CompactLog(decode, notes) =>
      m.running && AllEncodable(CompactedEvents(m.completed, decode, m.nextId, notes))
    case Crash => true
    case Reopen => !m.running
  }

  /** Opening replays the log and cuts off a torn tail before anything is appended. */
  function Recovered(file: Bytes): (result: Bytes) {
    var replay := ReplayAll(file);
    if replay.truncated && replay.corruptions == [] && replay.validPrefix <= |file| then file[..replay.validPrefix] else file
  }

  function After(m: Machine, step: Step): Machine
    requires Enabled(m, step)
  {
    match step
    case AppendRecord(kind, payload, timestamp) =>
      var e := NewEvent(m, kind, payload, timestamp);
      Machine(m.file + Serialize(e), true, m.nextId + 1, m.completed + [e], m.issued + [e.id])
    case TearAppend(kind, payload, timestamp, written) =>
      var e := NewEvent(m, kind, payload, timestamp);
      var torn := m.(file := m.file + Serialize(e)[..written], running := false);
      if written < |Serialize(e)| then torn else torn.(completed := m.completed + [e], issued := m.issued + [e.id])
    case CompactLog(decode, notes) =>
      var events := CompactedEvents(m.completed, decode, m.nextId, notes);
      Machine(SerializeAll(events), true, NextAfterCompaction(m.completed, m.nextId), events,
              m.issued + MarkerIds(m.completed, m.nextId))
    case Crash => m.(running := false)
    case Reopen => m.(file := Recovered(m.file), running := true, nextId := NextId(ReplayAll(m.file).events))
  }

  // ----- the invariant -----

  ghost predicate IncreasingIds(events: seq<Event>) {
    && (forall i :: 0 <= i < |events| ==> 0 < events[i].id)
    && (forall i, j :: 0 <= i < j < |events| ==> events[i].id < events[j].id)
  }

  ghost predicate StrictlyIncreasing(ids: seq<nat>) {
    forall i, j :: 0 <= i < j < |ids| ==> ids[i] < ids[j]
  }

  function LastOf(ids: seq<nat>): nat {
    if ids == [] then 0 else ids[|ids| - 1]
  }

  function LastEventId(events: seq<Event>): nat {
    if events == [] then 0 else events[|events| - 1].id
  }

  /** Completed records, then nothing while a process runs, or a record cut short by a crash. */
  ghost predicate FileHolds(m: Machine, torn: Bytes) {
    && AllEncodable(m.completed) && m.file == SerializeAll(m.completed) + torn
    && (m.running ==> torn == [])
    && (torn != [] ==> TornRecord(torn))
  }

  ghost predicate TornRecord(torn: Bytes) {
    exists e :: Encodable(e) && |torn| < MINIMUM_SIZE + |e.payload| && torn == Serialize(e)[..|torn|]
  }

  ghost predicate Sound(m: Machine) {
    && (exists torn :: FileHolds(m, torn))
    && IncreasingIds(m.completed) && StrictlyIncreasing(m.issued)
    && LastEventId(m.completed) == LastOf(m.issued)
    && (m.running ==> m.nextId == LastOf(m.issued) + 1)
  }

  // ----- what the invariant means -----

  lemma TornFileReplays(m: Machine, torn: Bytes)
    requires FileHolds(m, torn)
    ensures ReplayAll(m.file) == Replay(m.completed, [], |SerializeAll(m.completed)|, torn != [])
    ensures Recovered(m.file) == SerializeAll(m.completed)
  {
    hide ReplayFrom, SerializeAll, Serialize, Encodable, Supported;
    if torn == [] {
      assert SerializeAll(m.completed) + torn == SerializeAll(m.completed);
      SerializedReplays(m.completed);
    } else {
      var e :| Encodable(e) && |torn| < MINIMUM_SIZE + |e.payload| && torn == Serialize(e)[..|torn|];
      TornReplay(m.completed, e, |torn|);
      assert m.file[..|SerializeAll(m.completed)|] == SerializeAll(m.completed);
    }
  }

  /** In every sound state the log replays to exactly the completed records, with no corruption; it is
      torn only if no process runs; and recovery cuts it back to exactly those records. */
  lemma SoundReplays(m: Machine)
    requires Sound(m)
    ensures ReplayAll(m.file).events == m.completed && ReplayAll(m.file).corruptions == []
    ensures m.running ==> IsIntact(ReplayAll(m.file))
    ensures AllEncodable(m.completed) && Recovered(m.file) == SerializeAll(m.completed)
  {
    var torn :| FileHolds(m, torn);
    TornFileReplays(m, torn);
    hide ReplayFrom, SerializeAll;
  }

  // ----- every step keeps it -----

  lemma AppendHolds(m: Machine, e: Event)
    requires m.running && Sound(m) && Encodable(e) && Supported(e) && e.id == m.nextId
    ensures
      var next := m.(file := m.file + Serialize(e), completed := m.completed + [e], issued := m.issued + [e.id]);
      FileHolds(next, []) && IncreasingIds(next.completed) && StrictlyIncreasing(next.issued) &&
      LastEventId(next.completed) == LastOf(next.issued) == e.id
  {
    hide Serialize, SerializeAll, Encodable, Supported;
    var torn :| FileHolds(m, torn);
    assert SerializeAll(m.completed) + torn == SerializeAll(m.completed);
    SerializeAppend(m.completed, e);
    assert SerializeAll(m.completed + [e]) + [] == SerializeAll(m.completed + [e]);
  }

  lemma TearHolds(m: Machine, e: Event, written: nat)
    requires m.running && Sound(m) && Encodable(e) && written < MINIMUM_SIZE + |e.payload|
    ensures FileHolds(m.(file := m.file + Serialize(e)[..written], running := false), Serialize(e)[..written])
  {
    hide Serialize, SerializeAll, Encodable, Supported;
    var torn :| FileHolds(m, torn);
    assert SerializeAll(m.completed) + torn == SerializeAll(m.completed);
    var part := Serialize(e)[..written];
    assert part == Serialize(e)[..|part|];
  }

  lemma {:induction false} NextIdIs(events: seq<Event>)
    requires IncreasingIds(events)
    ensures NextId(events) == LastEventId(events) + 1
  {
    if events != [] {
      var before := events[..|events| - 1];
      NextIdIs(before);
    }
  }

  lemma TailIncreasing(events: seq<Event>)
    requires IncreasingIds(events) && events != []
    ensures IncreasingIds(events[1..]) && forall e :: e in events[1..] ==> events[0].id < e.id
    ensures events[1..] != [] ==> LastEventId(events[1..]) == LastEventId(events)
  {
    var rest := events[1..];
    assert forall i :: 0 <= i < |rest| ==> rest[i] == events[i + 1];
  }

  lemma {:induction false} RetainedIncreasing(events: seq<Event>, decode: Decoder)
    requires IncreasingIds(events)
    ensures IncreasingIds(Retained(events, decode))
    ensures forall e :: e in Retained(events, decode) ==> e.id <= LastEventId(events)
  {
    hide Compaction.Dropped, Typed, IncreasingIds, LastEventId;
    forall e | e in Retained(events, decode)
      ensures e.id <= LastEventId(events)
    {
      RetainedIn(events, decode, e);
      IdsBounded(events, e);
    }
    if events == [] {
      NoneIncreasing();
    } else {
      var rest := events[1..];
      TailIncreasing(events);
      RetainedIncreasing(rest, decode);
      forall e | e in Retained(rest, decode)
        ensures events[0].id < e.id
      {
        RetainedIn(rest, decode, e);
      }
      FirstPositive(events);
      PrependIncreasing(events[0], Retained(rest, decode));
      assert Retained(events, decode) == Retained(rest, decode) || Retained(events, decode) == [events[0]] + Retained(rest, decode);
    }
  }

  lemma NoneIncreasing()
    ensures IncreasingIds([])
  {
  }

  lemma FirstPositive(events: seq<Event>)
    requires IncreasingIds(events) && events != []
    ensures 0 < events[0].id
  {
  }

  lemma IdsBounded(events: seq<Event>, e: Event)
    requires IncreasingIds(events) && e in events
    ensures e.id <= LastEventId(events)
  {
  }

  lemma PrependIncreasing(e: Event, events: seq<Event>)
    requires 0 < e.id && IncreasingIds(events) && forall x :: x in events ==> e.id < x.id
    ensures IncreasingIds([e] + events)
  {
    var all := [e] + events;
    forall i, j | 0 <= i < j < |all|
      ensures all[i].id < all[j].id
    {
      assert all[j] == events[j - 1] && events[j - 1] in events;
    }
  }

  lemma AppendIncreasing(events: seq<Event>, e: Event)
    requires IncreasingIds(events) && forall x :: x in events ==> x.id < e.id
    requires 0 < e.id
    ensures IncreasingIds(events + [e])
  {
    forall i | 0 <= i < |events|
      ensures events[i].id < e.id
    {
      assert events[i] in events;
    }
  }

  lemma MarkedIncreasing(kept: seq<Event>, legacy: bool, nextId: nat, notes: Notes)
    requires IncreasingIds(kept) && 0 < nextId && forall e :: e in kept ==> e.id < nextId
    ensures IncreasingIds(kept + Markers(legacy, nextId, notes))
  {
    hide IncreasingIds;
    var markers := Markers(legacy, nextId, notes);
    AppendIncreasing(kept, markers[0]);
    if legacy {
      AppendIncreasing(kept + [markers[0]], markers[1]);
      assert kept + markers == kept + [markers[0]] + [markers[1]];
    } else {
      assert kept + markers == kept + [markers[0]];
    }
  }

  lemma {:induction false} UpgradedIncreasing(events: seq<Event>)
    requires IncreasingIds(events)
    ensures IncreasingIds(Upgraded(events)) && LastEventId(Upgraded(events)) == LastEventId(events)
  {
  }

  lemma CompactedIncreasing(events: seq<Event>, decode: Decoder, nextId: nat, notes: Notes)
    requires IncreasingIds(events) && nextId == LastEventId(events) + 1
    ensures
      var compacted := CompactedEvents(events, decode, nextId, notes);
      IncreasingIds(compacted) && compacted != [] && LastEventId(compacted) == LastOf(MarkerIds(events, nextId)) &&
      NextAfterCompaction(events, nextId) == LastEventId(compacted) + 1
  {
    hide Retained, HasLegacySchema, IncreasingIds, Upgraded;
    var kept, markers := Retained(events, decode), Markers(HasLegacySchema(events), nextId, notes);
    RetainedIncreasing(events, decode);
    MarkedIncreasing(kept, HasLegacySchema(events), nextId, notes);
    UpgradedIncreasing(kept + markers);
    var all := kept + markers;
    assert all[|all| - 1] == markers[|markers| - 1];
  }

  lemma CompactHolds(m: Machine, decode: Decoder, notes: Notes)
    requires Sound(m) && Enabled(m, CompactLog(decode, notes))
    ensures Sound(After(m, CompactLog(decode, notes)))
  {
    hide Serialize, SerializeAll, Encodable, Supported;
    CompactedIncreasing(m.completed, decode, m.nextId, notes);
    hide CompactedEvents;
    var next := After(m, CompactLog(decode, notes));
    assert SerializeAll(next.completed) + [] == SerializeAll(next.completed);
    assert FileHolds(next, []);
  }

  lemma ReopenHolds(m: Machine)
    requires Sound(m) && Enabled(m, Reopen)
    ensures Sound(After(m, Reopen))
  {
    hide Serialize, SerializeAll, Encodable, Supported, ReplayFrom;
    SoundReplays(m);
    NextIdIs(m.completed);
    hide Recovered, NextId;
    var next := After(m, Reopen);
    assert SerializeAll(m.completed) + [] == SerializeAll(m.completed);
    assert FileHolds(next, []);
  }

  lemma AppendKeepsSound(m: Machine, kind: nat, payload: Bytes, timestamp: int)
    requires Sound(m) && Enabled(m, AppendRecord(kind, payload, timestamp))
    ensures Sound(After(m, AppendRecord(kind, payload, timestamp)))
  {
    hide Serialize, SerializeAll, Encodable;
    var e := NewEvent(m, kind, payload, timestamp);
    var next := After(m, AppendRecord(kind, payload, timestamp));
    AppendHolds(m, e);
    assert FileHolds(next, []);
  }

  lemma TearKeepsSound(m: Machine, kind: nat, payload: Bytes, timestamp: int, written: nat)
    requires Sound(m) && Enabled(m, TearAppend(kind, payload, timestamp, written))
    ensures Sound(After(m, TearAppend(kind, payload, timestamp, written)))
  {
    hide Serialize, SerializeAll, Encodable;
    var e := NewEvent(m, kind, payload, timestamp);
    var next := After(m, TearAppend(kind, payload, timestamp, written));
    if written < |Serialize(e)| {
      TearHolds(m, e, written);
      assert FileHolds(next, Serialize(e)[..written]);
    } else {
      AppendHolds(m, e);
      assert Serialize(e)[..written] == Serialize(e);
      assert FileHolds(next, []);
    }
  }

  lemma CrashKeepsSound(m: Machine)
    requires Sound(m)
    ensures Sound(After(m, Crash))
  {
    hide SerializeAll, TornRecord;
    var torn :| FileHolds(m, torn);
    assert FileHolds(After(m, Crash), torn);
  }

  lemma StepKeepsSound(m: Machine, step: Step)
    requires Sound(m) && Enabled(m, step)
    ensures Sound(After(m, step))
    ensures m.issued <= After(m, step).issued
  {
    match step
    case AppendRecord(kind, payload, timestamp) =>
      hide Sound;
      AppendKeepsSound(m, kind, payload, timestamp);
    case TearAppend(kind, payload, timestamp, written) =>
      hide Sound;
      TearKeepsSound(m, kind, payload, timestamp, written);
    case CompactLog(decode, notes) =>
      hide Sound;
      CompactHolds(m, decode, notes);
    case Crash =>
      hide Sound;
      CrashKeepsSound(m);
    case Reopen =>
      hide Sound;
      ReopenHolds(m);
  }

  ghost predicate IsRun(m: Machine, steps: seq<Step>)
    decreases |steps|
  {
    steps == [] || (Enabled(m, steps[0]) && IsRun(After(m, steps[0]), steps[1..]))
  }

  ghost function Reached(m: Machine, steps: seq<Step>): Machine
    requires IsRun(m, steps)
    decreases |steps|
  {
    if steps == [] then m else Reached(After(m, steps[0]), steps[1..])
  }

  /** After any run from an intact log: the log replays to exactly the completed records without
      corruption, and intact whenever a process runs; recovery restores exactly them; retained ids
      increase; and the ids of completed records, over the whole run, are never reused. */
  lemma {:induction false} RunKeepsLog(m: Machine, steps: seq<Step>)
    requires Sound(m) && IsRun(m, steps)
    ensures
      var last := Reached(m, steps);
      && Sound(last) && m.issued <= last.issued && StrictlyIncreasing(last.issued) && IncreasingIds(last.completed)
      && ReplayAll(last.file).events == last.completed && ReplayAll(last.file).corruptions == []
      && (last.running ==> IsIntact(ReplayAll(last.file)))
      && AllEncodable(last.completed) && Recovered(last.file) == SerializeAll(last.completed)
    decreases |steps|
  {
    hide Enabled, After, FileHolds, Recovered, ReplayFrom, SerializeAll;
    if steps == [] {
      SoundReplays(m);
    } else {
      StepKeepsSound(m, steps[0]);
      RunKeepsLog(After(m, steps[0]), steps[1..]);
    }
  }

  /** A new log, and any intact log with increasing ids, starts sound. */
  lemma IntactStarts(file: Bytes)
    requires IsIntact(ReplayAll(file)) && IncreasingIds(ReplayAll(file).events)
    ensures
      var events := ReplayAll(file).events;
      Sound(Machine(file, true, NextId(events), events, if events == [] then [] else [LastEventId(events)]))
  {
    hide ReplayFrom, SerializeAll, Serialize, Encodable, Supported;
    IntactExactly(file);
    var events := ReplayAll(file).events;
    NextIdIs(events);
    var m := Machine(file, true, NextId(events), events, if events == [] then [] else [LastEventId(events)]);
    assert SerializeAll(events) + [] == SerializeAll(events);
    assert FileHolds(m, []);
  }
}
