/** The event log: a file of records and the next event id. A crash is the death of the process
    followed by reopening; writing the compacted file elsewhere and renaming it is one step. */
module EventLogs {
  import opened Positions
  import opened Bytes
  import opened Crc32
  import opened Records
  import opened ReplayProofs
  import opened RetainScan
  import Compaction

  const SCHEMA_MIGRATED: nat := 14
  const LOG_COMPACTED: nat := 15

  /** One past the largest id replayed, and at least 1. */
  function NextId(events: seq<Event>): (next: nat)
    ensures next > 0 && forall e :: e in events ==> e.id < next
  {
    if events == [] then 1
    else
      var next := NextId(events[..|events| - 1]);
      assert events == events[..|events| - 1] + [events[|events| - 1]];
      if events[|events| - 1].id + 1 > next then events[|events| - 1].id + 1 else next
  }

  predicate IsIntact(r: Replay) {
    r.corruptions == [] && !r.truncated
  }

  // ----- what compaction writes -----

  predicate HasLegacySchema(events: seq<Event>) {
    exists e :: e in events && e.schema < CURRENT_SCHEMA
  }

  /** The texts of the events compaction adds are parameters. */
  datatype Notes = Notes(migratedAt: int, migrated: Bytes, compactedAt: int, compacted: Bytes)

  function Markers(legacy: bool, nextId: nat, notes: Notes): seq<Event> {
    if legacy then
      [Event(CURRENT_SCHEMA, SCHEMA_MIGRATED, nextId, notes.migratedAt, notes.migrated),
       Event(CURRENT_SCHEMA, LOG_COMPACTED, nextId + 1, notes.compactedAt, notes.compacted)]
    else [Event(CURRENT_SCHEMA, LOG_COMPACTED, nextId, notes.compactedAt, notes.compacted)]
  }

  function Upgraded(events: seq<Event>): (result: seq<Event>)
    ensures |result| == |events|
    ensures forall i :: 0 <= i < |events| ==> result[i] == events[i].(schema := CURRENT_SCHEMA)
  {
    if events == [] then [] else [events[0].(schema := CURRENT_SCHEMA)] + Upgraded(events[1..])
  }

  /** The events of the log after compaction. */
  function CompactedEvents(events: seq<Event>, decode: Decoder, nextId: nat, notes: Notes): seq<Event> {
    Upgraded(Retained(events, decode) + Markers(HasLegacySchema(events), nextId, notes))
  }

  function NextAfterCompaction(events: seq<Event>, nextId: nat): nat {
    nextId + if HasLegacySchema(events) then 2 else 1
  }

  /** Behind what is kept, all of the current schema, stands the record of the compaction, and before it one of the
      migration exactly if some event was of an older schema. */
  lemma MarkersStand(events: seq<Event>, decode: Decoder, nextId: nat, notes: Notes)
    ensures
      var kept, written := Retained(events, decode), CompactedEvents(events, decode, nextId, notes);
      var legacy := exists i :: 0 <= i < |events| && events[i].schema < 2;
      && (forall i :: 0 <= i < |kept| ==> written[i] == kept[i].(schema := 2)) && (forall e :: e in written ==> e.schema == 2)
      && written[|kept|..] == if legacy then [Event(2, 14, nextId, notes.migratedAt, notes.migrated),
                                              Event(2, 15, nextId + 1, notes.compactedAt, notes.compacted)]
                              else [Event(2, 15, nextId, notes.compactedAt, notes.compacted)]
  {
    hide Retained;
  }

  lemma UpgradedStep(events: seq<Event>, i: nat)
    requires i < |events|
    ensures Upgraded(events[..i + 1]) == Upgraded(events[..i]) + [events[i].(schema := CURRENT_SCHEMA)]
  {
    var longer, shorter, last := Upgraded(events[..i + 1]), Upgraded(events[..i]), events[i].(schema := CURRENT_SCHEMA);
    hide Upgraded;
    forall k | 0 <= k <= i
      ensures longer[k] == (shorter + [last])[k]
    {
    }
    assert longer == shorter + [last];
  }

  // ----- loops -----

  lemma ReplayStep(data: Bytes, offset: nat, intact: bool, valid: nat)
    requires offset < |data|
    ensures
      ReplayFrom(data[offset..], offset, intact, valid) ==
        match Inspect(data[offset..])
        case Torn => Replay([], [], valid, true)
        case Damaged(reason, skip) =>
          var rest := ReplayFrom(data[offset + skip..], offset + skip, false, valid);
          rest.(corruptions := [Corruption(offset, reason)] + rest.corruptions)
        case Whole(event, size) =>
          var rest := ReplayFrom(data[offset + size..], offset + size, intact, if intact then offset + size else valid);
          rest.(events := [event] + rest.events)
  {
    hide Inspect;
    match Inspect(data[offset..])
    case Torn =>
    case Damaged(_, skip) => assert data[offset..][skip..] == data[offset + skip..];
    case Whole(_, size) => assert data[offset..][size..] == data[offset + size..];
  }

  lemma Push<T>(a: seq<T>, x: T, b: seq<T>)
    ensures a + ([x] + b) == a + [x] + b
  {
  }

  lemma {:induction false} ReplayEnd(offset: nat, intact: bool, valid: nat)
    ensures ReplayFrom([], offset, intact, valid) == Replay([], [], valid, false)
  {
  }

  lemma MagicStep(data: Bytes, offset: nat, index: nat)
    requires offset <= index <= |data|
    ensures FindMagic(data[offset..], index - offset) ==
            if index + 4 > |data| then |data| - offset
            else if data[index..index + 4] == LittleEndian(MAGIC, 4) then index - offset
            else FindMagic(data[offset..], index + 1 - offset)
  {
    if index + 4 <= |data| {
      assert data[offset..][index - offset..index - offset + 4] == data[index..index + 4];
    }
  }

  /** The search for the next record after damage. */
  method SearchMagic(data: Bytes, offset: nat) returns (index: nat)
    requires offset < |data|
    ensures offset <= index <= |data| && index - offset == FindMagic(data[offset..], 1)
  {
    hide FindMagic;
    index := offset + 1;
    while index + 4 <= |data| && data[index..index + 4] != LittleEndian(MAGIC, 4)
      invariant offset + 1 <= index <= |data|
      invariant FindMagic(data[offset..], index - offset) == FindMagic(data[offset..], 1)
    {
      MagicStep(data, offset, index);
      index := index + 1;
    }
    MagicStep(data, offset, index);
    if index + 4 > |data| {
      index := |data|;
    }
  }

  lemma FieldAt(data: Bytes, offset: nat, at: nat, width: nat)
    requires offset + at + width <= |data|
    ensures Field(data[offset..], at, width) == FromLittleEndian(data[offset + at..offset + at + width])
  {
    assert data[offset..][at..at + width] == data[offset + at..offset + at + width];
  }

  method ReadField(data: Bytes, offset: nat, at: nat, width: nat) returns (value: nat)
    requires offset + at + width <= |data|
    ensures value == Field(data[offset..], at, width)
  {
    hide Field;
    FieldAt(data, offset, at, width);
    value := ReadLittleEndian(data, offset + at, width);
  }

  /** A record whose length is plausible: its checksum and schema decide. */
  method InspectWhole(data: Bytes, offset: nat, size: nat) returns (verdict: Verdict)
    requires MINIMUM_SIZE <= size && offset + size <= |data|
    ensures verdict == InspectSized(data[offset..], size)
  {
    hide Field, Checksum;
    var expected := ReadField(data, offset, size - CHECKSUM_SIZE, CHECKSUM_SIZE);
    var actual := ComputeChecksum(data[offset..offset + size - CHECKSUM_SIZE]);
    assert data[offset..][..size - CHECKSUM_SIZE] == data[offset..offset + size - CHECKSUM_SIZE];
    if actual as int != expected {
      return Damaged(ChecksumMismatch, size);
    }
    var schema := ReadField(data, offset, 4, 2);
    if schema == 0 || schema > CURRENT_SCHEMA {
      return Damaged(SchemaUnsupported, size);
    }
    var kind := ReadField(data, offset, 6, 2);
    var id := ReadField(data, offset, 12, 8);
    var timestamp := ReadField(data, offset, 20, 8);
    assert data[offset..][HEADER_SIZE..size - CHECKSUM_SIZE] == data[offset + HEADER_SIZE..offset + size - CHECKSUM_SIZE];
    return Whole(Event(schema, kind, id, Signed(timestamp), data[offset + HEADER_SIZE..offset + size - CHECKSUM_SIZE]), size);
  }

  /** What lies at an offset: the header checks, then the record itself. */
  method InspectAt(data: Bytes, offset: nat) returns (verdict: Verdict)
    requires offset < |data|
    ensures verdict == Inspect(data[offset..])
  {
    hide Field, FindMagic, InspectSized;
    if |data| - offset < MINIMUM_SIZE {
      return Torn;
    }
    var magic := ReadField(data, offset, 0, 4);
    if magic != MAGIC {
      var next := SearchMagic(data, offset);
      return Damaged(MagicMismatch, next - offset);
    }
    var size := ReadField(data, offset, 8, 4);
    var payloadSize := ReadField(data, offset, 28, 4);
    if size < MINIMUM_SIZE || size > MAXIMUM_SIZE || payloadSize != size - MINIMUM_SIZE {
      var next := SearchMagic(data, offset);
      return Damaged(LengthInvalid, next - offset);
    }
    if |data| - offset < size {
      return Torn;
    }
    verdict := InspectWhole(data, offset, size);
  }

  /** The replay loop; records it cannot use are noted and skipped. */
  method ReplayBytes(data: Bytes) returns (result: Replay)
    ensures result == ReplayAll(data)
  {
    hide Inspect, ReplayFrom;
    var events: seq<Event>, corruptions: seq<Corruption>, valid := [], [], 0;
    var offset, intact := 0, true;
    assert data[0..] == data;
    ghost var rest := ReplayAll(data);
    while offset < |data|
      invariant offset <= |data|
      invariant rest == ReplayFrom(data[offset..], offset, intact, valid)
      invariant ReplayAll(data) == Replay(events + rest.events, corruptions + rest.corruptions, rest.validPrefix, rest.truncated)
      decreases |data| - offset
    {
      ReplayStep(data, offset, intact, valid);
      var verdict := InspectAt(data, offset);
      match verdict
      case Torn =>
        assert events + [] == events && corruptions + [] == corruptions;
        return Replay(events, corruptions, valid, true);
      case Damaged(reason, skip) =>
        rest := ReplayFrom(data[offset + skip..], offset + skip, false, valid);
        Push(corruptions, Corruption(offset, reason), rest.corruptions);
        corruptions := corruptions + [Corruption(offset, reason)];
        intact := false;
        offset := offset + skip;
      case Whole(event, size) =>
        rest := ReplayFrom(data[offset + size..], offset + size, intact, if intact then offset + size else valid);
        Push(events, event, rest.events);
        events := events + [event];
        offset := offset + size;
        if intact {
          valid := offset;
        }
    }
    assert data[offset..] == [];
    ReplayEnd(offset, intact, valid);
    assert events + [] == events && corruptions + [] == corruptions;
    return Replay(events, corruptions, valid, false);
  }

  /** The fixed-width fields fit; only a payload can be too large. */
  predicate FieldsFit(e: Event) {
    && e.schema < 0x1_0000 && e.kind < 0x1_0000 && e.id < 0x1_0000_0000_0000_0000
    && -0x8000_0000_0000_0000 <= e.timestamp < 0x8000_0000_0000_0000
  }

  method WriteFront(e: Event) returns (output: Bytes)
    requires FieldsFit(e)
    ensures output == Front(e)
  {
    hide LittleEndian;
    output := AppendLittleEndian([], MAGIC, 4);
    output := AppendLittleEndian(output, e.schema, 2);
    output := AppendLittleEndian(output, e.kind, 2);
    output := AppendLittleEndian(output, MINIMUM_SIZE + |e.payload|, 4);
  }

  method WriteMiddle(front: Bytes, e: Event) returns (output: Bytes)
    requires Encodable(e)
    ensures output == front + Middle(e)
  {
    hide LittleEndian, Unsigned;
    var id := AppendLittleEndian(front, e.id, 8);
    var timestamp := AppendLittleEndian(id, Unsigned(e.timestamp), 8);
    output := AppendLittleEndian(timestamp, |e.payload|, 4);
    assert output == front + (LittleEndian(e.id, 8) + LittleEndian(Unsigned(e.timestamp), 8) + LittleEndian(|e.payload|, 4));
  }

  /** The writer of a record, field by field, with its checksum last; oversized payloads are refused. */
  method WriteRecord(e: Event) returns (record: Option<Bytes>)
    requires FieldsFit(e)
    ensures Encodable(e) <==> record.Some?
    ensures Encodable(e) ==> record == Some(Serialize(e))
  {
    if |e.payload| > MAXIMUM_SIZE - MINIMUM_SIZE {
      return None;
    }
    hide LittleEndian, Front, Middle, Checksum;
    var front := WriteFront(e);
    var header := WriteMiddle(front, e);
    var output := header + e.payload;
    var sum := ComputeChecksum(output);
    var whole := AppendLittleEndian(output, sum as int, 4);
    return Some(whole);
  }

  class EventLog {
    var file: Bytes
    var nextId: nat

    /** Opening a log replays it for the next id. */
    constructor (contents: Bytes)
      ensures file == contents && nextId == NextId(ReplayAll(contents).events)
    {
      file := contents;
      nextId := 1;
      new;
      hide ReplayFrom;
      var state := ReplayBytes(file);
      for i := 0 to |state.events|
        invariant file == contents && nextId == NextId(state.events[..i])
      {
        assert state.events[..i + 1][..i] == state.events[..i];
        if state.events[i].id + 1 > nextId {
          nextId := state.events[i].id + 1;
        }
      }
      assert state.events[..|state.events|] == state.events;
    }

    /** Appends one record under the next id; an oversized payload is rejected and nothing changes. */
    method Append(kind: nat, payload: Bytes, timestamp: int) returns (event: Option<Event>)
      requires kind < 0x1_0000 && nextId < 0x1_0000_0000_0000_0000
      requires -0x8000_0000_0000_0000 <= timestamp < 0x8000_0000_0000_0000
      modifies this
      ensures
        var e := Event(CURRENT_SCHEMA, kind, old(nextId), timestamp, payload);
        if Encodable(e) then event == Some(e) && file == old(file) + Serialize(e) && nextId == old(nextId) + 1
        else event == None && file == old(file) && nextId == old(nextId)
    {
      var e := Event(CURRENT_SCHEMA, kind, nextId, timestamp, payload);
      var record := WriteRecord(e);
      if record.None? {
        return None;
      }
      file := file + record.value;
      nextId := nextId + 1;
      return Some(e);
    }

    method ReplayLog() returns (result: Replay)
      ensures result == ReplayAll(file)
    {
      result := ReplayBytes(file);
    }

    /** Cuts a torn tail off a log that is otherwise intact. */
    method RecoverTrailingRecord() returns (recovered: bool)
      modifies this`file
      ensures recovered <==> old(ReplayAll(file)).truncated && old(ReplayAll(file)).corruptions == []
      ensures old(ReplayAll(file)).validPrefix <= |old(file)|
      ensures file == if recovered then old(file)[..old(ReplayAll(file)).validPrefix] else old(file)
    {
      var result := ReplayBytes(file);
      ReplayCanonical(file);
      hide ReplayFrom;
      if !result.truncated || result.corruptions != [] {
        return false;
      }
      file := file[..result.validPrefix];
      return true;
    }

    /** Rewrites the log with what the reverse scan keeps, upgraded, plus its own markers; an invalid
        log, or an event too large to write, is refused and nothing changes. */
    method Compact(decode: Decoder, notes: Notes) returns (count: Option<nat>)
      requires nextId < 0xffff_ffff_ffff_fffe
      requires -0x8000_0000_0000_0000 <= notes.migratedAt < 0x8000_0000_0000_0000
      requires -0x8000_0000_0000_0000 <= notes.compactedAt < 0x8000_0000_0000_0000
      modifies this
      ensures
        var state := old(ReplayAll(file));
        var events := CompactedEvents(state.events, decode, old(nextId), notes);
        if IsIntact(state) && AllEncodable(events) then
          count == Some(|events|) && file == SerializeAll(events) && nextId == NextAfterCompaction(state.events, old(nextId))
        else count == None && file == old(file) && nextId == old(nextId)
    {
      hide Inspect, ReplayFrom, Retained, Serialize;
      var state := ReplayBytes(file);
      if state.corruptions != [] || state.truncated {
        return None;
      }
      IntactExactly(file);
      var retained := RetainReverse(state.events, decode);
      var legacy := exists e | e in state.events :: e.schema < CURRENT_SCHEMA;
      var nextNew := nextId;
      if legacy {
        retained := retained + [Event(CURRENT_SCHEMA, SCHEMA_MIGRATED, nextNew, notes.migratedAt, notes.migrated)];
        nextNew := nextNew + 1;
      }
      retained := retained + [Event(CURRENT_SCHEMA, LOG_COMPACTED, nextNew, notes.compactedAt, notes.compacted)];
      assert retained == Retained(state.events, decode) + Markers(HasLegacySchema(state.events), nextId, notes);
      RetainedFields(state.events, decode, nextId, notes);
      var temporary := WriteAll(retained);
      if temporary.None? {
        return None;
      }
      SerializedReplays(Upgraded(retained));
      var verified := ReplayBytes(temporary.value);
      if verified.corruptions != [] || verified.truncated || |verified.events| != |retained| {
        assert false;
      }
      file := temporary.value;
      nextId := nextNew + 1;
      return Some(|retained|);
    }
  }

  lemma {:induction false} RetainedIn(events: seq<Event>, decode: Decoder, e: Event)
    ensures e in Retained(events, decode) ==> e in events
  {
    hide Compaction.Dropped, Typed;
    if events != [] {
      RetainedIn(events[1..], decode, e);
    }
  }

  lemma {:induction false} RetainedFields(events: seq<Event>, decode: Decoder, nextId: nat, notes: Notes)
    requires AllEncodable(events) && nextId < 0xffff_ffff_ffff_fffe
    requires -0x8000_0000_0000_0000 <= notes.migratedAt < 0x8000_0000_0000_0000
    requires -0x8000_0000_0000_0000 <= notes.compactedAt < 0x8000_0000_0000_0000
    ensures forall e :: e in Retained(events, decode) + Markers(HasLegacySchema(events), nextId, notes) ==> FieldsFit(e)
  {
    forall e | e in Retained(events, decode) + Markers(HasLegacySchema(events), nextId, notes)
      ensures FieldsFit(e)
    {
      RetainedIn(events, decode, e);
    }
  }

  /** The loop that writes the compacted file, upgrading each event to the current schema. */
  method WriteAll(events: seq<Event>) returns (file: Option<Bytes>)
    requires forall e :: e in events ==> FieldsFit(e)
    ensures file.Some? <==> AllEncodable(Upgraded(events))
    ensures file.Some? ==> file.value == SerializeAll(Upgraded(events))
  {
    hide Serialize;
    var output: Bytes := [];
    for i := 0 to |events|
      invariant AllEncodable(Upgraded(events[..i])) && output == SerializeAll(Upgraded(events[..i]))
    {
      assert events[i] in events;
      var e := events[i].(schema := CURRENT_SCHEMA);
      UpgradedStep(events, i);
      var record := WriteRecord(e);
      if record.None? {
        assert Upgraded(events)[i] == e && e in Upgraded(events);
        return None;
      }
      SerializeAppend(Upgraded(events[..i]), e);
      output := output + record.value;
    }
    assert events[..|events|] == events;
    return Some(output);
  }

  lemma {:induction false} SerializeAppend(events: seq<Event>, e: Event)
    requires AllEncodable(events) && Encodable(e) && Supported(e)
    ensures AllEncodable(events + [e]) && SerializeAll(events + [e]) == SerializeAll(events) + Serialize(e)
  {
    hide Serialize, Encodable, Supported;
    if events == [] {
      assert events + [e] == [e] && [e][1..] == [];
    } else {
      assert events[0] in events;
      assert (events + [e])[1..] == events[1..] + [e];
      SerializeAppend(events[1..], e);
    }
  }
}
