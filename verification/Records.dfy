/** The record codec of the event log: layout, checksum, and the replay of a byte string. */
module Records {
  import opened Bytes
  import opened Crc32

  const MAGIC: nat := 0x4554_4350
  const HEADER_SIZE := 32
  const CHECKSUM_SIZE := 4
  const MINIMUM_SIZE := HEADER_SIZE + CHECKSUM_SIZE
  const MAXIMUM_SIZE := 16 * 1024 * 1024
  const CURRENT_SCHEMA := 2

  datatype Event = Event(schema: nat, kind: nat, id: nat, timestamp: int, payload: Bytes)

  /** The field widths of the record layout, and the payload limit. */
  predicate Encodable(e: Event) {
    && e.schema < 0x1_0000 && e.kind < 0x1_0000 && e.id < 0x1_0000_0000_0000_0000
    && -0x8000_0000_0000_0000 <= e.timestamp < 0x8000_0000_0000_0000
    && |e.payload| <= MAXIMUM_SIZE - MINIMUM_SIZE
  }

  predicate Supported(e: Event) {
    0 < e.schema <= CURRENT_SCHEMA
  }

  /** The two's complement of a signed 64-bit number, and back. */
  function Unsigned(n: int): (u: nat)
    requires -0x8000_0000_0000_0000 <= n < 0x8000_0000_0000_0000
    ensures u < 0x1_0000_0000_0000_0000 && Signed(u) == n
  {
    if n < 0 then n + 0x1_0000_0000_0000_0000 else n
  }

  function Signed(u: nat): int {
    if u >= 0x8000_0000_0000_0000 then u - 0x1_0000_0000_0000_0000 else u
  }

  // ----- writing -----

  function Front(e: Event): (bytes: Bytes)
    ensures |bytes| == 12
  {
    LittleEndian(MAGIC, 4) + LittleEndian(e.schema, 2) + LittleEndian(e.kind, 2) +
    LittleEndian(MINIMUM_SIZE + |e.payload|, 4)
  }

  function Middle(e: Event): (bytes: Bytes)
    requires Encodable(e)
    ensures |bytes| == 20
  {
    LittleEndian(e.id, 8) + LittleEndian(Unsigned(e.timestamp), 8) + LittleEndian(|e.payload|, 4)
  }

  /** Everything the checksum covers. */
  function Covered(e: Event): (bytes: Bytes)
    requires Encodable(e)
    ensures |bytes| == HEADER_SIZE + |e.payload|
  {
    Front(e) + Middle(e) + e.payload
  }

  function Serialize(e: Event): (bytes: Bytes)
    requires Encodable(e)
    ensures |bytes| == MINIMUM_SIZE + |e.payload|
  {
    Covered(e) + LittleEndian(Checksum(Covered(e)) as int, 4)
  }

  predicate AllEncodable(events: seq<Event>) {
    forall e :: e in events ==> Encodable(e) && Supported(e)
  }

  function SerializeAll(events: seq<Event>): Bytes
    requires AllEncodable(events)
  {
    if events == [] then []
    else
      assert events[0] in events;
      Serialize(events[0]) + SerializeAll(events[1..])
  }

  // ----- reading -----

  function Field(s: Bytes, at: nat, width: nat): nat
    requires at + width <= |s|
  {
    FromLittleEndian(s[at..at + width])
  }

  /** The next place the magic occurs, or the end. */
  function FindMagic(s: Bytes, start: nat): (index: nat)
    requires start <= |s|
    ensures start <= index <= |s|
    decreases |s| - start
  {
    if start + 4 > |s| then |s|
    else if s[start..start + 4] == LittleEndian(MAGIC, 4) then start
    else FindMagic(s, start + 1)
  }

  datatype Reason = MagicMismatch | LengthInvalid | ChecksumMismatch | SchemaUnsupported

  datatype Verdict = Torn | Damaged(reason: Reason, skip: nat) | Whole(event: Event, size: nat)

  function EventAt(s: Bytes, size: nat): Event
    requires MINIMUM_SIZE <= size <= |s|
  {
    Event(Field(s, 4, 2), Field(s, 6, 2), Field(s, 12, 8), Signed(Field(s, 20, 8)),
          s[HEADER_SIZE..size - CHECKSUM_SIZE])
  }

  /** A record of plausible length is whole, or fails its checksum or schema. */
  function InspectSized(s: Bytes, size: nat): (v: Verdict)
    requires MINIMUM_SIZE <= size <= |s|
    ensures v.Whole? ==> v.size == size
    ensures v.Damaged? ==> v.skip == size
    ensures !v.Torn?
  {
    if Checksum(s[..size - CHECKSUM_SIZE]) as int != Field(s, size - CHECKSUM_SIZE, CHECKSUM_SIZE) then Damaged(ChecksumMismatch, size)
    else if Field(s, 4, 2) == 0 || Field(s, 4, 2) > CURRENT_SCHEMA then Damaged(SchemaUnsupported, size)
    else Whole(EventAt(s, size), size)
  }

  /** What the bytes at the current offset are. */
  function Inspect(s: Bytes): (v: Verdict)
    requires s != []
    ensures v.Whole? ==> MINIMUM_SIZE <= v.size <= |s|
    ensures v.Damaged? ==> 0 < v.skip <= |s|
  {
    if |s| < MINIMUM_SIZE then Torn
    else if Field(s, 0, 4) != MAGIC then Damaged(MagicMismatch, FindMagic(s, 1))
    else
      var size := Field(s, 8, 4);
      if size < MINIMUM_SIZE || size > MAXIMUM_SIZE || Field(s, 28, 4) != size - MINIMUM_SIZE then
        Damaged(LengthInvalid, FindMagic(s, 1))
      else if |s| < size then Torn
      else InspectSized(s, size)
  }

  datatype Corruption = Corruption(offset: nat, reason: Reason)

  datatype Replay = Replay(events: seq<Event>, corruptions: seq<Corruption>, validPrefix: nat, truncated: bool)

  /** Replay from an offset, given whether everything before it was intact and the valid prefix so far. */
  function ReplayFrom(s: Bytes, offset: nat, intact: bool, valid: nat): Replay
    decreases |s|
  {
    if s == [] then Replay([], [], valid, false)
    else
      match Inspect(s)
      case Torn => Replay([], [], valid, true)
      case Damaged(reason, skip) =>
        var rest := ReplayFrom(s[skip..], offset + skip, false, valid);
        rest.(corruptions := [Corruption(offset, reason)] + rest.corruptions)
      case Whole(event, size) =>
        var rest := ReplayFrom(s[size..], offset + size, intact, if intact then offset + size else valid);
        rest.(events := [event] + rest.events)
  }

  function ReplayAll(s: Bytes): Replay {
    ReplayFrom(s, 0, true, 0)
  }

  /** The events before the first fault. */
  function IntactEvents(s: Bytes): seq<Event>
    decreases |s|
  {
    if s == [] then []
    else
      match Inspect(s)
      case Whole(event, size) => [event] + IntactEvents(s[size..])
      case _ => []
  }

  // ----- the fields of a written record -----

  lemma FrontFields(e: Event, rest: Bytes)
    requires Encodable(e)
    ensures
      var s := Front(e) + rest;
      s[0..4] == LittleEndian(MAGIC, 4) && s[4..6] == LittleEndian(e.schema, 2) && s[6..8] == LittleEndian(e.kind, 2) &&
      s[8..12] == LittleEndian(MINIMUM_SIZE + |e.payload|, 4)
  {
    hide LittleEndian;
  }

  lemma MiddleFields(e: Event, rest: Bytes)
    requires Encodable(e)
    ensures
      var s := Front(e) + (Middle(e) + rest);
      s[12..20] == LittleEndian(e.id, 8) && s[20..28] == LittleEndian(Unsigned(e.timestamp), 8) &&
      s[28..32] == LittleEndian(|e.payload|, 4)
  {
    hide LittleEndian, Unsigned, Front;
  }

  /** Every field of a written record, whatever follows it. */
  lemma RecordFields(e: Event, rest: Bytes)
    requires Encodable(e)
    ensures
      var s := Serialize(e) + rest;
      var size := MINIMUM_SIZE + |e.payload|;
      && |s| >= size && Field(s, 0, 4) == MAGIC && Field(s, 4, 2) == e.schema && Field(s, 6, 2) == e.kind
      && Field(s, 8, 4) == size && Field(s, 12, 8) == e.id && Signed(Field(s, 20, 8)) == e.timestamp
      && Field(s, 28, 4) == |e.payload| && s[HEADER_SIZE..size - CHECKSUM_SIZE] == e.payload
      && s[..size - CHECKSUM_SIZE] == Covered(e)
      && s[size - CHECKSUM_SIZE..size] == LittleEndian(Checksum(Covered(e)) as int, 4)
  {
    hide LittleEndian, FromLittleEndian, Front, Middle, Checksum, Unsigned, Signed, Pow256;
    PowersOf256();
    var sum := LittleEndian(Checksum(Covered(e)) as int, 4);
    var s := Serialize(e) + rest;
    assert s == Front(e) + (Middle(e) + (e.payload + sum + rest));
    FrontFields(e, Middle(e) + (e.payload + sum + rest));
    MiddleFields(e, e.payload + sum + rest);
    LittleEndianReads(MAGIC, 4);
    LittleEndianReads(e.schema, 2);
    LittleEndianReads(e.kind, 2);
    LittleEndianReads(MINIMUM_SIZE + |e.payload|, 4);
    LittleEndianReads(e.id, 8);
    LittleEndianReads(Unsigned(e.timestamp), 8);
    LittleEndianReads(|e.payload|, 4);
  }

  /** A written record is read back whole. */
  lemma SerializedInspects(e: Event, rest: Bytes)
    requires Encodable(e) && Supported(e)
    ensures Inspect(Serialize(e) + rest) == Whole(e, MINIMUM_SIZE + |e.payload|)
  {
    hide LittleEndian, FromLittleEndian, Serialize, Covered, Checksum, Signed, FindMagic;
    RecordFields(e, rest);
    PowersOf256();
    LittleEndianReads(Checksum(Covered(e)) as int, 4);
  }
}
