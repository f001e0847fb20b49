/** What replay says about any byte string: the encoding is canonical both ways, a torn tail is
    recognised at every byte, and a damaged byte costs exactly one record. */
module ReplayProofs {
  import opened Bytes
  import opened Crc32
  import opened Records

  // ----- written records replay -----

  /** The events in front, then whatever the rest replays to. */
  function Before(events: seq<Event>, rest: Replay): Replay {
    rest.(events := events + rest.events)
  }

  lemma {:induction false} WholeStep(e: Event, rest: Bytes, offset: nat, intact: bool, valid: nat)
    requires Encodable(e) && Supported(e)
    ensures
      var end := offset + MINIMUM_SIZE + |e.payload|;
      ReplayFrom(Serialize(e) + rest, offset, intact, valid) ==
        Before([e], ReplayFrom(rest, end, intact, if intact then end else valid))
  {
    hide Serialize, Inspect;
    SerializedInspects(e, rest);
    assert (Serialize(e) + rest)[|Serialize(e)|..] == rest;
  }

  lemma {:induction false} ReplayConcat(events: seq<Event>, rest: Bytes, offset: nat, intact: bool, valid: nat)
    requires AllEncodable(events)
    ensures
      var end := offset + |SerializeAll(events)|;
      ReplayFrom(SerializeAll(events) + rest, offset, intact, valid) ==
        Before(events, ReplayFrom(rest, end, intact, if intact && events != [] then end else valid))
  {
    hide Serialize, ReplayFrom;
    if events == [] {
      assert SerializeAll(events) + rest == rest;
      assert forall r: Replay :: Before([], r).events == r.events;
    } else {
      var e, others := events[0], events[1..];
      assert e in events;
      var tail := SerializeAll(others) + rest;
      assert SerializeAll(events) + rest == Serialize(e) + tail;
      WholeStep(e, tail, offset, intact, valid);
      var end := offset + MINIMUM_SIZE + |e.payload|;
      ReplayConcat(others, rest, end, intact, if intact then end else valid);
      var after := ReplayFrom(rest, offset + |SerializeAll(events)|, intact,
                              if intact then offset + |SerializeAll(events)| else valid);
      assert [e] + (others + after.events) == events + after.events;
    }
  }

  /** Replaying written events returns exactly those events, with nothing corrupt or truncated. */
  lemma {:induction false} SerializedReplays(events: seq<Event>)
    requires AllEncodable(events)
    ensures ReplayAll(SerializeAll(events)) == Replay(events, [], |SerializeAll(events)|, false)
  {
    hide SerializeAll, ReplayFrom, Encodable, Supported;
    var end := |SerializeAll(events)|;
    NothingSerialized();
    ReplayConcat(events, [], 0, true, 0);
    NothingLeft(end, true, end);
    assert SerializeAll(events) + [] == SerializeAll(events);
    assert events + [] == events;
  }

  lemma NothingSerialized()
    ensures AllEncodable([]) && SerializeAll([]) == []
  {
  }

  lemma {:induction false} NothingLeft(offset: nat, intact: bool, valid: nat)
    ensures ReplayFrom([], offset, intact, valid) == Replay([], [], valid, false)
  {
  }

  lemma {:induction false} TornLeft(s: Bytes, offset: nat, intact: bool, valid: nat)
    requires s != [] && Inspect(s).Torn?
    ensures ReplayFrom(s, offset, intact, valid) == Replay([], [], valid, true)
  {
  }

  /** A record cut short at any byte reads as a torn tail. */
  lemma TornTail(e: Event, k: nat)
    requires Encodable(e) && 0 < k < MINIMUM_SIZE + |e.payload|
    ensures Inspect(Serialize(e)[..k]) == Torn
  {
    hide LittleEndian, FromLittleEndian, Serialize, Covered, Checksum, Signed, FindMagic;
    var s, full := Serialize(e)[..k], Serialize(e);
    RecordFields(e, []);
    assert full + [] == full;
    if k >= MINIMUM_SIZE {
      assert s[0..4] == full[0..4] && s[8..12] == full[8..12] && s[28..32] == full[28..32];
    }
  }

  /** Completed records followed by a torn one: the completed records, and a valid prefix that ends
      exactly where the torn record starts. */
  lemma {:induction false} TornReplay(events: seq<Event>, e: Event, k: nat)
    requires AllEncodable(events) && Encodable(e) && 0 < k < MINIMUM_SIZE + |e.payload|
    ensures ReplayAll(SerializeAll(events) + Serialize(e)[..k]) == Replay(events, [], |SerializeAll(events)|, true)
  {
    hide Inspect, SerializeAll, ReplayFrom, Serialize, Encodable, Supported;
    var torn, end := Serialize(e)[..k], |SerializeAll(events)|;
    TornTail(e, k);
    NothingSerialized();
    ReplayConcat(events, torn, 0, true, 0);
    TornLeft(torn, end, true, end);
    assert events + [] == events;
  }

  // ----- every byte string -----

  lemma EventEncodable(s: Bytes, size: nat)
    requires MINIMUM_SIZE <= size <= |s| && size <= MAXIMUM_SIZE
    ensures Encodable(EventAt(s, size))
  {
    hide FromLittleEndian, Pow256;
    PowersOf256();
  }

  lemma SignedRoundTrip(u: nat)
    requires u < 0x1_0000_0000_0000_0000
    ensures -0x8000_0000_0000_0000 <= Signed(u) < 0x8000_0000_0000_0000 && Unsigned(Signed(u)) == u
  {
  }

  lemma {:induction false} FieldWrites(s: Bytes, at: nat, width: nat)
    requires at + width <= |s|
    ensures LittleEndian(Field(s, at, width), width) == s[at..at + width]
  {
    LittleEndianWrites(s[at..at + width]);
  }

  lemma HeaderCanonical(s: Bytes, size: nat)
    requires MINIMUM_SIZE <= size <= |s| && size <= MAXIMUM_SIZE
    requires Field(s, 0, 4) == MAGIC && Field(s, 8, 4) == size && Field(s, 28, 4) == size - MINIMUM_SIZE
    requires Encodable(EventAt(s, size))
    ensures Front(EventAt(s, size)) == s[..12] && Middle(EventAt(s, size)) == s[12..32]
  {
    hide LittleEndian, FromLittleEndian, Pow256;
    PowersOf256();
    FieldWrites(s, 0, 4);
    FieldWrites(s, 4, 2);
    FieldWrites(s, 6, 2);
    FieldWrites(s, 8, 4);
    FieldWrites(s, 12, 8);
    FieldWrites(s, 20, 8);
    FieldWrites(s, 28, 4);
    SignedRoundTrip(Field(s, 20, 8));
    hide Field, Signed, Unsigned;
    assert s[0..4] + s[4..6] + s[6..8] + s[8..12] == s[..12];
    assert s[12..20] + s[20..28] + s[28..32] == s[12..32];
  }

  /** An accepted record is the serialisation of the event read from it. */
  lemma WholeCanonical(s: Bytes)
    requires s != [] && Inspect(s).Whole?
    ensures
      var v := Inspect(s);
      Encodable(v.event) && Supported(v.event) && Serialize(v.event) == s[..v.size]
  {
    hide LittleEndian, FromLittleEndian, Front, Middle, Checksum, Signed, FindMagic;
    var size := Inspect(s).size;
    var e := EventAt(s, size);
    EventEncodable(s, size);
    HeaderCanonical(s, size);
    assert e.payload == s[HEADER_SIZE..size - CHECKSUM_SIZE];
    assert Covered(e) == s[..size - CHECKSUM_SIZE];
    FieldWrites(s, size - CHECKSUM_SIZE, CHECKSUM_SIZE);
    Split(s, size - CHECKSUM_SIZE, size);
  }

  lemma Split(s: Bytes, a: nat, b: nat)
    requires a <= b <= |s|
    ensures s[..a] + s[a..b] == s[..b]
  {
  }

  lemma {:induction false} IntactEncodable(s: Bytes)
    ensures AllEncodable(IntactEvents(s)) && |SerializeAll(IntactEvents(s))| <= |s|
    ensures SerializeAll(IntactEvents(s)) == s[..|SerializeAll(IntactEvents(s))|]
    decreases |s|
  {
    hide Inspect, Serialize, Encodable, Supported;
    if s != [] && Inspect(s).Whole? {
      WholeCanonical(s);
      var e, size := Inspect(s).event, Inspect(s).size;
      IntactEncodable(s[size..]);
      var others := IntactEvents(s[size..]);
      assert IntactEvents(s) == [e] + others && ([e] + others)[1..] == others;
      var n := |SerializeAll(others)|;
      assert s[..size] + s[size..][..n] == s[..size + n];
    }
  }

  lemma {:induction false} NothingValidOnceFaulty(s: Bytes, offset: nat, valid: nat)
    ensures ReplayFrom(s, offset, false, valid).validPrefix == valid
    decreases |s|
  {
    hide Inspect;
    if s != [] {
      match Inspect(s)
      case Torn =>
      case Damaged(_, skip) => NothingValidOnceFaulty(s[skip..], offset + skip, valid);
      case Whole(_, size) => NothingValidOnceFaulty(s[size..], offset + size, valid);
    }
  }

  /** A whole first record: replay and its intact prefix both start with it. */
  lemma {:induction false} FirstWhole(s: Bytes, offset: nat)
    requires s != [] && Inspect(s).Whole?
    ensures AllEncodable(IntactEvents(s)) && AllEncodable(IntactEvents(s[Inspect(s).size..]))
    ensures
      var (e, size) := (Inspect(s).event, Inspect(s).size);
      var rest := ReplayFrom(s[size..], offset + size, true, offset + size);
      && ReplayFrom(s, offset, true, offset) == rest.(events := [e] + rest.events)
      && IntactEvents(s) == [e] + IntactEvents(s[size..])
      && |SerializeAll(IntactEvents(s))| == size + |SerializeAll(IntactEvents(s[size..]))|
  {
    hide Inspect, Serialize, Encodable, Supported;
    WholeCanonical(s);
    IntactEncodable(s);
    IntactEncodable(s[Inspect(s).size..]);
    assert IntactEvents(s)[1..] == IntactEvents(s[Inspect(s).size..]);
  }

  lemma {:induction false} PrefixReplay(s: Bytes, offset: nat)
    ensures AllEncodable(IntactEvents(s))
    ensures ReplayFrom(s, offset, true, offset).validPrefix == offset + |SerializeAll(IntactEvents(s))|
    ensures IntactEvents(s) <= ReplayFrom(s, offset, true, offset).events
    ensures ReplayFrom(s, offset, true, offset).corruptions == [] ==>
              IntactEvents(s) == ReplayFrom(s, offset, true, offset).events
    ensures ReplayFrom(s, offset, true, offset).corruptions == [] && !ReplayFrom(s, offset, true, offset).truncated ==>
              |SerializeAll(IntactEvents(s))| == |s|
    decreases |s|
  {
    hide Inspect, Serialize;
    IntactEncodable(s);
    if s != [] {
      match Inspect(s)
      case Torn =>
      case Damaged(_, skip) => NothingValidOnceFaulty(s[skip..], offset + skip, offset);
      case Whole(_, size) =>
        FirstWhole(s, offset);
        PrefixReplay(s[size..], offset + size);
        hide ReplayFrom, SerializeAll, IntactEvents, AllEncodable;
    }
  }

  /** For every byte string: the events replayed before the first fault, written again, are exactly
      the first `validPrefix` bytes. */
  lemma {:induction false} ReplayCanonical(s: Bytes)
    ensures IntactEvents(s) <= ReplayAll(s).events && AllEncodable(IntactEvents(s))
    ensures ReplayAll(s).validPrefix <= |s|
    ensures SerializeAll(IntactEvents(s)) == s[..ReplayAll(s).validPrefix]
  {
    hide IntactEvents, SerializeAll, ReplayFrom;
    PrefixReplay(s, 0);
    IntactEncodable(s);
  }

  /** A byte string replays without fault exactly when it is a sequence of written records. */
  lemma {:induction false} IntactExactly(s: Bytes)
    ensures ReplayAll(s).corruptions == [] && !ReplayAll(s).truncated <==>
            AllEncodable(IntactEvents(s)) && s == SerializeAll(IntactEvents(s))
    ensures ReplayAll(s).corruptions == [] && !ReplayAll(s).truncated ==> ReplayAll(s).events == IntactEvents(s)
  {
    hide IntactEvents, SerializeAll, ReplayFrom;
    PrefixReplay(s, 0);
    IntactEncodable(s);
    if AllEncodable(IntactEvents(s)) && s == SerializeAll(IntactEvents(s)) {
      SerializedReplays(IntactEvents(s));
    }
  }

  // ----- damage -----

  /** Bytes outside the magic and the two length fields. */
  predicate Damageable(e: Event, index: nat) {
    && index < MINIMUM_SIZE + |e.payload|
    && (4 <= index < 8 || 12 <= index < 28 || HEADER_SIZE <= index)
  }

  lemma DamagedFields(e: Event, index: nat, changed: byte, rest: Bytes)
    requires Encodable(e) && Damageable(e, index)
    ensures
      var size := MINIMUM_SIZE + |e.payload|;
      var s := Serialize(e)[index := changed] + rest;
      && |s| >= size && Field(s, 0, 4) == MAGIC && Field(s, 8, 4) == size && Field(s, 28, 4) == |e.payload|
  {
    hide LittleEndian, FromLittleEndian, Serialize, Covered, Checksum;
    RecordFields(e, rest);
    var s, full := Serialize(e)[index := changed] + rest, Serialize(e) + rest;
    assert s[0..4] == full[0..4] && s[8..12] == full[8..12] && s[28..32] == full[28..32];
  }

  lemma DamagedChecksum(e: Event, index: nat, changed: byte, rest: Bytes)
    requires Encodable(e) && Damageable(e, index) && changed != Serialize(e)[index]
    ensures
      var size := MINIMUM_SIZE + |e.payload|;
      var s := Serialize(e)[index := changed] + rest;
      |s| >= size && Checksum(s[..size - 4]) as int != Field(s, size - 4, 4)
  {
    hide LittleEndian, FromLittleEndian, Covered, Checksum, Serialize;
    RecordFields(e, rest);
    PowersOf256();
    var size := MINIMUM_SIZE + |e.payload|;
    var s, full := Serialize(e)[index := changed] + rest, Serialize(e) + rest;
    var sum := Checksum(Covered(e));
    LittleEndianReads(sum as int, 4);
    if index < size - 4 {
      assert s[..size - 4] == Covered(e)[index := changed];
      assert s[size - 4..size] == full[size - 4..size];
      ChecksumDetects(Covered(e), index, changed);
      ValuesDiffer(Checksum(s[..size - 4]), sum);
    } else {
      assert s[..size - 4] == full[..size - 4];
      assert s[size - 4..size][index - (size - 4)] != full[size - 4..size][index - (size - 4)];
      LittleEndianWrites(s[size - 4..size]);
    }
  }

  lemma ValuesDiffer(a: bv32, b: bv32)
    requires a != b
    ensures a as int != b as int
  {
    assert (a as int) as bv32 == a && (b as int) as bv32 == b;
  }

  lemma DamageInspects(e: Event, index: nat, changed: byte, rest: Bytes)
    requires Encodable(e) && Damageable(e, index) && changed != Serialize(e)[index]
    ensures Inspect(Serialize(e)[index := changed] + rest) == Damaged(ChecksumMismatch, MINIMUM_SIZE + |e.payload|)
  {
    DamagedFields(e, index, changed, rest);
    DamagedChecksum(e, index, changed, rest);
    hide Serialize, Checksum, Field, Signed;
  }

  /** One changed byte of one record, outside the magic and the lengths: exactly one corruption, at
      that record, and every other event. */
  lemma DamageContained(before: seq<Event>, e: Event, after: seq<Event>, index: nat, changed: byte)
    requires AllEncodable(before) && Encodable(e) && AllEncodable(after)
    requires Damageable(e, index) && changed != Serialize(e)[index]
    ensures
      var start := |SerializeAll(before)|;
      ReplayAll(SerializeAll(before) + (Serialize(e)[index := changed] + SerializeAll(after))) ==
        Replay(before + after, [Corruption(start, ChecksumMismatch)], start, false)
  {
    hide Serialize, Inspect;
    var start := |SerializeAll(before)|;
    var damaged, rest := Serialize(e)[index := changed], SerializeAll(after);
    var size := MINIMUM_SIZE + |e.payload|;
    ReplayConcat(before, damaged + rest, 0, true, 0);
    DamageInspects(e, index, changed, rest);
    assert (damaged + rest)[size..] == rest;
    ReplayConcat(after, [], start + size, false, start);
    NothingLeft(start + size + |rest|, false, start);
    assert before == [] ==> start == 0;
    assert rest + [] == rest && after + [] == after;
    hide SerializeAll;
  }
}
