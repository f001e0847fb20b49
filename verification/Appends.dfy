/** What an appended record is to the next replay, whatever the bytes before it: read again behind every log
    that is not torn, damaged or not, and caught by a torn tail whose header claims it. */
module Appends {
  import opened Bytes
  import opened Crc32
  import opened Records
  import opened ReplayProofs

  // ----- what a replay reads, wherever it starts -----

  function Read(s: Bytes): seq<Event>
    decreases |s|
  {
    if s == [] then []
    else
      match Inspect(s)
      case Torn => []
      case Damaged(_, skip) => Read(s[skip..])
      case Whole(event, size) => [event] + Read(s[size..])
  }

  /** The bytes replay stops at: a torn record, or nothing. */
  function Tail(s: Bytes): (tail: Bytes)
    ensures |tail| <= |s|
    ensures tail != [] ==> Inspect(tail).Torn?
    decreases |s|
  {
    if s == [] then []
    else
      match Inspect(s)
      case Torn => s
      case Damaged(_, skip) => Tail(s[skip..])
      case Whole(_, size) => Tail(s[size..])
  }

  lemma {:induction false} ReplayReads(s: Bytes, offset: nat, intact: bool, valid: nat)
    ensures ReplayFrom(s, offset, intact, valid).events == Read(s)
    ensures ReplayFrom(s, offset, intact, valid).truncated <==> Tail(s) != []
    decreases |s|
  {
    hide Inspect;
    if s != [] {
      match Inspect(s)
      case Torn =>
      case Damaged(_, skip) => ReplayReads(s[skip..], offset + skip, false, valid);
      case Whole(_, size) => ReplayReads(s[size..], offset + size, intact, if intact then offset + size else valid);
    }
  }

  /** No record read is longer than the bytes. */
  lemma {:induction false} ReadFits(s: Bytes, e: Event)
    requires e in Read(s)
    ensures MINIMUM_SIZE + |e.payload| <= |s|
    decreases |s|
  {
    hide Inspect, Serialize;
    if s != [] {
      match Inspect(s)
      case Torn =>
      case Damaged(_, skip) => ReadFits(s[skip..], e);
      case Whole(event, size) =>
        if e == event {
          WholeCanonical(s);
        } else {
          ReadFits(s[size..], e);
        }
    }
  }

  // ----- the magic does not straddle -----

  lemma MagicBytes()
    ensures LittleEndian(MAGIC, 4) == [0x50, 0x43, 0x54, 0x45]
  {
    assert LittleEndian(0x45, 1) == [0x45];
    assert LittleEndian(0x4554, 2) == [0x54, 0x45];
    assert LittleEndian(0x45_5443, 3) == [0x43, 0x54, 0x45];
  }

  lemma RecordStarts(e: Event)
    requires Encodable(e)
    ensures Serialize(e)[..4] == LittleEndian(MAGIC, 4) && Serialize(e)[0] == 0x50
  {
    hide LittleEndian, Checksum, Middle;
    MagicBytes();
    FrontFields(e, []);
    assert Front(e) + [] == Front(e);
    assert Serialize(e)[..4] == Front(e)[0..4];
  }

  /** The search for the magic finds the same place with a record behind the bytes, or the record itself. */
  lemma {:induction false} MagicFound(s: Bytes, e: Event, start: nat)
    requires Encodable(e) && start <= |s|
    ensures FindMagic(s + Serialize(e), start) == FindMagic(s, start)
    decreases |s| - start
  {
    hide Serialize, LittleEndian;
    var longer := s + Serialize(e);
    RecordStarts(e);
    if start == |s| {
      assert longer[start..start + 4] == Serialize(e)[..4];
    } else if start + 4 > |s| {
      MagicBytes();
      assert longer[start..start + 4][|s| - start] == Serialize(e)[0];
      MagicFound(s, e, start + 1);
    } else {
      assert longer[start..start + 4] == s[start..start + 4];
      MagicFound(s, e, start + 1);
    }
  }

  // ----- a record behind a log that is not torn -----

  lemma FieldKept(s: Bytes, rest: Bytes, at: nat, width: nat)
    requires at + width <= |s|
    ensures Field(s + rest, at, width) == Field(s, at, width)
  {
    hide FromLittleEndian;
    assert (s + rest)[at..at + width] == s[at..at + width];
  }

  lemma SizedKept(s: Bytes, rest: Bytes, size: nat)
    requires MINIMUM_SIZE <= size <= |s|
    ensures InspectSized(s + rest, size) == InspectSized(s, size)
  {
    hide Field, Checksum, Signed;
    FieldKept(s, rest, 4, 2);
    FieldKept(s, rest, 6, 2);
    FieldKept(s, rest, 12, 8);
    FieldKept(s, rest, 20, 8);
    FieldKept(s, rest, size - CHECKSUM_SIZE, CHECKSUM_SIZE);
    assert (s + rest)[..size - CHECKSUM_SIZE] == s[..size - CHECKSUM_SIZE];
    assert (s + rest)[HEADER_SIZE..size - CHECKSUM_SIZE] == s[HEADER_SIZE..size - CHECKSUM_SIZE];
  }

  /** What is not torn is the same with a record behind it. */
  lemma InspectKept(s: Bytes, e: Event)
    requires Encodable(e) && s != [] && !Inspect(s).Torn?
    ensures Inspect(s + Serialize(e)) == Inspect(s)
  {
    hide Field, Serialize, FindMagic, InspectSized;
    FieldKept(s, Serialize(e), 0, 4);
    FieldKept(s, Serialize(e), 8, 4);
    FieldKept(s, Serialize(e), 28, 4);
    MagicFound(s, e, 1);
    var size := Field(s, 8, 4);
    if MINIMUM_SIZE <= size <= |s| {
      SizedKept(s, Serialize(e), size);
    }
  }

  lemma DropKept(s: Bytes, rest: Bytes, n: nat)
    requires n <= |s|
    ensures (s + rest)[n..] == s[n..] + rest
  {
  }

  /** With a record behind it a log reads as it did up to its tail, and then as the tail does. */
  lemma {:induction false} ReadUpToTail(s: Bytes, e: Event)
    requires Encodable(e)
    ensures Read(s + Serialize(e)) == Read(s) + Read(Tail(s) + Serialize(e))
    ensures Tail(s + Serialize(e)) == Tail(Tail(s) + Serialize(e))
    decreases |s|
  {
    hide Inspect, Serialize;
    if s != [] {
      if !Inspect(s).Torn? {
        InspectKept(s, e);
      }
      match Inspect(s)
      case Torn =>
      case Damaged(_, skip) =>
        DropKept(s, Serialize(e), skip);
        ReadUpToTail(s[skip..], e);
      case Whole(event, size) =>
        DropKept(s, Serialize(e), size);
        ReadUpToTail(s[size..], e);
        var rest := Read(Tail(s) + Serialize(e));
        assert [event] + (Read(s[size..]) + rest) == Read(s) + rest;
    }
  }

  lemma {:induction false} RecordReads(e: Event)
    requires Encodable(e) && Supported(e)
    ensures Read(Serialize(e)) == [e] && Tail(Serialize(e)) == []
  {
    hide Inspect, Serialize;
    SerializedInspects(e, []);
    assert Serialize(e) + [] == Serialize(e);
  }

  /** Behind every log that is not torn, damaged or not, an appended record is read after all that was read
      before; nothing is torn or more damaged than it was. */
  lemma {:induction false} AppendReplays(s: Bytes, e: Event)
    requires Encodable(e) && Supported(e) && !ReplayAll(s).truncated
    ensures ReplayAll(s + Serialize(e)).events == ReplayAll(s).events + [e]
    ensures !ReplayAll(s + Serialize(e)).truncated
    ensures ReplayAll(s + Serialize(e)).corruptions == ReplayAll(s).corruptions
  {
    hide ReplayFrom, Read, Tail, Serialize;
    ReplayReads(s, 0, true, 0);
    ReplayReads(s + Serialize(e), 0, true, 0);
    ReadUpToTail(s, e);
    assert [] + Serialize(e) == Serialize(e);
    RecordReads(e);
    CorruptionsKept(s, e, 0, true, 0);
  }

  lemma {:induction false} CorruptionsKept(s: Bytes, e: Event, offset: nat, intact: bool, valid: nat)
    requires Encodable(e) && Supported(e) && !ReplayFrom(s, offset, intact, valid).truncated
    ensures ReplayFrom(s + Serialize(e), offset, intact, valid).corruptions == ReplayFrom(s, offset, intact, valid).corruptions
    decreases |s|
  {
    hide Inspect, Serialize;
    if s == [] {
      WholeStep(e, [], offset, intact, valid);
      assert s + Serialize(e) == Serialize(e) + [];
    } else {
      assert !Inspect(s).Torn?;
      InspectKept(s, e);
      match Inspect(s)
      case Damaged(_, skip) =>
        DropKept(s, Serialize(e), skip);
        CorruptionsKept(s[skip..], e, offset + skip, false, valid);
      case Whole(_, size) =>
        DropKept(s, Serialize(e), size);
        CorruptionsKept(s[size..], e, offset + size, intact, if intact then offset + size else valid);
    }
  }

  /** So do any number of them. */
  lemma {:induction false} AppendsReplay(s: Bytes, events: seq<Event>)
    requires AllEncodable(events) && !ReplayAll(s).truncated
    ensures ReplayAll(s + SerializeAll(events)).events == ReplayAll(s).events + events
    ensures !ReplayAll(s + SerializeAll(events)).truncated
    ensures ReplayAll(s + SerializeAll(events)).corruptions == ReplayAll(s).corruptions
    decreases |events|
  {
    hide ReplayFrom, Serialize, Encodable, Supported;
    if events == [] {
      assert s + SerializeAll(events) == s;
    } else {
      var e, others := events[0], events[1..];
      assert e in events && forall x :: x in others ==> x in events;
      AppendReplays(s, e);
      AppendsReplay(s + Serialize(e), others);
      assert s + SerializeAll(events) == s + Serialize(e) + SerializeAll(others);
      assert ReplayAll(s).events + [e] + others == ReplayAll(s).events + events;
    }
  }

  // ----- a record behind a torn tail -----

  /** The bytes start with a header that claims a record of allowed length. */
  predicate Claims(s: Bytes) {
    && |s| >= MINIMUM_SIZE && Field(s, 0, 4) == MAGIC && MINIMUM_SIZE <= Field(s, 8, 4) <= MAXIMUM_SIZE
    && Field(s, 28, 4) == Field(s, 8, 4) - MINIMUM_SIZE
  }

  /** The part of a torn tail whose header, read on into the appended record, claims that record's bytes;
      nothing if there is none. */
  function Catching(tail: Bytes, e: Event): (part: Bytes)
    requires Encodable(e)
    ensures |part| <= |tail|
    decreases |tail|
  {
    if tail == [] then []
    else if Claims(tail + Serialize(e)) then tail
    else Catching(tail[FindMagic(tail, 1)..], e)
  }

  lemma ShortTorn(s: Bytes)
    requires s != [] && |s| < MINIMUM_SIZE
    ensures Inspect(s).Torn?
  {
  }

  /** A torn tail of a header's length or more claims what follows. */
  lemma LongClaims(tail: Bytes, e: Event)
    requires Encodable(e) && |tail| >= MINIMUM_SIZE && Inspect(tail).Torn?
    ensures Claims(tail + Serialize(e)) && Field(tail + Serialize(e), 8, 4) > |tail|
  {
    hide Field, Serialize, FindMagic, InspectSized;
    FieldKept(tail, Serialize(e), 0, 4);
    FieldKept(tail, Serialize(e), 8, 4);
    FieldKept(tail, Serialize(e), 28, 4);
  }

  lemma Unclaimed(tail: Bytes, e: Event)
    requires Encodable(e) && tail != [] && !Claims(tail + Serialize(e))
    ensures Inspect(tail + Serialize(e)).Damaged? && Inspect(tail + Serialize(e)).skip == FindMagic(tail, 1) <= |tail|
  {
    hide Field, Serialize, FindMagic, InspectSized;
    MagicFound(tail, e, 1);
  }

  /** Behind a torn tail the record and the part of the tail that catches it read as they do alone. */
  lemma {:induction false} ReadCatching(tail: Bytes, e: Event)
    requires Encodable(e) && (tail != [] ==> Inspect(tail).Torn?)
    ensures Read(tail + Serialize(e)) == Read(Catching(tail, e) + Serialize(e))
    ensures Catching(tail, e) != [] ==>
              Inspect(Catching(tail, e)).Torn? && Claims(Catching(tail, e) + Serialize(e))
    decreases |tail|
  {
    hide Inspect, Serialize, Claims, FindMagic;
    if tail != [] && !Claims(tail + Serialize(e)) {
      Unclaimed(tail, e);
      if |tail| >= MINIMUM_SIZE {
        LongClaims(tail, e);
      }
      var n := FindMagic(tail, 1);
      DropKept(tail, Serialize(e), n);
      if n < |tail| {
        ShortTorn(tail[n..]);
        ReadCatching(tail[n..], e);
      } else {
        assert tail[n..] == [];
      }
    }
  }

  /** A record claimed by the bytes in front of it is read only if they and it start with the record itself. */
  lemma {:induction false} CatchingReads(part: Bytes, e: Event)
    requires Encodable(e) && Supported(e) && part != [] && Inspect(part).Torn? && Claims(part + Serialize(e))
    ensures e in Read(part + Serialize(e)) <==> Serialize(e) <= part + Serialize(e)
  {
    hide Serialize, FindMagic, InspectSized, Field;
    var s, size := part + Serialize(e), Field(part + Serialize(e), 8, 4);
    if |part| >= MINIMUM_SIZE {
      LongClaims(part, e);
    }
    assert size > |part|;
    if Serialize(e) <= s {
      SerializedInspects(e, s[|Serialize(e)|..]);
      assert s == Serialize(e) + s[|Serialize(e)|..];
      assert Inspect(s) == Whole(e, MINIMUM_SIZE + |e.payload|);
    } else if size <= |s| {
      if e in Read(s[size..]) {
        ReadFits(s[size..], e);
        assert false;
      }
      if Inspect(s).Whole? {
        WholeCanonical(s);
        assert Serialize(Inspect(s).event) <= s;
      }
    }
  }

  /** The next replay reads an appended record, after all that was read before, if and only if no part of a
      torn tail catches it, or one that reads on as the very record does. */
  lemma {:induction false} AppendSurvives(s: Bytes, e: Event)
    requires Encodable(e) && Supported(e)
    ensures ReplayAll(s).events <= ReplayAll(s + Serialize(e)).events
    ensures
      var part := Catching(Tail(s), e);
      e in ReplayAll(s + Serialize(e)).events[|ReplayAll(s).events|..] <==>
        part == [] || Serialize(e) <= part + Serialize(e)
    ensures Catching(Tail(s), e) == [] ==> ReplayAll(s + Serialize(e)).events == ReplayAll(s).events + [e]
  {
    hide ReplayFrom, Read, Tail, Serialize, Catching, Inspect, Claims;
    var part := Catching(Tail(s), e);
    ReplayReads(s, 0, true, 0);
    ReplayReads(s + Serialize(e), 0, true, 0);
    ReadUpToTail(s, e);
    ReadCatching(Tail(s), e);
    var more := Read(part + Serialize(e));
    assert (Read(s) + more)[|Read(s)|..] == more;
    if part == [] {
      RecordReads(e);
      assert part + Serialize(e) == Serialize(e);
    } else {
      CatchingReads(part, e);
    }
  }

  /** A record torn behind its header loses what is appended, and as much as it still claims leaves the log
      torn: the damage in front of it keeps recovery from cutting it off. */
  lemma {:induction false} TornAppendLost(b: Event, index: nat, changed: byte, e: Event, k: nat, d: Event)
    requires Encodable(b) && Encodable(e) && Encodable(d)
    requires Damageable(b, index) && changed != Serialize(b)[index]
    requires MINIMUM_SIZE <= k && k + |Serialize(d)| < |Serialize(e)|
    ensures
      var s := Serialize(b)[index := changed] + Serialize(e)[..k];
      && ReplayAll(s).truncated && ReplayAll(s).corruptions != []
      && ReplayAll(s).events == [] && ReplayAll(s + Serialize(d)).events == []
      && ReplayAll(s + Serialize(d)).truncated
  {
    hide Serialize, Inspect;
    var damaged, torn := Serialize(b)[index := changed], Serialize(e)[..k];
    var longer := torn + Serialize(d);
    TornTail(e, k);
    ClaimKept(e, k, d);
    DamageThenTorn(b, index, changed, torn);
    DamageThenTorn(b, index, changed, longer);
    assert damaged + torn + Serialize(d) == damaged + longer;
  }

  lemma ClaimKept(e: Event, k: nat, d: Event)
    requires Encodable(e) && Encodable(d) && MINIMUM_SIZE <= k && k + |Serialize(d)| < |Serialize(e)|
    ensures Inspect(Serialize(e)[..k] + Serialize(d)) == Torn
  {
    hide Serialize, Field, FindMagic, InspectSized;
    var s := Serialize(e)[..k] + Serialize(d);
    RecordFields(e, []);
    assert Serialize(e) + [] == Serialize(e);
    HeaderOf(e, k, Serialize(d));
  }

  lemma HeaderOf(e: Event, k: nat, rest: Bytes)
    requires Encodable(e) && MINIMUM_SIZE <= k <= |Serialize(e)|
    ensures
      var s := Serialize(e)[..k] + rest;
      Field(s, 0, 4) == MAGIC && Field(s, 8, 4) == |Serialize(e)| && Field(s, 28, 4) == |e.payload|
  {
    hide Serialize, FromLittleEndian, Checksum, LittleEndian;
    RecordFields(e, []);
    var s, full := Serialize(e)[..k] + rest, Serialize(e) + [];
    assert s[0..4] == full[0..4] && s[8..12] == full[8..12] && s[28..32] == full[28..32];
  }

  lemma {:induction false} DamageThenTorn(b: Event, index: nat, changed: byte, torn: Bytes)
    requires Encodable(b) && Damageable(b, index) && changed != Serialize(b)[index]
    requires torn != [] && Inspect(torn).Torn?
    ensures
      ReplayAll(Serialize(b)[index := changed] + torn) == Replay([], [Corruption(0, ChecksumMismatch)], 0, true)
  {
    hide Serialize, Inspect;
    var size := MINIMUM_SIZE + |b.payload|;
    var damaged := Serialize(b)[index := changed];
    DamageInspects(b, index, changed, torn);
    assert (damaged + torn)[size..] == torn;
    TornLeft(torn, size, false, 0);
  }
}
