/** The layout of a record, told by the place of each field: whole numbers lowest byte first, their value the sum of
    the bytes by the powers of 256 they stand at. */
module RecordLayout {
  import opened Bytes
  import opened Crc32
  import opened Records

  /** The value of bytes, the last one the highest. */
  function Weighed(bytes: Bytes): nat {
    var last: int := |bytes| - 1;
    if last < 0 then 0 else Weighed(bytes[..last]) + bytes[last] * Pow256(last)
  }

  lemma {:induction false} WeighedFirst(bytes: Bytes)
    requires bytes != []
    ensures Weighed(bytes) == bytes[0] + 256 * Weighed(bytes[1..])
  {
    var last := |bytes| - 1;
    if last > 0 {
      WeighedFirst(bytes[..last]);
      assert bytes[..last][1..] == bytes[1..][..last - 1];
      assert bytes[last] * Pow256(last) == 256 * (bytes[last] * Pow256(last - 1));
    }
  }

  lemma {:induction false} WeighedReads(bytes: Bytes)
    ensures FromLittleEndian(bytes) == Weighed(bytes)
  {
    if bytes != [] {
      WeighedFirst(bytes);
      WeighedReads(bytes[1..]);
    }
  }

  /** Of so many bytes, those written for a fitting value are the ones of that value. */
  lemma WeighedExact(bytes: Bytes, value: nat)
    requires value < Pow256(|bytes|)
    ensures bytes == LittleEndian(value, |bytes|) <==> Weighed(bytes) == value
  {
    WeighedReads(bytes);
    LittleEndianReads(value, |bytes|);
    LittleEndianWrites(bytes);
  }

  /** "PCTE". */
  const MARK: Bytes := [0x50, 0x43, 0x54, 0x45]

  /** The bytes are laid out as a record of the event. */
  predicate LaidOut(s: Bytes, e: Event) {
    var end: int := |s| - 4;
    && end >= 32 && s[..4] == MARK
    && Weighed(s[4..6]) == e.schema && Weighed(s[6..8]) == e.kind && Weighed(s[8..12]) == |s|
    && Weighed(s[12..20]) == e.id && Weighed(s[20..28]) == e.timestamp % 0x1_0000_0000_0000_0000
    && Weighed(s[28..32]) == |e.payload| && s[32..end] == e.payload
    && Weighed(s[end..]) == Checksum(s[..end]) as int
  }

  /** The parts of a record in their order. */
  lemma Parts(s: Bytes, a: Bytes, b: Bytes, c: Bytes, d: Bytes)
    requires |a| == 4 && |b| == 2 && |c| == 2 && |d| == 4
    ensures s == a + b + c + d <==> |s| == 12 && s[..4] == a && s[4..6] == b && s[6..8] == c && s[8..12] == d
  {
    if |s| == 12 {
      assert s == s[..4] + s[4..6] + s[6..8] + s[8..12];
    }
  }

  lemma Middles(s: Bytes, a: Bytes, b: Bytes, c: Bytes)
    requires |a| == 8 && |b| == 8 && |c| == 4
    ensures s == a + b + c <==> |s| == 20 && s[..8] == a && s[8..16] == b && s[16..20] == c
  {
    if |s| == 20 {
      assert s == s[..8] + s[8..16] + s[16..20];
    }
  }

  lemma Wholes(s: Bytes, a: Bytes, b: Bytes, c: Bytes, d: Bytes)
    requires |a| == 12 && |b| == 20 && |d| == 4
    ensures s == a + b + c + d <==> |s| == 36 + |c| && s[..12] == a && s[12..32] == b && s[32..|s| - 4] == c && s[|s| - 4..] == d
  {
    if |s| == 36 + |c| {
      assert s == s[..12] + s[12..32] + s[32..|s| - 4] + s[|s| - 4..];
    }
  }

  lemma MarkWritten()
    ensures LittleEndian(MAGIC, 4) == MARK
  {
    PowersOf256();
    WeighedExact(MARK, MAGIC);
    assert Pow256(1) == 256 && Pow256(3) == 0x1_00_0000;
    assert MARK[..3][..2][..1] == [0x50] && MARK[..3][..2] == [0x50, 0x43] && MARK[..3] == [0x50, 0x43, 0x54];
    assert Weighed([0x50]) == 0x50;
  }

  lemma FrontExact(s: Bytes, e: Event)
    requires |s| == 12 && Encodable(e)
    ensures s == Front(e) <==>
            s[..4] == MARK && Weighed(s[4..6]) == e.schema && Weighed(s[6..8]) == e.kind && Weighed(s[8..12]) == 36 + |e.payload|
  {
    hide LittleEndian, Weighed, Pow256;
    PowersOf256();
    MarkWritten();
    WeighedExact(s[4..6], e.schema);
    WeighedExact(s[6..8], e.kind);
    WeighedExact(s[8..12], 36 + |e.payload|);
    Parts(s, MARK, LittleEndian(e.schema, 2), LittleEndian(e.kind, 2), LittleEndian(36 + |e.payload|, 4));
  }

  lemma MiddleExact(s: Bytes, e: Event)
    requires |s| == 20 && Encodable(e)
    ensures s == Middle(e) <==>
            && Weighed(s[..8]) == e.id && Weighed(s[8..16]) == e.timestamp % 0x1_0000_0000_0000_0000
            && Weighed(s[16..20]) == |e.payload|
  {
    hide LittleEndian, Weighed, Pow256;
    PowersOf256();
    assert Unsigned(e.timestamp) == e.timestamp % 0x1_0000_0000_0000_0000;
    WeighedExact(s[..8], e.id);
    WeighedExact(s[8..16], Unsigned(e.timestamp));
    WeighedExact(s[16..20], |e.payload|);
    Middles(s, LittleEndian(e.id, 8), LittleEndian(Unsigned(e.timestamp), 8), LittleEndian(|e.payload|, 4));
  }

  lemma Nested(s: Bytes, a: nat, b: nat, from: nat, to: nat)
    requires a <= b <= |s| && from <= to <= b - a
    ensures s[a..b][from..to] == s[a + from..a + to]
  {
    assert forall k :: from <= k < to ==> s[a..b][k] == s[a + k];
    var x, y := s[a..b][from..to], s[a + from..a + to];
    assert forall k :: 0 <= k < to - from ==> x[k] == s[a..b][from + k] && y[k] == s[a + from + k];
  }

  lemma Within(s: Bytes)
    requires |s| >= 36
    ensures s[..12][..4] == s[..4] && s[..12][4..6] == s[4..6] && s[..12][6..8] == s[6..8] && s[..12][8..12] == s[8..12]
    ensures s[12..32][..8] == s[12..20] && s[12..32][8..16] == s[20..28] && s[12..32][16..20] == s[28..32]
  {
    Nested(s, 12, 32, 0, 8);
    Nested(s, 12, 32, 8, 16);
    Nested(s, 12, 32, 16, 20);
  }

  lemma SumExact(s: Bytes, sum: bv32)
    requires |s| == 4
    ensures s == LittleEndian(sum as int, 4) <==> Weighed(s) == sum as int
  {
    PowersOf256();
    WeighedExact(s, sum as int);
  }

  /** The bytes written for an event are the one text laid out as its record. */
  lemma LayoutExact(s: Bytes, e: Event)
    requires Encodable(e)
    ensures s == Serialize(e) <==> LaidOut(s, e)
  {
    hide LittleEndian, Weighed, Pow256, Checksum, Front, Middle, Unsigned;
    if |s| == 36 + |e.payload| {
      var end := |s| - 4;
      FrontExact(s[..12], e);
      MiddleExact(s[12..32], e);
      Within(s);
      SumExact(s[end..], Checksum(s[..end]));
      Wholes(s, Front(e), Middle(e), e.payload, LittleEndian(Checksum(Covered(e)) as int, 4));
      assert s[..end] == s[..12] + s[12..32] + s[32..end];
    }
  }

  // ----- what bytes that are no record are -----

  predicate Marked(s: Bytes, at: nat) {
    at + 4 <= |s| && s[at..at + 4] == MARK
  }

  /** The first place from the second byte on where a mark stands, or the end. */
  predicate IsNextMark(s: Bytes, at: nat) {
    1 <= at <= |s| && (at < |s| ==> Marked(s, at)) && forall i :: 1 <= i < at ==> !Marked(s, i)
  }

  lemma {:induction false} NextMark(s: Bytes, start: nat)
    requires start <= |s|
    ensures
      var at := FindMagic(s, start);
      (at < |s| ==> Marked(s, at)) && forall i :: start <= i < at ==> !Marked(s, i)
    decreases |s| - start
  {
    MarkWritten();
    hide LittleEndian;
    if start + 4 <= |s| {
      NextMark(s, start + 1);
    }
  }

  lemma FieldWeighed(s: Bytes, at: nat, width: nat)
    requires at + width <= |s|
    ensures Field(s, at, width) == Weighed(s[at..at + width])
  {
    WeighedReads(s[at..at + width]);
  }

  lemma MagicMarked(s: Bytes)
    requires |s| >= 36
    ensures Field(s, 0, 4) == MAGIC <==> Marked(s, 0)
  {
    hide LittleEndian, Weighed, Pow256;
    PowersOf256();
    FieldWeighed(s, 0, 4);
    MarkWritten();
    WeighedExact(s[0..4], MAGIC);
  }

  /** A record's first fault, and where the search goes on: bytes too few for a record, or for the one they claim
      under a mark and two lengths that agree, are torn; without the mark or such lengths the search goes on at the next
      mark; a wrong sum or an unknown schema loses the bytes claimed. */
  lemma FaultsExact(s: Bytes)
    requires s != []
    ensures
      var v, claimed := Inspect(s), if |s| >= 36 then Weighed(s[8..12]) else 0;
      var plausible := |s| >= 36 && 36 <= claimed <= 0x100_0000 && Weighed(s[28..32]) == claimed - 36;
      var whole := |s| >= 36 && Marked(s, 0) && plausible && claimed <= |s|;
      var summed := whole && Weighed(s[claimed - 4..claimed]) == Checksum(s[..claimed - 4]) as int;
      && (v.Torn? <==> |s| < 36 || (Marked(s, 0) && plausible && |s| < claimed))
      && (v.Damaged? && v.reason.MagicMismatch? <==> |s| >= 36 && !Marked(s, 0))
      && (v.Damaged? && v.reason.LengthInvalid? <==> |s| >= 36 && Marked(s, 0) && !plausible)
      && (v.Damaged? && v.reason.ChecksumMismatch? <==> whole && !summed)
      && (v.Damaged? && v.reason.SchemaUnsupported? <==> summed && Weighed(s[4..6]) !in {1, 2})
      && (v.Damaged? ==> if whole then v.skip == claimed else IsNextMark(s, v.skip))
  {
    hide Weighed, Checksum, FindMagic, FromLittleEndian, Marked;
    NextMark(s, 1);
    if |s| >= 36 {
      MagicMarked(s);
      FieldWeighed(s, 8, 4);
      FieldWeighed(s, 28, 4);
      FieldWeighed(s, 4, 2);
      var claimed := Field(s, 8, 4);
      if 36 <= claimed <= |s| {
        FieldWeighed(s, claimed - 4, 4);
      }
      hide Field;
    }
  }
}
