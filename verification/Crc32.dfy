/** The checksum of a record: the reflected CRC-32 of section 3.2.9 of IEEE 802.3, bit by bit. */
module Crc32 {
  import opened Bytes

  const POLYNOMIAL: bv32 := 0xedb88320

  function Shift(crc: bv32): bv32 {
    (crc >> 1) ^ (if crc & 1 == 1 then POLYNOMIAL else 0)
  }

  function Shifts(crc: bv32, bits: nat): bv32 {
    if bits == 0 then crc else Shift(Shifts(crc, bits - 1))
  }

  function Low(b: byte): bv32 {
    (b as bv8) as bv32
  }

  function Feed(crc: bv32, b: byte): bv32 {
    Shifts(crc ^ Low(b), 8)
  }

  function FeedAll(crc: bv32, data: Bytes): bv32 {
    if data == [] then crc else Feed(FeedAll(crc, data[..|data| - 1]), data[|data| - 1])
  }

  function Checksum(data: Bytes): bv32 {
    !FeedAll(0xffff_ffff, data)
  }

  // ----- every step is injective -----

  /** The polynomial's top bit is set, so the top bit of the result tells which way the step went. */
  lemma ShiftInjective(a: bv32, b: bv32)
    requires Shift(a) == Shift(b)
    ensures a == b
  {
  }

  lemma {:induction false} ShiftsInjective(a: bv32, b: bv32, bits: nat)
    requires Shifts(a, bits) == Shifts(b, bits)
    ensures a == b
  {
    hide Shift;
    if bits > 0 {
      ShiftInjective(Shifts(a, bits - 1), Shifts(b, bits - 1));
      ShiftsInjective(a, b, bits - 1);
    }
  }

  lemma SuccessorBits(x: bv8)
    requires x != 255
    ensures ((x + 1) as int) == (x as int) + 1
  {
  }

  /** The bit vector of a byte, counted up from zero. */
  lemma {:induction false} CountTo(b: byte) returns (x: bv8)
    ensures x as int == b
  {
    if b == 0 {
      x := 0;
    } else {
      var y := CountTo(b - 1);
      SuccessorBits(y);
      x := y + 1;
    }
  }

  lemma ByteBits(b: byte)
    ensures ((b as bv8) as int) == b
  {
    var x := CountTo(b);
    IntRoundTrip(x);
  }

  lemma IntRoundTrip(x: bv8)
    ensures ((x as int) as bv8) == x
  {
  }

  lemma WidenInjective(a: bv8, b: bv8)
    requires a as bv32 == b as bv32
    ensures a == b
  {
  }

  lemma LowInjective(a: byte, b: byte)
    requires Low(a) == Low(b)
    ensures a == b
  {
    ByteBits(a);
    ByteBits(b);
    WidenInjective(a as bv8, b as bv8);
  }

  lemma XorInjective(a: bv32, b: bv32, x: bv32)
    ensures a ^ x == b ^ x ==> a == b
    ensures x ^ a == x ^ b ==> a == b
  {
  }

  lemma FeedInjectiveByte(crc: bv32, a: byte, b: byte)
    requires Feed(crc, a) == Feed(crc, b)
    ensures a == b
  {
    hide Shifts, Low;
    ShiftsInjective(crc ^ Low(a), crc ^ Low(b), 8);
    XorInjective(Low(a), Low(b), crc);
    LowInjective(a, b);
  }

  lemma FeedInjectiveState(a: bv32, b: bv32, x: byte)
    requires Feed(a, x) == Feed(b, x)
    ensures a == b
  {
    hide Shifts, Low;
    ShiftsInjective(a ^ Low(x), b ^ Low(x), 8);
    XorInjective(a, b, Low(x));
  }

  /** One changed byte changes the running value, whatever follows it. */
  lemma {:induction false} FeedAllDetects(crc: bv32, data: Bytes, index: nat, changed: byte)
    requires index < |data| && changed != data[index]
    ensures FeedAll(crc, data[index := changed]) != FeedAll(crc, data)
  {
    hide Feed;
    var last := |data| - 1;
    var damaged := data[index := changed];
    if index == last {
      assert damaged[..last] == data[..last];
      if FeedAll(crc, damaged) == FeedAll(crc, data) {
        FeedInjectiveByte(FeedAll(crc, data[..last]), changed, data[last]);
      }
    } else {
      assert damaged[..last] == data[..last][index := changed];
      FeedAllDetects(crc, data[..last], index, changed);
      if FeedAll(crc, damaged) == FeedAll(crc, data) {
        FeedInjectiveState(FeedAll(crc, damaged[..last]), FeedAll(crc, data[..last]), data[last]);
      }
    }
  }

  /** A single changed byte always changes the checksum. */
  lemma ChecksumDetects(data: Bytes, index: nat, changed: byte)
    requires index < |data| && changed != data[index]
    ensures Checksum(data[index := changed]) != Checksum(data)
  {
    FeedAllDetects(0xffff_ffff, data, index, changed);
    hide FeedAll;
    NotInjective(FeedAll(0xffff_ffff, data[index := changed]), FeedAll(0xffff_ffff, data));
  }

  lemma NotInjective(a: bv32, b: bv32)
    requires a != b
    ensures !a != !b
  {
  }

  method FeedByte(crc: bv32, b: byte) returns (result: bv32)
    ensures result == Feed(crc, b)
  {
    hide Shift, Low;
    result := crc ^ Low(b);
    for bit := 0 to 8
      invariant result == Shifts(crc ^ Low(b), bit)
    {
      result := MaskedShift(result);
    }
  }

  /** One bit: shift, and mix the polynomial in under a mask made from the bit shifted out. */
  method MaskedShift(crc: bv32) returns (result: bv32)
    ensures result == Shift(crc)
  {
    var mask: bv32 := if crc & 1 == 1 then 0xffff_ffff else 0;
    result := (crc >> 1) ^ (POLYNOMIAL & mask);
  }

  method ComputeChecksum(data: Bytes) returns (sum: bv32)
    ensures sum == Checksum(data)
  {
    hide Feed;
    var crc: bv32 := 0xffff_ffff;
    for i := 0 to |data|
      invariant crc == FeedAll(0xffff_ffff, data[..i])
    {
      assert data[..i + 1][..i] == data[..i];
      crc := FeedByte(crc, data[i]);
    }
    assert data[..|data|] == data;
    sum := !crc;
  }
}
