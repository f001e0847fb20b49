/** Bytes and little-endian integers. */
module Bytes {

  type byte = x: int | 0 <= x < 256
  type Bytes = seq<byte>

  function Pow256(width: nat): (p: nat)
    ensures p > 0
  {
    if width == 0 then 1 else 256 * Pow256(width - 1)
  }

  function LittleEndian(value: nat, width: nat): (bytes: Bytes)
    ensures |bytes| == width
  {
    if width == 0 then [] else [value % 256] + LittleEndian(value / 256, width - 1)
  }

  function FromLittleEndian(bytes: Bytes): (value: nat)
    ensures value < Pow256(|bytes|)
  {
    if bytes == [] then 0 else bytes[0] + 256 * FromLittleEndian(bytes[1..])
  }

  lemma {:induction false} LittleEndianReads(value: nat, width: nat)
    requires value < Pow256(width)
    ensures FromLittleEndian(LittleEndian(value, width)) == value
  {
    if width > 0 {
      LittleEndianReads(value / 256, width - 1);
      assert LittleEndian(value, width)[1..] == LittleEndian(value / 256, width - 1);
    }
  }

  lemma {:induction false} LittleEndianWrites(bytes: Bytes)
    ensures LittleEndian(FromLittleEndian(bytes), |bytes|) == bytes
  {
    if bytes != [] {
      LittleEndianWrites(bytes[1..]);
      var rest := FromLittleEndian(bytes[1..]);
      assert (bytes[0] + 256 * rest) % 256 == bytes[0] && (bytes[0] + 256 * rest) / 256 == rest;
    }
  }

  lemma PowersOf256()
    ensures Pow256(2) == 0x1_0000 && Pow256(4) == 0x1_0000_0000 && Pow256(8) == 0x1_0000_0000_0000_0000
  {
    assert Pow256(1) == 256;
    assert Pow256(3) == 256 * Pow256(2);
    assert Pow256(5) == 256 * Pow256(4);
    assert Pow256(6) == 256 * Pow256(5);
    assert Pow256(7) == 256 * Pow256(6);
  }

  /** The writer's loop: each turn emits the low byte and shifts it out. */
  method AppendLittleEndian(output: Bytes, value: nat, width: nat) returns (result: Bytes)
    ensures result == output + LittleEndian(value, width)
  {
    result := output;
    var rest := value;
    for i := 0 to width
      invariant 0 <= rest
      invariant result + LittleEndian(rest, width - i) == output + LittleEndian(value, width)
    {
      result := result + [rest % 256];
      rest := rest / 256;
    }
  }

  /** The reader's loop: each turn adds a byte at its place value. */
  method ReadLittleEndian(data: Bytes, offset: nat, width: nat) returns (value: nat)
    requires offset + width <= |data|
    ensures value == FromLittleEndian(data[offset..offset + width])
  {
    value := 0;
    var place := 1;
    for i := 0 to width
      invariant place > 0
      invariant value + place * FromLittleEndian(data[offset + i..offset + width]) ==
                FromLittleEndian(data[offset..offset + width])
    {
      var rest := data[offset + i..offset + width];
      assert rest[0] == data[offset + i] && rest[1..] == data[offset + i + 1..offset + width];
      PlaceValue(place, rest);
      value := value + place * data[offset + i];
      place := place * 256;
    }
  }

  lemma Distribute(place: nat, value: nat, digit: nat, rest: nat)
    requires value == digit + 256 * rest
    ensures place * value == place * digit + place * 256 * rest
  {
  }

  lemma {:induction false} PlaceValue(place: nat, bytes: Bytes)
    requires bytes != []
    ensures place * FromLittleEndian(bytes) == place * bytes[0] + place * 256 * FromLittleEndian(bytes[1..])
  {
    Distribute(place, FromLittleEndian(bytes), bytes[0], FromLittleEndian(bytes[1..]));
  }
}
