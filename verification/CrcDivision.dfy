/** The checksum as section 3.2.9 of IEEE 802.3 puts it: the remainder of dividing the message by the generator, the
    bits of each byte sent lowest first. The program keeps the remainder mirrored. */
module CrcDivision {
  import opened Bytes
  import opened Crc32

  /** x^26 + x^23 + x^22 + x^16 + x^12 + x^11 + x^10 + x^8 + x^7 + x^5 + x^4 + x^2 + x + 1, below the leading x^32. */
  const GENERATOR: bv32 :=
    (1 << 26) | (1 << 23) | (1 << 22) | (1 << 16) | (1 << 12) | (1 << 11) | (1 << 10) | (1 << 8) | (1 << 7) | (1 << 5) | (1 << 4)
    | (1 << 2) | (1 << 1) | 1

  /** One step of the division: the next power down, less the generator if the leading one was there. */
  function Divide(r: bv32): bv32 {
    (r << 1) ^ (if r >> 31 == 1 then GENERATOR else 0)
  }

  function Divides(r: bv32, steps: nat): bv32 {
    if steps == 0 then r else Divide(Divides(r, steps - 1))
  }

  /** The bits in the opposite order. */
  function Mirror(x: bv32): bv32 {
    var a := ((x >> 1) & 0x5555_5555) | ((x & 0x5555_5555) << 1);
    var b := ((a >> 2) & 0x3333_3333) | ((a & 0x3333_3333) << 2);
    var c := ((b >> 4) & 0x0f0f_0f0f) | ((b & 0x0f0f_0f0f) << 4);
    var d := ((c >> 8) & 0x00ff_00ff) | ((c & 0x00ff_00ff) << 8);
    (d >> 16) | (d << 16)
  }

  /** The byte's bits, the lowest first, come in at the top. */
  function Enter(r: bv32, b: byte): bv32 {
    Divides(r ^ Mirror(Low(b)), 8)
  }

  function Remainder(data: Bytes): bv32 {
    if data == [] then 0xffff_ffff else Enter(Remainder(data[..|data| - 1]), data[|data| - 1])
  }

  /** The lowest bit becomes the highest, and the others follow down. */
  lemma MirrorDown(x: bv32)
    ensures Mirror(x) >> 31 == x & 1 && Mirror(x >> 1) == Mirror(x) << 1 && Mirror(Mirror(x)) == x
  {
  }

  /** A step of the program is a step of the division, mirrored: its constant is the generator mirrored. */
  lemma MirrorShift(crc: bv32)
    ensures Mirror(Shift(crc)) == Divide(Mirror(crc))
  {
  }

  lemma MirrorXor(a: bv32, b: bv32)
    ensures Mirror(a ^ b) == Mirror(a) ^ Mirror(b)
  {
  }

  lemma {:induction false} MirrorShifts(crc: bv32, steps: nat)
    ensures Mirror(Shifts(crc, steps)) == Divides(Mirror(crc), steps)
  {
    hide Shift, Divide, Mirror;
    if steps > 0 {
      MirrorShifts(crc, steps - 1);
      MirrorShift(Shifts(crc, steps - 1));
    }
  }

  lemma {:induction false} MirrorFed(data: Bytes)
    ensures Mirror(FeedAll(0xffff_ffff, data)) == Remainder(data)
  {
    if data == [] {
      assert Mirror(0xffff_ffff) == 0xffff_ffff;
    } else {
      hide Mirror, Shifts, Divides, Low, Shift, Divide;
      var crc, b := FeedAll(0xffff_ffff, data[..|data| - 1]), data[|data| - 1];
      MirrorFed(data[..|data| - 1]);
      MirrorShifts(crc ^ Low(b), 8);
      MirrorXor(crc, Low(b));
    }
  }

  function Finish(r: bv32): bv32 {
    !Mirror(r)
  }

  lemma Finished(crc: bv32, r: bv32, sum: bv32)
    requires Mirror(crc) == r && sum == !crc
    ensures sum == Finish(r)
  {
    MirrorDown(crc);
    hide Mirror;
  }

  lemma ChecksumFeeds(data: Bytes)
    ensures Checksum(data) == !FeedAll(0xffff_ffff, data)
  {
    hide FeedAll;
  }

  /** The checksum is the remainder, mirrored and complemented. */
  lemma ChecksumIsRemainder(data: Bytes)
    ensures Checksum(data) == Finish(Remainder(data))
  {
    hide *;
    MirrorFed(data);
    ChecksumFeeds(data);
    Finished(FeedAll(0xffff_ffff, data), Remainder(data), Checksum(data));
  }
}
