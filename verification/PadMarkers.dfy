/** The markers of file system images: the header of an empty node, in both byte orders. */
module PadMarkers {
  import opened Endian
  import opened PadImage

  const MAGIC: nat := 0x1985
  const PADDING: nat := 0x2004
  const LENGTH: nat := 0x0400_0000

  /** One bit of the cyclic redundancy check with the polynomial of IEEE 802.3, the
      lowest bit first. */
  function CrcBit(c: bv32): bv32 {
    if c & 1 == 1 then (c >> 1) ^ 0xedb8_8320 else c >> 1
  }

  function CrcByte(c: bv32, b: bv8): bv32 {
    CrcBit(CrcBit(CrcBit(CrcBit(CrcBit(CrcBit(CrcBit(CrcBit(c ^ (b as bv32)))))))))
  }

  /** The check of a sequence of bytes, from zero. */
  function Crc(b: seq<bv8>): bv32 {
    if b == [] then 0 else CrcByte(Crc(b[..|b| - 1]), b[|b| - 1])
  }

  lemma NextByte(b: seq<bv8>, i: nat, c: bv32, d: bv32)
    requires i < |b| && Crc(b[..i]) == c && CrcByte(c, b[i]) == d
    ensures Crc(b[..i + 1]) == d
  {
    hide CrcByte;
    assert b[..i + 1][..i] == b[..i];
  }

  lemma NoBytes(b: seq<bv8>)
    ensures Crc(b[..0]) == 0
  {
  }

  lemma BigHalf(b: seq<bv8>)
    requires b == [0x19, 0x85, 0x20, 0x04, 0x04, 0x00, 0x00, 0x00]
    ensures Crc(b[..4]) == 0x580621c5
  {
    hide Crc;
    NoBytes(b);
    NextByte(b, 0, 0x00000000, 0x646ba8c0);
    NextByte(b, 1, 0x646ba8c0, 0x06d2deb7);
    NextByte(b, 2, 0x06d2deb7, 0x6e6dd439);
    NextByte(b, 3, 0x6e6dd439, 0x580621c5);
  }

  lemma BigCheck(b: seq<bv8>)
    requires b == [0x19, 0x85, 0x20, 0x04, 0x04, 0x00, 0x00, 0x00]
    ensures Crc(b) == 0xc494dbf4
  {
    hide Crc;
    BigHalf(b);
    NextByte(b, 4, 0x580621c5, 0xec3bf407);
    NextByte(b, 5, 0xec3bf407, 0x9e88ae57);
    NextByte(b, 6, 0x9e88ae57, 0xf5914cf9);
    NextByte(b, 7, 0xf5914cf9, 0xc494dbf4);
    assert b[..8] == b;
  }

  lemma LittleHalf(b: seq<bv8>)
    requires b == [0x85, 0x19, 0x04, 0x20, 0x00, 0x00, 0x00, 0x04]
    ensures Crc(b[..4]) == 0x96723b3a
  {
    hide Crc;
    NoBytes(b);
    NextByte(b, 0, 0x00000000, 0x9dd277af);
    NextByte(b, 1, 0x9dd277af, 0x229fc4ce);
    NextByte(b, 2, 0x229fc4ce, 0x7b93b46a);
    NextByte(b, 3, 0x7b93b46a, 0x96723b3a);
  }

  lemma LittleCheck(b: seq<bv8>)
    requires b == [0x85, 0x19, 0x04, 0x20, 0x00, 0x00, 0x00, 0x04]
    ensures Crc(b) == 0xb4a0fba8
  {
    hide Crc;
    LittleHalf(b);
    NextByte(b, 4, 0x96723b3a, 0xc69aab89);
    NextByte(b, 5, 0xc69aab89, 0x94a2a12f);
    NextByte(b, 6, 0x94a2a12f, 0xab459ff8);
    NextByte(b, 7, 0xab459ff8, 0xb4a0fba8);
    assert b[..8] == b;
  }

  lemma LowOf(v: nat, q: nat, x: bv8)
    requires v == 256 * q + x as nat
    ensures v / 256 == q && Low(v) == x
  {
    assert v % 256 == x as nat;
  }

  lemma LastByte(k: nat, v: nat, q: nat, x: bv8)
    requires v == 256 * q + x as nat
    ensures BigEndian(k + 1, v) == BigEndian(k, q) + [x] && LittleEndian(k + 1, v) == [x] + LittleEndian(k, q)
  {
    LowOf(v, q, x);
    hide Low;
  }

  lemma Two(v: nat, a: bv8, b: bv8)
    requires v == 256 * a as nat + b as nat
    ensures BigEndian(2, v) == [a, b] && LittleEndian(2, v) == [b, a]
  {
    hide BigEndian, LittleEndian;
    LastByte(1, v, a as nat, b);
    LastByte(0, a as nat, 0, a);
  }

  lemma Four(v: nat, t: nat, u: nat, a: bv8, b: bv8, c: bv8, d: bv8)
    requires v == 256 * t + d as nat && t == 256 * u + c as nat && u == 256 * a as nat + b as nat
    ensures BigEndian(4, v) == [a, b, c, d] && LittleEndian(4, v) == [d, c, b, a]
  {
    hide BigEndian, LittleEndian;
    LastByte(3, v, t, d);
    LastByte(2, t, u, c);
    Two(u, a, b);
  }

  /** A marker is the header of an empty padding node, in big-endian order for `-J` and
      little-endian order for `-j`; its last four bytes are the check of the others. */
  lemma MarkersAreHeaders()
    ensures Bytes(EndOfFile) == BigEndian(4, 0xdead_c0de)
    ensures var b := Bytes(BigPad);
      && |b| == 12 && b[..8] == BigEndian(2, MAGIC) + BigEndian(2, PADDING) + BigEndian(4, LENGTH)
      && b[8..] == BigEndian(4, Crc(b[..8]) as nat)
    ensures var b := Bytes(LittlePad);
      && |b| == 12 && b[..8] == LittleEndian(2, MAGIC) + LittleEndian(2, PADDING) + LittleEndian(4, LENGTH)
      && b[8..] == LittleEndian(4, Crc(b[..8]) as nat)
  {
    hide Crc, BigEndian, LittleEndian;
    Four(0xdead_c0de, 0xde_adc0, 0xdead, 0xde, 0xad, 0xc0, 0xde);
    Two(MAGIC, 0x19, 0x85);
    Two(PADDING, 0x20, 0x04);
    Four(LENGTH, 0x4_0000, 0x400, 0x04, 0x00, 0x00, 0x00);
    Four(0xc494_dbf4, 0xc4_94db, 0xc494, 0xc4, 0x94, 0xdb, 0xf4);
    Four(0xb4a0_fba8, 0xb4_a0fb, 0xb4a0, 0xb4, 0xa0, 0xfb, 0xa8);
    BigCheck(Bytes(BigPad)[..8]);
    LittleCheck(Bytes(LittlePad)[..8]);
  }
}
