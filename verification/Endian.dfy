/** Numbers as bytes. */
module Endian {
  /** The lowest byte of a number. */
  function Low(v: nat): bv8 {
    (v % 256) as bv8
  }

  lemma SameLow(v: nat, u: nat)
    requires v % 256 == u % 256
    ensures Low(v) == Low(u)
  {
  }

  /** The last `k` digits of `v` to the base 256, the most significant first. */
  function BigEndian(k: nat, v: nat): (s: seq<bv8>)
    ensures |s| == k
  {
    if k == 0 then [] else BigEndian(k - 1, v / 256) + [Low(v)]
  }

  /** The same with the least significant digit first. */
  function LittleEndian(k: nat, v: nat): (s: seq<bv8>)
    ensures |s| == k
  {
    if k == 0 then [] else [Low(v)] + LittleEndian(k - 1, v / 256)
  }

  function Encode32(v: nat): seq<bv8> {
    [Low(v / 0x100_0000), Low(v / 0x1_0000), Low(v / 0x100), Low(v)]
  }

  function Encode64(v: nat): seq<bv8> {
    Encode32(v / 0x1_0000_0000) + Encode32(v % 0x1_0000_0000)
  }

  lemma Encode32Big(v: nat)
    ensures Encode32(v) == BigEndian(4, v)
  {
    assert v / 256 / 256 == v / 0x1_0000 && v / 256 / 256 / 256 == v / 0x100_0000;
    hide Low;
    assert BigEndian(1, v / 0x100_0000) == [Low(v / 0x100_0000)];
    assert BigEndian(2, v / 0x1_0000) == BigEndian(1, v / 0x100_0000) + [Low(v / 0x1_0000)];
    assert BigEndian(3, v / 256) == BigEndian(2, v / 0x1_0000) + [Low(v / 256)];
  }

  lemma Encode32Low(v: nat)
    ensures Encode32(v % 0x1_0000_0000) == Encode32(v)
  {
    hide Low;
    var u := v % 0x1_0000_0000;
    LowDigit(v, 1);
    LowDigit(v, 0x100);
    LowDigit(v, 0x1_0000);
    LowDigit(v, 0x100_0000);
    SameLow(u, v);
    SameLow(u / 0x100, v / 0x100);
    SameLow(u / 0x1_0000, v / 0x1_0000);
    SameLow(u / 0x100_0000, v / 0x100_0000);
  }

  lemma LowDigit(v: nat, d: nat)
    requires d == 1 || d == 0x100 || d == 0x1_0000 || d == 0x100_0000
    ensures v % 0x1_0000_0000 / d % 256 == v / d % 256
  {
    var m := if d == 1 then 0x100_0000 else if d == 0x100 then 0x1_0000 else if d == 0x1_0000 then 0x100 else 1;
    LowDigitOf(v / 0x1_0000_0000, v % 0x1_0000_0000, d, m);
  }

  lemma DivUnique(v: nat, d: nat, a: nat, x: nat)
    requires d > 0 && v == d * a + x && x < d
    ensures v / d == a && v % d == x
  {
    var q := v / d;
    assert v == d * q + v % d;
    MultiplesApart(d, a, q);
    MultiplesApart(d, q, a);
  }

  lemma {:induction false} MultiplesApart(d: nat, a: nat, q: nat)
    ensures a > q ==> d * a >= d * q + d
  {
    if a > q {
      assert d * a == d * (a - 1) + d;
      MultiplesApart(d, a - 1, q);
    }
  }

  lemma LowDigitOf(q: nat, u: nat, d: nat, m: nat)
    requires u < 0x1_0000_0000 && d > 0 && d * (256 * m) == 0x1_0000_0000
    ensures (0x1_0000_0000 * q + u) / d % 256 == u / d % 256
  {
    var w, x := u / d, u % d;
    assert 0x1_0000_0000 * q + u == d * (256 * m * q + w) + x;
    DivUnique(0x1_0000_0000 * q + u, d, 256 * m * q + w, x);
    assert 256 * m * q == 256 * (m * q);
    DivUnique(256 * (m * q) + w, 256, m * q + w / 256, w % 256);
  }

  /** The two halves of the counter are the eight digits of the standard. */
  lemma Encode64Big(v: nat)
    ensures Encode64(v) == BigEndian(8, v)
  {
    var q := v / 0x1_0000_0000;
    hide Encode32, Shifted, BigEndian;
    ShiftedFour(v);
    Encode32Low(v);
    Encode32Big(v);
    Encode32Big(q);
    BigEndianSplit(4, 4, v);
  }

  function Shifted(v: nat, k: nat): nat {
    if k == 0 then v else Shifted(v / 256, k - 1)
  }

  lemma ShiftedFour(v: nat)
    ensures Shifted(v, 4) == v / 0x1_0000_0000
  {
    assert Shifted(v, 4) == Shifted(v / 256, 3) == Shifted(v / 256 / 256, 2) == Shifted(v / 256 / 256 / 256, 1);
    assert v / 256 / 256 / 256 / 256 == v / 0x1_0000_0000;
  }

  lemma {:induction false} BigEndianSplit(j: nat, k: nat, v: nat)
    ensures BigEndian(j + k, v) == BigEndian(j, Shifted(v, k)) + BigEndian(k, v)
  {
    if k > 0 {
      BigEndianSplit(j, k - 1, v / 256);
    }
  }

  lemma {:induction false} LittleEndianSplit(j: nat, k: nat, v: nat)
    ensures LittleEndian(j + k, v) == LittleEndian(j, v) + LittleEndian(k, Shifted(v, j))
  {
    if j > 0 {
      LittleEndianSplit(j - 1, k, v / 256);
    }
  }

  /** Four bytes, the least significant first. */
  function Encode32Little(v: nat): seq<bv8> {
    [Low(v), Low(v / 0x100), Low(v / 0x1_0000), Low(v / 0x100_0000)]
  }

  lemma Encode32LittleIs(v: nat)
    ensures Encode32Little(v) == LittleEndian(4, v)
  {
    hide Low;
    assert v / 256 / 256 == v / 0x1_0000 && v / 256 / 256 / 256 == v / 0x100_0000;
    assert LittleEndian(1, v / 0x100_0000) == [Low(v / 0x100_0000)];
    assert LittleEndian(2, v / 0x1_0000) == [Low(v / 0x1_0000)] + LittleEndian(1, v / 0x100_0000);
    assert LittleEndian(3, v / 256) == [Low(v / 256)] + LittleEndian(2, v / 0x1_0000);
  }

  /** Two halves, the lower one first, are the eight digits of their number. */
  lemma EncodeHalvesLittle(lo: nat, hi: nat)
    requires lo < 0x1_0000_0000
    ensures Encode32Little(lo) + Encode32Little(hi) == LittleEndian(8, 0x1_0000_0000 * hi + lo)
  {
    var v := 0x1_0000_0000 * hi + lo;
    hide Shifted, LittleEndian, Encode32, Encode32Little;
    DivUnique(v, 0x1_0000_0000, hi, lo);
    ShiftedFour(v);
    LittleEndianSplit(4, 4, v);
    Encode32LittleIs(v);
    Encode32LittleIs(hi);
    SameBytes(v);
  }

  lemma SameBytes(v: nat)
    ensures Encode32Little(v % 0x1_0000_0000) == Encode32Little(v)
  {
    hide Low;
    Encode32Low(v);
    var a, b := Encode32(v % 0x1_0000_0000), Encode32(v);
    assert a[0] == b[0] && a[1] == b[1] && a[2] == b[2] && a[3] == b[3];
  }
}
