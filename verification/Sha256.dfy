/** The definitions of FIPS 180-4 for SHA-256: sections 4.1.2, 4.2.2, 5.1.1,
    5.3.3 and 6.2. */
module Sha256Standard {
  import opened Words

  function RotR(x: bv32, n: bv32): bv32
    requires 0 < n < 32
  {
    (x >> n) | (x << (32 - n))
  }

  function Ch(x: bv32, y: bv32, z: bv32): bv32 { (x & y) ^ (!x & z) }

  function Maj(x: bv32, y: bv32, z: bv32): bv32 { (x & y) ^ (x & z) ^ (y & z) }

  function BigSigma0(x: bv32): bv32 { RotR(x, 2) ^ RotR(x, 13) ^ RotR(x, 22) }

  function BigSigma1(x: bv32): bv32 { RotR(x, 6) ^ RotR(x, 11) ^ RotR(x, 25) }

  function SmallSigma0(x: bv32): bv32 { RotR(x, 7) ^ RotR(x, 18) ^ (x >> 3) }

  function SmallSigma1(x: bv32): bv32 { RotR(x, 17) ^ RotR(x, 19) ^ (x >> 10) }

  /** The round constants. */
  function K(t: nat): bv32
    requires t < 64
  {
    var row: seq<bv32> :=
      match t / 8
      case 0 => [0x428a2f98, 0x71374491, 0xb5c0fbcf, 0xe9b5dba5, 0x3956c25b, 0x59f111f1, 0x923f82a4, 0xab1c5ed5]
      case 1 => [0xd807aa98, 0x12835b01, 0x243185be, 0x550c7dc3, 0x72be5d74, 0x80deb1fe, 0x9bdc06a7, 0xc19bf174]
      case 2 => [0xe49b69c1, 0xefbe4786, 0x0fc19dc6, 0x240ca1cc, 0x2de92c6f, 0x4a7484aa, 0x5cb0a9dc, 0x76f988da]
      case 3 => [0x983e5152, 0xa831c66d, 0xb00327c8, 0xbf597fc7, 0xc6e00bf3, 0xd5a79147, 0x06ca6351, 0x14292967]
      case 4 => [0x27b70a85, 0x2e1b2138, 0x4d2c6dfc, 0x53380d13, 0x650a7354, 0x766a0abb, 0x81c2c92e, 0x92722c85]
      case 5 => [0xa2bfe8a1, 0xa81a664b, 0xc24b8b70, 0xc76c51a3, 0xd192e819, 0xd6990624, 0xf40e3585, 0x106aa070]
      case 6 => [0x19a4c116, 0x1e376c08, 0x2748774c, 0x34b0bcb5, 0x391c0cb3, 0x4ed8aa4a, 0x5b9cca4f, 0x682e6ff3]
      case _ => [0x748f82ee, 0x78a5636f, 0x84c87814, 0x8cc70208, 0x90befffa, 0xa4506ceb, 0xbef9a3f7, 0xc67178f2];
    row[t % 8]
  }

  /** Word `t` of a block, big-endian. */
  function WordOf(block: seq<bv8>, t: nat): bv32
    requires |block| == 64 && t < 16
  {
    ((block[4 * t] as bv32) << 24) | ((block[4 * t + 1] as bv32) << 16)
    | ((block[4 * t + 2] as bv32) << 8) | (block[4 * t + 3] as bv32)
  }

  /** The message schedule. */
  function Schedule(block: seq<bv8>, t: nat): bv32
    requires |block| == 64 && t < 64
  {
    if t < 16 then WordOf(block, t)
    else Add(Add3(SmallSigma1(Schedule(block, t - 2)), Schedule(block, t - 7), SmallSigma0(Schedule(block, t - 15))),
             Schedule(block, t - 16))
  }

  /** The eight working variables, or the eight words of the hash value. */
  datatype Registers = Registers(a: bv32, b: bv32, c: bv32, d: bv32, e: bv32, f: bv32, g: bv32, h: bv32)

  function Round(r: Registers, k: bv32, w: bv32): Registers {
    var t1 := Add3(Add3(r.h, BigSigma1(r.e), Ch(r.e, r.f, r.g)), k, w);
    var t2 := Add(BigSigma0(r.a), Maj(r.a, r.b, r.c));
    Registers(Add(t1, t2), r.a, r.b, r.c, Add(r.d, t1), r.e, r.f, r.g)
  }

  /** The working variables after the first `t` rounds. */
  function Rounds(r: Registers, block: seq<bv8>, t: nat): Registers
    requires |block| == 64 && t <= 64
  {
    if t == 0 then r else Round(Rounds(r, block, t - 1), K(t - 1), Schedule(block, t - 1))
  }

  function Sum(r: Registers, s: Registers): Registers {
    Registers(Add(r.a, s.a), Add(r.b, s.b), Add(r.c, s.c), Add(r.d, s.d), Add(r.e, s.e), Add(r.f, s.f), Add(r.g, s.g),
      Add(r.h, s.h))
  }

  /** One step of the hash computation. */
  function Compress(r: Registers, block: seq<bv8>): Registers
    requires |block| == 64
  {
    Sum(r, Rounds(r, block, 64))
  }

  function Initial(): Registers {
    Registers(0x6a09e667, 0xbb67ae85, 0x3c6ef372, 0xa54ff53a, 0x510e527f, 0x9b05688c, 0x1f83d9ab, 0x5be0cd19)
  }
}

/** The block function that works in place on the state. */
module Sha256Block {
  import opened Sha256Standard
  import opened Words

  function ChFast(x: bv32, y: bv32, z: bv32): bv32 { (x & (y ^ z)) ^ z }

  function MajFast(x: bv32, y: bv32, z: bv32): bv32 { (x & (y | z)) | (y & z) }

  lemma ChBits(x: bv32, y: bv32, z: bv32)
    ensures (x & (y ^ z)) ^ z == (x & y) ^ (!x & z)
  {
  }

  lemma MajBits(x: bv32, y: bv32, z: bv32)
    ensures (x & (y | z)) | (y & z) == (x & y) ^ (x & z) ^ (y & z)
  {
  }

  /** The cheaper forms are the standard's functions. */
  lemma ChMaj(x: bv32, y: bv32, z: bv32)
    ensures ChFast(x, y, z) == Ch(x, y, z)
    ensures MajFast(x, y, z) == Maj(x, y, z)
  {
    ChBits(x, y, z);
    MajBits(x, y, z);
  }

  function Decode16(hi: bv8, lo: bv8): bv16 {
    ((hi as bv16) << 8) | (lo as bv16)
  }

  function Decode32(b0: bv8, b1: bv8, b2: bv8, b3: bv8): bv32 {
    ((Decode16(b0, b1) as bv32) << 16) | (Decode16(b2, b3) as bv32)
  }

  lemma DecodeWord(b0: bv8, b1: bv8, b2: bv8, b3: bv8)
    ensures Decode32(b0, b1, b2, b3) == ((b0 as bv32) << 24) | ((b1 as bv32) << 16) | ((b2 as bv32) << 8) | (b3 as bv32)
  {
  }

  lemma Sums(h: bv32, s: bv32, c: bv32, k: bv32, w: bv32)
    ensures Add(h, Add3(s, c, Add(w, k))) == Add3(Add3(h, s, c), k, w)
  {
    hide Add;
    AddLaws(h, Add(s, c), Add(w, k));
    AddLaws(h, s, c);
    AddLaws(w, k, w);
    AddLaws(Add3(h, s, c), k, w);
  }

  /** The order in which a round adds is immaterial. */
  lemma RoundSums(r: Registers, k: bv32, w: bv32)
    ensures var h := Add(r.h, Add3(BigSigma1(r.e), ChFast(r.e, r.f, r.g), Add(w, k)));
      Round(r, k, w)
      == Registers(Add(h, Add(BigSigma0(r.a), MajFast(r.a, r.b, r.c))), r.a, r.b, r.c, Add(r.d, h), r.e, r.f, r.g)
  {
    hide ChFast, MajFast, Ch, Maj, BigSigma0, BigSigma1, Add, Add3;
    ChMaj(r.e, r.f, r.g);
    ChMaj(r.a, r.b, r.c);
    Sums(r.h, BigSigma1(r.e), Ch(r.e, r.f, r.g), k, w);
  }

  // ----- the rotating registers -----

  /** The working variables as they lie in the array after `j` rounds. */
  ghost function View(s: seq<bv32>, j: nat): Registers
    requires |s| == 8 && j <= 16
  {
    Registers(s[Slot(0, j)], s[Slot(1, j)], s[Slot(2, j)], s[Slot(3, j)], s[Slot(4, j)], s[Slot(5, j)], s[Slot(6, j)],
      s[Slot(7, j)])
  }

  /** The place of variable `v` after `j` rounds. */
  function Slot(v: nat, j: nat): (i: nat)
    requires v < 8 && j <= 16
    ensures i < 8
  {
    (64 + v - j) % 8
  }

  lemma SlotsMove(j: nat)
    requires j < 16
    ensures Slot(0, j + 1) == Slot(7, j)
    ensures forall v | 0 <= v < 7 :: Slot(v + 1, j + 1) == Slot(v, j)
    ensures forall v, u | 0 <= v < u < 8 :: Slot(v, j) != Slot(u, j)
  {
  }

  /** One round changes two places of the array and renames the others. */
  lemma Rotate(s: seq<bv32>, t: seq<bv32>, j: nat)
    requires |s| == |t| == 8 && j < 16
    requires forall i | 0 <= i < 8 && i != Slot(3, j) && i != Slot(7, j) :: t[i] == s[i]
    ensures var r := View(s, j); View(t, j + 1) == Registers(t[Slot(7, j)], r.a, r.b, r.c, t[Slot(3, j)], r.e, r.f, r.g)
  {
    SlotsMove(j);
    hide Slot;
    assert Slot(1, j + 1) == Slot(0, j) && Slot(2, j + 1) == Slot(1, j);
    assert Slot(3, j + 1) == Slot(2, j) && Slot(4, j + 1) == Slot(3, j);
    assert Slot(5, j + 1) == Slot(4, j) && Slot(6, j + 1) == Slot(5, j) && Slot(7, j + 1) == Slot(6, j);
  }

  lemma FirstWords(block: seq<bv8>, t: nat)
    requires |block| == 64 && t < 16
    ensures Schedule(block, t) == Decode32(block[4 * t], block[4 * t + 1], block[4 * t + 2], block[4 * t + 3])
  {
    DecodeWord(block[4 * t], block[4 * t + 1], block[4 * t + 2], block[4 * t + 3]);
    hide Decode32;
    assert Schedule(block, t) == WordOf(block, t);
  }

  method DecodeBlock(w: array<bv32>, block: seq<bv8>)
    requires w.Length == 64 && |block| == 64
    modifies w
    ensures forall t | 0 <= t < 16 :: w[t] == Schedule(block, t)
  {
    hide Decode32, Schedule;
    for i := 0 to 16
      invariant forall t | 0 <= t < i :: w[t] == Schedule(block, t)
    {
      FirstWords(block, i);
      w[i] := Decode32(block[4 * i], block[4 * i + 1], block[4 * i + 2], block[4 * i + 3]);
    }
  }

  /** Round `j` of sixteen, on the registers as they lie after the rounds before. */
  method RotatingRound(s: array<bv32>, j: nat, k: bv32, w: bv32)
    requires s.Length == 8 && j < 16
    modifies s
    ensures View(s[..], j + 1) == Round(View(old(s[..]), j), k, w)
  {
    hide ChFast, MajFast, BigSigma0, BigSigma1, Add, Add3, Round, Slot;
    SlotsMove(j);
    var a, b, c, d := Slot(0, j), Slot(1, j), Slot(2, j), Slot(3, j);
    var e, f, g, h := Slot(4, j), Slot(5, j), Slot(6, j), Slot(7, j);
    ghost var before := s[..];
    RoundSums(View(before, j), k, w);
    s[h] := Add(s[h], Add3(BigSigma1(s[e]), ChFast(s[e], s[f], s[g]), Add(w, k)));
    s[d] := Add(s[d], s[h]);
    s[h] := Add(s[h], Add(BigSigma0(s[a]), MajFast(s[a], s[b], s[c])));
    Rotate(before, s[..], j);
  }

  lemma NextRound(r: Registers, block: seq<bv8>, t: nat)
    requires |block| == 64 && t < 64
    ensures Rounds(r, block, t + 1) == Round(Rounds(r, block, t), K(t), Schedule(block, t))
  {
    hide K, Round, Schedule;
  }

  lemma NextWord(block: seq<bv8>, t: nat)
    requires |block| == 64 && 16 <= t < 64
    ensures Schedule(block, t)
      == Add(Add3(SmallSigma1(Schedule(block, t - 2)), Schedule(block, t - 7), SmallSigma0(Schedule(block, t - 15))),
             Schedule(block, t - 16))
  {
    hide Add, Add3, SmallSigma0, SmallSigma1, WordOf;
  }

  method SixteenRounds(s: array<bv32>, w: array<bv32>, i: nat, ghost r: Registers, ghost block: seq<bv8>)
    requires s.Length == 8 && w.Length == 64 && s != w && |block| == 64 && i <= 48
    requires forall t | 0 <= t < i + 16 :: w[t] == Schedule(block, t)
    requires View(s[..], 0) == Rounds(r, block, i)
    modifies s
    ensures View(s[..], 0) == Rounds(r, block, i + 16)
  {
    hide Rounds, Round, K, Schedule, Slot, View;
    for j := 0 to 16
      invariant View(s[..], j) == Rounds(r, block, i + j)
      invariant w[..] == old(w[..])
    {
      RotatingRound(s, j, K(i + j), w[i + j]);
      NextRound(r, block, i + j);
    }
    assert View(s[..], 16) == View(s[..], 0) by { FullTurn(s[..]); }
  }

  lemma FullTurn(s: seq<bv32>)
    requires |s| == 8
    ensures View(s, 16) == View(s, 0)
  {
  }

  method SixteenWords(w: array<bv32>, i: nat, ghost block: seq<bv8>)
    requires w.Length == 64 && |block| == 64 && i <= 32
    requires forall t | 0 <= t < i + 16 :: w[t] == Schedule(block, t)
    modifies w
    ensures forall t | 0 <= t < i + 32 :: w[t] == Schedule(block, t)
  {
    hide Add, Add3, SmallSigma0, SmallSigma1, Schedule;
    for j := 0 to 16
      invariant forall t | 0 <= t < i + 16 + j :: w[t] == Schedule(block, t)
    {
      NextWord(block, i + j + 16);
      w[i + j + 16] := Add(Add3(SmallSigma1(w[i + j + 14]), w[i + j + 9], SmallSigma0(w[i + j + 1])), w[i + j]);
    }
  }

  /** `SHA256_Transform` computes the standard's step. */
  method Transform(state: array<bv32>, block: seq<bv8>)
    requires state.Length == 8 && |block| == 64
    modifies state
    ensures View(state[..], 0) == Compress(View(old(state[..]), 0), block)
  {
    hide Rounds, Schedule, Add, Slot;
    var w := new bv32[64];
    DecodeBlock(w, block);
    var s := new bv32[8];
    forall i | 0 <= i < 8 { s[i] := state[i]; }
    ghost var r := View(state[..], 0);
    assert s[..] == state[..];
    assert Rounds(r, block, 0) == r by { NoRounds(r, block); }
    var i := 0;
    while true
      invariant 0 <= i <= 48 && i % 16 == 0
      invariant View(s[..], 0) == Rounds(r, block, i)
      invariant forall t | 0 <= t < i + 16 :: w[t] == Schedule(block, t)
      invariant state[..] == old(state[..])
      decreases 48 - i
    {
      SixteenRounds(s, w, i, r, block);
      if i == 48 {
        break;
      }
      SixteenWords(w, i, block);
      i := i + 16;
    }
    AddState(state, s);
  }

  lemma NoRounds(r: Registers, block: seq<bv8>)
    requires |block| == 64
    ensures Rounds(r, block, 0) == r
  {
  }

  method AddState(state: array<bv32>, s: array<bv32>)
    requires state.Length == 8 && s.Length == 8 && s != state
    modifies state
    ensures View(state[..], 0) == Sum(View(old(state[..]), 0), View(s[..], 0))
  {
    hide Add;
    for i := 0 to 8
      invariant forall k | 0 <= k < i :: state[k] == Add(old(state[k]), s[k])
      invariant forall k | i <= k < 8 :: state[k] == old(state[k])
    {
      state[i] := Add(state[i], s[i]);
    }
  }
}
