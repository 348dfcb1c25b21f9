/** The digests of "abc" that FIPS 180-4 and RFC 1321 give as examples. */
module HashExamples {
  import opened Words
  import opened Endian
  import opened Chaining
  import S = Sha256Standard
  import SS = Sha256Stream
  import M = Md5Standard
  import MS = Md5Stream

  const ABC: seq<bv8> := [0x61, 0x62, 0x63]

  // ----- SHA-256 -----

  /** The block of "abc" with the length at its end. */
  ghost predicate IsBig(b: seq<bv8>) {
    && |b| == 64 && b[0] == 0x61 && b[1] == 0x62 && b[2] == 0x63 && b[3] == 0x80 && b[63] == 24
    && forall i | 4 <= i < 63 :: b[i] == 0
  }

  function Reg(a: bv32, b: bv32, c: bv32, d: bv32, e: bv32, f: bv32, g: bv32, h: bv32): S.Registers {
    S.Registers(a, b, c, d, e, f, g, h)
  }

  /** The schedule of the block is `w`, and the registers are `r` after `t` rounds. */
  ghost predicate Word(b: seq<bv8>, t: nat, w: bv32) {
    IsBig(b) && t < 64 && S.Schedule(b, t) == w
  }

  ghost predicate After(b: seq<bv8>, t: nat, r: S.Registers) {
    IsBig(b) && t <= 64 && S.Rounds(S.Initial(), b, t) == r
  }

  lemma FirstWord(b: seq<bv8>, t: nat, w: bv32)
    requires IsBig(b) && t < 16 && w == if t == 0 then 0x61626380 else if t == 15 then 24 else 0
    ensures Word(b, t, w)
  {
  }

  lemma NextWord(b: seq<bv8>, t: nat, w16: bv32, w15: bv32, w7: bv32, w2: bv32, w: bv32)
    requires 16 <= t < 64 && Word(b, t - 16, w16) && Word(b, t - 15, w15) && Word(b, t - 7, w7) && Word(b, t - 2, w2)
    requires w == Add(Add3(S.SmallSigma1(w2), w7, S.SmallSigma0(w15)), w16)
    ensures Word(b, t, w)
  {
    hide IsBig, S.SmallSigma0, S.SmallSigma1, Add, Add3;
  }

  /** A round moves the registers and gives `a` and `e` new values. */
  lemma NextRound(b: seq<bv8>, t: nat, r: S.Registers, w: bv32, k: bv32, a: bv32, e: bv32) returns (r': S.Registers)
    requires t < 64 && After(b, t, r) && Word(b, t, w) && S.K(t) == k
    requires S.Round(r, k, w) == S.Registers(a, r.a, r.b, r.c, e, r.e, r.f, r.g)
    ensures r' == S.Registers(a, r.a, r.b, r.c, e, r.e, r.f, r.g) && After(b, t + 1, r')
  {
    hide IsBig, S.Schedule, S.Round, S.K;
    r' := S.Registers(a, r.a, r.b, r.c, e, r.e, r.f, r.g);
  }

  lemma NoRounds(b: seq<bv8>)
    requires IsBig(b)
    ensures After(b, 0, S.Initial())
  {
  }

  lemma Words16(b: seq<bv8>)
    requires IsBig(b)
    ensures Word(b, 16, 0x61626380) && Word(b, 17, 0x000f0000) && Word(b, 18, 0x7da86405) && Word(b, 19, 0x600003c6)
    ensures Word(b, 20, 0x3e9d7b78) && Word(b, 21, 0x0183fc00) && Word(b, 22, 0x12dcbfdb) && Word(b, 23, 0xe2e2c38e)
  {
    hide Word, IsBig;
    FirstWord(b, 0, 0x61626380);
    FirstWord(b, 1, 0x00000000);
    FirstWord(b, 2, 0x00000000);
    FirstWord(b, 3, 0x00000000);
    FirstWord(b, 4, 0x00000000);
    FirstWord(b, 5, 0x00000000);
    FirstWord(b, 6, 0x00000000);
    FirstWord(b, 7, 0x00000000);
    FirstWord(b, 8, 0x00000000);
    FirstWord(b, 9, 0x00000000);
    FirstWord(b, 10, 0x00000000);
    FirstWord(b, 11, 0x00000000);
    FirstWord(b, 12, 0x00000000);
    FirstWord(b, 13, 0x00000000);
    FirstWord(b, 14, 0x00000000);
    FirstWord(b, 15, 0x00000018);
    NextWord(b, 16, 0x61626380, 0x00000000, 0x00000000, 0x00000000, 0x61626380);
    NextWord(b, 17, 0x00000000, 0x00000000, 0x00000000, 0x00000018, 0x000f0000);
    NextWord(b, 18, 0x00000000, 0x00000000, 0x00000000, 0x61626380, 0x7da86405);
    NextWord(b, 19, 0x00000000, 0x00000000, 0x00000000, 0x000f0000, 0x600003c6);
    NextWord(b, 20, 0x00000000, 0x00000000, 0x00000000, 0x7da86405, 0x3e9d7b78);
    NextWord(b, 21, 0x00000000, 0x00000000, 0x00000000, 0x600003c6, 0x0183fc00);
    NextWord(b, 22, 0x00000000, 0x00000000, 0x00000018, 0x3e9d7b78, 0x12dcbfdb);
    NextWord(b, 23, 0x00000000, 0x00000000, 0x61626380, 0x0183fc00, 0xe2e2c38e);
  }

  lemma Words24(b: seq<bv8>)
    requires IsBig(b)
    ensures Word(b, 24, 0xc8215c1a) && Word(b, 25, 0xb73679a2) && Word(b, 26, 0xe5bc3909) && Word(b, 27, 0x32663c5b)
    ensures Word(b, 28, 0x9d209d67) && Word(b, 29, 0xec8726cb) && Word(b, 30, 0x702138a4) && Word(b, 31, 0xd3b7973b)
  {
    hide Word, IsBig;
    FirstWord(b, 8, 0x00000000);
    FirstWord(b, 9, 0x00000000);
    FirstWord(b, 10, 0x00000000);
    FirstWord(b, 11, 0x00000000);
    FirstWord(b, 12, 0x00000000);
    FirstWord(b, 13, 0x00000000);
    FirstWord(b, 14, 0x00000000);
    FirstWord(b, 15, 0x00000018);
    Words16(b);
    NextWord(b, 24, 0x00000000, 0x00000000, 0x000f0000, 0x12dcbfdb, 0xc8215c1a);
    NextWord(b, 25, 0x00000000, 0x00000000, 0x7da86405, 0xe2e2c38e, 0xb73679a2);
    NextWord(b, 26, 0x00000000, 0x00000000, 0x600003c6, 0xc8215c1a, 0xe5bc3909);
    NextWord(b, 27, 0x00000000, 0x00000000, 0x3e9d7b78, 0xb73679a2, 0x32663c5b);
    NextWord(b, 28, 0x00000000, 0x00000000, 0x0183fc00, 0xe5bc3909, 0x9d209d67);
    NextWord(b, 29, 0x00000000, 0x00000000, 0x12dcbfdb, 0x32663c5b, 0xec8726cb);
    NextWord(b, 30, 0x00000000, 0x00000018, 0xe2e2c38e, 0x9d209d67, 0x702138a4);
    NextWord(b, 31, 0x00000018, 0x61626380, 0xc8215c1a, 0xec8726cb, 0xd3b7973b);
  }

  lemma Words32(b: seq<bv8>)
    requires IsBig(b)
    ensures Word(b, 32, 0x93f5997f) && Word(b, 33, 0x3b68ba73) && Word(b, 34, 0xaff4ffc1) && Word(b, 35, 0xf10a5c62)
    ensures Word(b, 36, 0x0a8b3996) && Word(b, 37, 0x72af830a) && Word(b, 38, 0x9409e33e) && Word(b, 39, 0x24641522)
  {
    hide Word, IsBig;
    Words16(b);
    Words24(b);
    NextWord(b, 32, 0x61626380, 0x000f0000, 0xb73679a2, 0x702138a4, 0x93f5997f);
    NextWord(b, 33, 0x000f0000, 0x7da86405, 0xe5bc3909, 0xd3b7973b, 0x3b68ba73);
    NextWord(b, 34, 0x7da86405, 0x600003c6, 0x32663c5b, 0x93f5997f, 0xaff4ffc1);
    NextWord(b, 35, 0x600003c6, 0x3e9d7b78, 0x9d209d67, 0x3b68ba73, 0xf10a5c62);
    NextWord(b, 36, 0x3e9d7b78, 0x0183fc00, 0xec8726cb, 0xaff4ffc1, 0x0a8b3996);
    NextWord(b, 37, 0x0183fc00, 0x12dcbfdb, 0x702138a4, 0xf10a5c62, 0x72af830a);
    NextWord(b, 38, 0x12dcbfdb, 0xe2e2c38e, 0xd3b7973b, 0x0a8b3996, 0x9409e33e);
    NextWord(b, 39, 0xe2e2c38e, 0xc8215c1a, 0x93f5997f, 0x72af830a, 0x24641522);
  }

  lemma Words40(b: seq<bv8>)
    requires IsBig(b)
    ensures Word(b, 40, 0x9f47bf94) && Word(b, 41, 0xf0a64f5a) && Word(b, 42, 0x3e246a79) && Word(b, 43, 0x27333ba3)
    ensures Word(b, 44, 0x0c4763f2) && Word(b, 45, 0x840abf27) && Word(b, 46, 0x7a290d5d) && Word(b, 47, 0x065c43da)
  {
    hide Word, IsBig;
    Words24(b);
    Words32(b);
    NextWord(b, 40, 0xc8215c1a, 0xb73679a2, 0x3b68ba73, 0x9409e33e, 0x9f47bf94);
    NextWord(b, 41, 0xb73679a2, 0xe5bc3909, 0xaff4ffc1, 0x24641522, 0xf0a64f5a);
    NextWord(b, 42, 0xe5bc3909, 0x32663c5b, 0xf10a5c62, 0x9f47bf94, 0x3e246a79);
    NextWord(b, 43, 0x32663c5b, 0x9d209d67, 0x0a8b3996, 0xf0a64f5a, 0x27333ba3);
    NextWord(b, 44, 0x9d209d67, 0xec8726cb, 0x72af830a, 0x3e246a79, 0x0c4763f2);
    NextWord(b, 45, 0xec8726cb, 0x702138a4, 0x9409e33e, 0x27333ba3, 0x840abf27);
    NextWord(b, 46, 0x702138a4, 0xd3b7973b, 0x24641522, 0x0c4763f2, 0x7a290d5d);
    NextWord(b, 47, 0xd3b7973b, 0x93f5997f, 0x9f47bf94, 0x840abf27, 0x065c43da);
  }

  lemma Words48(b: seq<bv8>)
    requires IsBig(b)
    ensures Word(b, 48, 0xfb3e89cb) && Word(b, 49, 0xcc7617db) && Word(b, 50, 0xb9e66c34) && Word(b, 51, 0xa9993667)
    ensures Word(b, 52, 0x84badedd) && Word(b, 53, 0xc21462bc) && Word(b, 54, 0x1487472c) && Word(b, 55, 0xb20f7a99)
  {
    hide Word, IsBig;
    Words32(b);
    Words40(b);
    NextWord(b, 48, 0x93f5997f, 0x3b68ba73, 0xf0a64f5a, 0x7a290d5d, 0xfb3e89cb);
    NextWord(b, 49, 0x3b68ba73, 0xaff4ffc1, 0x3e246a79, 0x065c43da, 0xcc7617db);
    NextWord(b, 50, 0xaff4ffc1, 0xf10a5c62, 0x27333ba3, 0xfb3e89cb, 0xb9e66c34);
    NextWord(b, 51, 0xf10a5c62, 0x0a8b3996, 0x0c4763f2, 0xcc7617db, 0xa9993667);
    NextWord(b, 52, 0x0a8b3996, 0x72af830a, 0x840abf27, 0xb9e66c34, 0x84badedd);
    NextWord(b, 53, 0x72af830a, 0x9409e33e, 0x7a290d5d, 0xa9993667, 0xc21462bc);
    NextWord(b, 54, 0x9409e33e, 0x24641522, 0x065c43da, 0x84badedd, 0x1487472c);
    NextWord(b, 55, 0x24641522, 0x9f47bf94, 0xfb3e89cb, 0xc21462bc, 0xb20f7a99);
  }

  lemma Words56(b: seq<bv8>)
    requires IsBig(b)
    ensures Word(b, 56, 0xef57b9cd) && Word(b, 57, 0xebe6b238) && Word(b, 58, 0x9fe3095e) && Word(b, 59, 0x78bc8d4b)
    ensures Word(b, 60, 0xa43fcf15) && Word(b, 61, 0x668b2ff8) && Word(b, 62, 0xeeaba2cc) && Word(b, 63, 0x12b1edeb)
  {
    hide Word, IsBig;
    Words40(b);
    Words48(b);
    NextWord(b, 56, 0x9f47bf94, 0xf0a64f5a, 0xcc7617db, 0x1487472c, 0xef57b9cd);
    NextWord(b, 57, 0xf0a64f5a, 0x3e246a79, 0xb9e66c34, 0xb20f7a99, 0xebe6b238);
    NextWord(b, 58, 0x3e246a79, 0x27333ba3, 0xa9993667, 0xef57b9cd, 0x9fe3095e);
    NextWord(b, 59, 0x27333ba3, 0x0c4763f2, 0x84badedd, 0xebe6b238, 0x78bc8d4b);
    NextWord(b, 60, 0x0c4763f2, 0x840abf27, 0xc21462bc, 0x9fe3095e, 0xa43fcf15);
    NextWord(b, 61, 0x840abf27, 0x7a290d5d, 0x1487472c, 0x78bc8d4b, 0x668b2ff8);
    NextWord(b, 62, 0x7a290d5d, 0x065c43da, 0xb20f7a99, 0xa43fcf15, 0xeeaba2cc);
    NextWord(b, 63, 0x065c43da, 0xfb3e89cb, 0xef57b9cd, 0x668b2ff8, 0x12b1edeb);
  }

  lemma Rounds0(b: seq<bv8>)
    requires IsBig(b)
    ensures After(b, 8,
      Reg(0x85a07b5f, 0xe5030380, 0x2b4209f5, 0x04409a6a, 0x0c657a79, 0x9b27a401, 0x714260ad, 0x43ada245))
  {
    hide Word, After, IsBig;
    NoRounds(b);
    FirstWord(b, 0, 0x61626380);
    FirstWord(b, 1, 0x00000000);
    FirstWord(b, 2, 0x00000000);
    FirstWord(b, 3, 0x00000000);
    FirstWord(b, 4, 0x00000000);
    FirstWord(b, 5, 0x00000000);
    FirstWord(b, 6, 0x00000000);
    FirstWord(b, 7, 0x00000000);
    var r0 := Reg(0x6a09e667, 0xbb67ae85, 0x3c6ef372, 0xa54ff53a, 0x510e527f, 0x9b05688c, 0x1f83d9ab, 0x5be0cd19);
    var r1 := NextRound(b, 0, r0, 0x61626380, 0x428a2f98, 0x5d6aebcd, 0xfa2a4622);
    var r2 := NextRound(b, 1, r1, 0x00000000, 0x71374491, 0x5a6ad9ad, 0x78ce7989);
    var r3 := NextRound(b, 2, r2, 0x00000000, 0xb5c0fbcf, 0xc8c347a7, 0xf92939eb);
    var r4 := NextRound(b, 3, r3, 0x00000000, 0xe9b5dba5, 0xd550f666, 0x24e00850);
    var r5 := NextRound(b, 4, r4, 0x00000000, 0x3956c25b, 0x04409a6a, 0x43ada245);
    var r6 := NextRound(b, 5, r5, 0x00000000, 0x59f111f1, 0x2b4209f5, 0x714260ad);
    var r7 := NextRound(b, 6, r6, 0x00000000, 0x923f82a4, 0xe5030380, 0x9b27a401);
    var r8 := NextRound(b, 7, r7, 0x00000000, 0xab1c5ed5, 0x85a07b5f, 0x0c657a79);
  }

  lemma Rounds8(b: seq<bv8>)
    requires IsBig(b)
    ensures After(b, 16,
      Reg(0xb0fa238e, 0xc0645fde, 0xd932eb16, 0x87912990, 0x07590dcd, 0x0b92f20c, 0x745a48de, 0x1e578218))
  {
    hide Word, After, IsBig;
    Rounds0(b);
    FirstWord(b, 8, 0x00000000);
    FirstWord(b, 9, 0x00000000);
    FirstWord(b, 10, 0x00000000);
    FirstWord(b, 11, 0x00000000);
    FirstWord(b, 12, 0x00000000);
    FirstWord(b, 13, 0x00000000);
    FirstWord(b, 14, 0x00000000);
    FirstWord(b, 15, 0x00000018);
    var r0 := Reg(0x85a07b5f, 0xe5030380, 0x2b4209f5, 0x04409a6a, 0x0c657a79, 0x9b27a401, 0x714260ad, 0x43ada245);
    var r1 := NextRound(b, 8, r0, 0x00000000, 0xd807aa98, 0x8e04ecb9, 0x32ca2d8c);
    var r2 := NextRound(b, 9, r1, 0x00000000, 0x12835b01, 0x8c87346b, 0x1cc92596);
    var r3 := NextRound(b, 10, r2, 0x00000000, 0x243185be, 0x4798a3f4, 0x436b23e8);
    var r4 := NextRound(b, 11, r3, 0x00000000, 0x550c7dc3, 0xf71fc5a9, 0x816fd6e9);
    var r5 := NextRound(b, 12, r4, 0x00000000, 0x72be5d74, 0x87912990, 0x1e578218);
    var r6 := NextRound(b, 13, r5, 0x00000000, 0x80deb1fe, 0xd932eb16, 0x745a48de);
    var r7 := NextRound(b, 14, r6, 0x00000000, 0x9bdc06a7, 0xc0645fde, 0x0b92f20c);
    var r8 := NextRound(b, 15, r7, 0x00000018, 0xc19bf174, 0xb0fa238e, 0x07590dcd);
  }

  lemma Rounds16(b: seq<bv8>)
    requires IsBig(b)
    ensures After(b, 24,
      Reg(0xc5d53d8d, 0xa7a3623f, 0xc2606d6d, 0x9dc68b63, 0xaa47c347, 0x49f5114a, 0xe1257970, 0x8ada8930))
  {
    hide Word, After, IsBig;
    Rounds8(b);
    Words16(b);
    var r0 := Reg(0xb0fa238e, 0xc0645fde, 0xd932eb16, 0x87912990, 0x07590dcd, 0x0b92f20c, 0x745a48de, 0x1e578218);
    var r1 := NextRound(b, 16, r0, 0x61626380, 0xe49b69c1, 0x21da9a9b, 0x8034229c);
    var r2 := NextRound(b, 17, r1, 0x000f0000, 0xefbe4786, 0xc2fbd9d1, 0x846ee454);
    var r3 := NextRound(b, 18, r2, 0x7da86405, 0x0fc19dc6, 0xfe777bbf, 0xcc899961);
    var r4 := NextRound(b, 19, r3, 0x600003c6, 0x240ca1cc, 0xe1f20c33, 0xb0638179);
    var r5 := NextRound(b, 20, r4, 0x3e9d7b78, 0x2de92c6f, 0x9dc68b63, 0x8ada8930);
    var r6 := NextRound(b, 21, r5, 0x0183fc00, 0x4a7484aa, 0xc2606d6d, 0xe1257970);
    var r7 := NextRound(b, 22, r6, 0x12dcbfdb, 0x5cb0a9dc, 0xa7a3623f, 0x49f5114a);
    var r8 := NextRound(b, 23, r7, 0xe2e2c38e, 0x76f988da, 0xc5d53d8d, 0xaa47c347);
  }

  lemma Rounds24(b: seq<bv8>)
    requires IsBig(b)
    ensures After(b, 32,
      Reg(0x73b33bf5, 0xea992a22, 0xa0060b30, 0x363482c9, 0xba591112, 0x0109ab3a, 0xade79437, 0x6112a3b7))
  {
    hide Word, After, IsBig;
    Rounds16(b);
    Words24(b);
    var r0 := Reg(0xc5d53d8d, 0xa7a3623f, 0xc2606d6d, 0x9dc68b63, 0xaa47c347, 0x49f5114a, 0xe1257970, 0x8ada8930);
    var r1 := NextRound(b, 24, r0, 0xc8215c1a, 0x983e5152, 0x1c2c2838, 0x2823ef91);
    var r2 := NextRound(b, 25, r1, 0xb73679a2, 0xa831c66d, 0xcde8037d, 0x14383d8e);
    var r3 := NextRound(b, 26, r2, 0xe5bc3909, 0xb00327c8, 0xb62ec4bc, 0xc74c6516);
    var r4 := NextRound(b, 27, r3, 0x32663c5b, 0xbf597fc7, 0x77d37528, 0xedffbff8);
    var r5 := NextRound(b, 28, r4, 0x9d209d67, 0xc6e00bf3, 0x363482c9, 0x6112a3b7);
    var r6 := NextRound(b, 29, r5, 0xec8726cb, 0xd5a79147, 0xa0060b30, 0xade79437);
    var r7 := NextRound(b, 30, r6, 0x702138a4, 0x06ca6351, 0xea992a22, 0x0109ab3a);
    var r8 := NextRound(b, 31, r7, 0xd3b7973b, 0x14292967, 0x73b33bf5, 0xba591112);
  }

  lemma Rounds32(b: seq<bv8>)
    requires IsBig(b)
    ensures After(b, 40,
      Reg(0x79ea687a, 0x6dc57a8a, 0x34df1604, 0x41a65cb1, 0x1efbc0a0, 0xf0781bc8, 0xa507a53d, 0x0772a26b))
  {
    hide Word, After, IsBig;
    Rounds24(b);
    Words32(b);
    var r0 := Reg(0x73b33bf5, 0xea992a22, 0xa0060b30, 0x363482c9, 0xba591112, 0x0109ab3a, 0xade79437, 0x6112a3b7);
    var r1 := NextRound(b, 32, r0, 0x93f5997f, 0x27b70a85, 0x98e12507, 0x9cd9f5f6);
    var r2 := NextRound(b, 33, r1, 0x3b68ba73, 0x2e1b2138, 0xfe604df5, 0x59249dd3);
    var r3 := NextRound(b, 34, r2, 0xaff4ffc1, 0x4d2c6dfc, 0xa9a7738c, 0x085f3833);
    var r4 := NextRound(b, 35, r3, 0xf10a5c62, 0x53380d13, 0x65a0cfe4, 0xf4b002d6);
    var r5 := NextRound(b, 36, r4, 0x0a8b3996, 0x650a7354, 0x41a65cb1, 0x0772a26b);
    var r6 := NextRound(b, 37, r5, 0x72af830a, 0x766a0abb, 0x34df1604, 0xa507a53d);
    var r7 := NextRound(b, 38, r6, 0x9409e33e, 0x81c2c92e, 0x6dc57a8a, 0xf0781bc8);
    var r8 := NextRound(b, 39, r7, 0x24641522, 0x92722c85, 0x79ea687a, 0x1efbc0a0);
  }

  lemma Rounds40(b: seq<bv8>)
    requires IsBig(b)
    ensures After(b, 48,
      Reg(0x4172328d, 0xa14c14b0, 0x72ab4b91, 0x26628815, 0xfecf0bc6, 0xd57b94a9, 0xb7755da1, 0xa80f11f0))
  {
    hide Word, After, IsBig;
    Rounds32(b);
    Words40(b);
    var r0 := Reg(0x79ea687a, 0x6dc57a8a, 0x34df1604, 0x41a65cb1, 0x1efbc0a0, 0xf0781bc8, 0xa507a53d, 0x0772a26b);
    var r1 := NextRound(b, 40, r0, 0x9f47bf94, 0xa2bfe8a1, 0xd6670766, 0x26352d63);
    var r2 := NextRound(b, 41, r1, 0xf0a64f5a, 0xa81a664b, 0xdf46652f, 0x838b2711);
    var r3 := NextRound(b, 42, r2, 0x3e246a79, 0xc24b8b70, 0x17aa0dfe, 0xdecd4715);
    var r4 := NextRound(b, 43, r3, 0x27333ba3, 0xc76c51a3, 0x9d4baf93, 0xfda24c2e);
    var r5 := NextRound(b, 44, r4, 0x0c4763f2, 0xd192e819, 0x26628815, 0xa80f11f0);
    var r6 := NextRound(b, 45, r5, 0x840abf27, 0xd6990624, 0x72ab4b91, 0xb7755da1);
    var r7 := NextRound(b, 46, r6, 0x7a290d5d, 0xf40e3585, 0xa14c14b0, 0xd57b94a9);
    var r8 := NextRound(b, 47, r7, 0x065c43da, 0x106aa070, 0x4172328d, 0xfecf0bc6);
  }

  lemma Rounds48(b: seq<bv8>)
    requires IsBig(b)
    ensures After(b, 56,
      Reg(0x38cc9913, 0x3ec45cdb, 0xf5702fdb, 0x101fd28f, 0x54cb266b, 0xe50e1b4f, 0x9f4787c3, 0x529e7d00))
  {
    hide Word, After, IsBig;
    Rounds40(b);
    Words48(b);
    var r0 := Reg(0x4172328d, 0xa14c14b0, 0x72ab4b91, 0x26628815, 0xfecf0bc6, 0xd57b94a9, 0xb7755da1, 0xa80f11f0);
    var r1 := NextRound(b, 48, r0, 0xfb3e89cb, 0x19a4c116, 0x05757ceb, 0xbd714038);
    var r2 := NextRound(b, 49, r1, 0xcc7617db, 0x1e376c08, 0xf11bfaa8, 0x6e5c390c);
    var r3 := NextRound(b, 50, r2, 0xb9e66c34, 0x2748774c, 0x7a0508a1, 0x52f1ccf7);
    var r4 := NextRound(b, 51, r3, 0xa9993667, 0x34b0bcb5, 0x886e7a22, 0x49231c1e);
    var r5 := NextRound(b, 52, r4, 0x84badedd, 0x391c0cb3, 0x101fd28f, 0x529e7d00);
    var r6 := NextRound(b, 53, r5, 0xc21462bc, 0x4ed8aa4a, 0xf5702fdb, 0x9f4787c3);
    var r7 := NextRound(b, 54, r6, 0x1487472c, 0x5b9cca4f, 0x3ec45cdb, 0xe50e1b4f);
    var r8 := NextRound(b, 55, r7, 0xb20f7a99, 0x682e6ff3, 0x38cc9913, 0x54cb266b);
  }

  lemma Rounds56(b: seq<bv8>)
    requires IsBig(b)
    ensures After(b, 64,
      Reg(0x506e3058, 0xd39a2165, 0x04d24d6c, 0xb85e2ce9, 0x5ef50f24, 0xfb121210, 0x948d25b6, 0x961f4894))
  {
    hide Word, After, IsBig;
    Rounds48(b);
    Words56(b);
    var r0 := Reg(0x38cc9913, 0x3ec45cdb, 0xf5702fdb, 0x101fd28f, 0x54cb266b, 0xe50e1b4f, 0x9f4787c3, 0x529e7d00);
    var r1 := NextRound(b, 56, r0, 0xef57b9cd, 0x748f82ee, 0xfcd1887b, 0x9b5e906c);
    var r2 := NextRound(b, 57, r1, 0xebe6b238, 0x78a5636f, 0xc062d46f, 0x7e44008e);
    var r3 := NextRound(b, 58, r2, 0x9fe3095e, 0x84c87814, 0xffb70472, 0x6d83bfc6);
    var r4 := NextRound(b, 59, r3, 0x78bc8d4b, 0x8cc70208, 0xb6ae8fff, 0xb21bad3d);
    var r5 := NextRound(b, 60, r4, 0xa43fcf15, 0x90befffa, 0xb85e2ce9, 0x961f4894);
    var r6 := NextRound(b, 61, r5, 0x668b2ff8, 0xa4506ceb, 0x04d24d6c, 0x948d25b6);
    var r7 := NextRound(b, 62, r6, 0xeeaba2cc, 0xbef9a3f7, 0xd39a2165, 0xfb121210);
    var r8 := NextRound(b, 63, r7, 0x12b1edeb, 0xc67178f2, 0x506e3058, 0x5ef50f24);
  }

  /** The digest of "abc" in appendix B.1 of FIPS 180-2, as eight words. */
  lemma Sha256Abc()
    ensures SS.HashValue(ABC)
         == Reg(0xba7816bf, 0x8f01cfea, 0x414140de, 0x5dae2223, 0xb00361a3, 0x96177a9c, 0xb410ff61, 0xf20015ad)
  {
    var b := Padded(ABC, BigEndian(8, SS.BitLength(ABC)));
    BigLength();
    BigBlock(b);
    Rounds56(b);
    ChainBlock(SS.HashStep, S.Initial(), b);
    var r := Reg(0x506e3058, 0xd39a2165, 0x04d24d6c, 0xb85e2ce9, 0x5ef50f24, 0xfb121210, 0x948d25b6, 0x961f4894);
    assert S.Rounds(S.Initial(), b, 64) == r;
    hide S.Rounds, IsBig, Padded, BigEndian;
    assert SS.HashStep(S.Initial(), b) == S.Sum(S.Initial(), r);
  }

  lemma BigLength()
    ensures SS.BitLength(ABC) == 24 && BigEndian(8, 24) == [0, 0, 0, 0, 0, 0, 0, 24]
  {
    assert BigEndian(7, 0) == [0, 0, 0, 0, 0, 0, 0];
  }

  lemma BigBlock(b: seq<bv8>)
    requires b == Padded(ABC, [0, 0, 0, 0, 0, 0, 0, 24])
    ensures IsBig(b)
  {
  }

  /** As the implementation writes it. */
  method HashAbcSha256() returns (digest: array<bv8>)
    ensures digest[..] == [
      0xba, 0x78, 0x16, 0xbf, 0x8f, 0x01, 0xcf, 0xea, 0x41, 0x41, 0x40, 0xde, 0x5d, 0xae, 0x22, 0x23,
      0xb0, 0x03, 0x61, 0xa3, 0x96, 0x17, 0x7a, 0x9c, 0xb4, 0x10, 0xff, 0x61, 0xf2, 0x00, 0x15, 0xad]
  {
    hide SS.HashValue, SS.Digest, SS.WordBytes;
    digest := SS.Hash([ABC]);
    OneChunk(ABC);
    Sha256Abc();
    DigestOf(Reg(0xba7816bf, 0x8f01cfea, 0x414140de, 0x5dae2223, 0xb00361a3, 0x96177a9c, 0xb410ff61, 0xf20015ad));
    WordBytesOf();
  }

  lemma OneChunk(m: seq<bv8>)
    ensures Joined([m]) == m
  {
    assert [m][..0] == [] && [m][0] == m;
  }

  lemma DigestOf(r: S.Registers)
    ensures SS.Digest(r) == SS.WordBytes(r.a) + SS.WordBytes(r.b) + SS.WordBytes(r.c) + SS.WordBytes(r.d)
      + SS.WordBytes(r.e) + SS.WordBytes(r.f) + SS.WordBytes(r.g) + SS.WordBytes(r.h)
  {
    hide SS.WordBytes, SS.WordsBytes;
    EightWords([r.a, r.b, r.c, r.d, r.e, r.f, r.g, r.h]);
  }

  lemma EightWords(w: seq<bv32>)
    requires |w| == 8
    ensures SS.WordsBytes(w) == SS.WordBytes(w[0]) + SS.WordBytes(w[1]) + SS.WordBytes(w[2]) + SS.WordBytes(w[3])
      + SS.WordBytes(w[4]) + SS.WordBytes(w[5]) + SS.WordBytes(w[6]) + SS.WordBytes(w[7])
  {
    hide SS.WordBytes, SS.WordsBytes;
    FourWords(w);
    WordsSnoc(w, 4);
    WordsSnoc(w, 5);
    WordsSnoc(w, 6);
    WordsSnoc(w, 7);
    assert w[..8] == w;
  }

  lemma FourWords(w: seq<bv32>)
    requires 4 <= |w|
    ensures SS.WordsBytes(w[..4])
      == SS.WordBytes(w[0]) + SS.WordBytes(w[1]) + SS.WordBytes(w[2]) + SS.WordBytes(w[3])
  {
    hide SS.WordBytes, SS.WordsBytes;
    NoWords();
    assert w[..0] == [] && [] + SS.WordBytes(w[0]) == SS.WordBytes(w[0]);
    WordsSnoc(w, 0);
    WordsSnoc(w, 1);
    WordsSnoc(w, 2);
    WordsSnoc(w, 3);
  }

  lemma WordsSnoc(w: seq<bv32>, i: nat)
    requires i < |w|
    ensures SS.WordsBytes(w[..i + 1]) == SS.WordsBytes(w[..i]) + SS.WordBytes(w[i])
  {
    SS.WordsBytesSnoc(w[..i], w[i]);
    assert w[..i + 1] == w[..i] + [w[i]];
  }

  lemma NoWords()
    ensures SS.WordsBytes([]) == []
  {
  }

  lemma WordBytesOf()
    ensures SS.WordBytes(0xba7816bf) == [0xba, 0x78, 0x16, 0xbf]
    ensures SS.WordBytes(0x8f01cfea) == [0x8f, 0x01, 0xcf, 0xea]
    ensures SS.WordBytes(0x414140de) == [0x41, 0x41, 0x40, 0xde]
    ensures SS.WordBytes(0x5dae2223) == [0x5d, 0xae, 0x22, 0x23]
    ensures SS.WordBytes(0xb00361a3) == [0xb0, 0x03, 0x61, 0xa3]
    ensures SS.WordBytes(0x96177a9c) == [0x96, 0x17, 0x7a, 0x9c]
    ensures SS.WordBytes(0xb410ff61) == [0xb4, 0x10, 0xff, 0x61]
    ensures SS.WordBytes(0xf20015ad) == [0xf2, 0x00, 0x15, 0xad]
  {
  }

  // ----- MD5 -----

  /** The block of "abc" with the length before its last four bytes. */
  ghost predicate IsLittle(b: seq<bv8>) {
    && |b| == 64 && b[0] == 0x61 && b[1] == 0x62 && b[2] == 0x63 && b[3] == 0x80 && b[56] == 24
    && (forall i | 4 <= i < 56 :: b[i] == 0) && forall i | 57 <= i < 64 :: b[i] == 0
  }

  ghost predicate Operated(b: seq<bv8>, t: nat, q: M.Quad) {
    IsLittle(b) && t <= 64 && M.Operations(M.Initial(), b, t) == q
  }

  lemma LittleWord(b: seq<bv8>, k: nat)
    requires IsLittle(b) && k < 16
    ensures M.WordOf(b, k) == if k == 0 then 0x80636261 else if k == 14 then 24 else 0
  {
  }

  /** An operation moves the registers and gives `b` a new value. */
  lemma NextOperation(b: seq<bv8>, t: nat, q: M.Quad, x: bv32, k: bv32, s: bv32, new_: bv32) returns (q': M.Quad)
    requires t < 64 && Operated(b, t, q) && M.Sine(t) == k && M.Shift(t) == s && 0 < s < 32
    requires x == if M.Index(t) == 0 then 0x80636261 else if M.Index(t) == 14 then 24 else 0
    requires new_ == Add(q.b, M.RotL(Add(Add3(q.a, M.Auxiliary(t / 16, q.b, q.c, q.d), x), k), s))
    ensures q' == M.Quad(q.d, new_, q.b, q.c) && Operated(b, t + 1, q')
  {
    hide M.Sine, M.Shift, M.Auxiliary, M.RotL, M.WordOf, IsLittle, M.Index;
    LittleWord(b, M.Index(t));
    q' := M.Quad(q.d, new_, q.b, q.c);
  }

  lemma NoOperations(b: seq<bv8>)
    requires IsLittle(b)
    ensures Operated(b, 0, M.Initial())
  {
  }

  lemma Operations0(b: seq<bv8>)
    requires IsLittle(b)
    ensures Operated(b, 8, M.Quad(0xc73741ef, 0x928d99f6, 0x207dc67b, 0x8bac3051))
  {
    hide Operated, IsLittle;
    NoOperations(b);
    var q0 := M.Quad(0x67452301, 0xefcdab89, 0x98badcfe, 0x10325476);
    var q1 := NextOperation(b, 0, q0, 0x80636261, 0xd76aa478, 7, 0xd6d117b4);
    var q2 := NextOperation(b, 1, q1, 0, 0xe8c7b756, 12, 0x344a8432);
    var q3 := NextOperation(b, 2, q2, 0, 0x242070db, 17, 0x2f6fbd72);
    var q4 := NextOperation(b, 3, q3, 0, 0xc1bdceee, 22, 0x7ad956f2);
    var q5 := NextOperation(b, 4, q4, 0, 0xf57c0faf, 7, 0xc73741ef);
    var q6 := NextOperation(b, 5, q5, 0, 0x4787c62a, 12, 0x8bac3051);
    var q7 := NextOperation(b, 6, q6, 0, 0xa8304613, 17, 0x207dc67b);
    var q8 := NextOperation(b, 7, q7, 0, 0xfd469501, 22, 0x928d99f6);
  }

  lemma Operations8(b: seq<bv8>)
    requires IsLittle(b)
    ensures Operated(b, 16, M.Quad(0xdda9b9a6, 0x72aff2e0, 0xe396856b, 0xa1051895))
  {
    hide Operated, IsLittle;
    Operations0(b);
    var q0 := M.Quad(0xc73741ef, 0x928d99f6, 0x207dc67b, 0x8bac3051);
    var q1 := NextOperation(b, 8, q0, 0, 0x698098d8, 7, 0x854b3712);
    var q2 := NextOperation(b, 9, q1, 0, 0x8b44f7af, 12, 0x74e2f284);
    var q3 := NextOperation(b, 10, q2, 0, 0xffff5bb1, 17, 0x3020401c);
    var q4 := NextOperation(b, 11, q3, 0, 0x895cd7be, 22, 0x5ed49596);
    var q5 := NextOperation(b, 12, q4, 0, 0x6b901122, 7, 0xdda9b9a6);
    var q6 := NextOperation(b, 13, q5, 0, 0xfd987193, 12, 0xa1051895);
    var q7 := NextOperation(b, 14, q6, 0x00000018, 0xa679438e, 17, 0xe396856b);
    var q8 := NextOperation(b, 15, q7, 0, 0x49b40821, 22, 0x72aff2e0);
  }

  lemma Operations16(b: seq<bv8>)
    requires IsLittle(b)
    ensures Operated(b, 24, M.Quad(0x59a8ffda, 0x47092c07, 0xabfc7920, 0x6d002f1e))
  {
    hide Operated, IsLittle;
    Operations8(b);
    var q0 := M.Quad(0xdda9b9a6, 0x72aff2e0, 0xe396856b, 0xa1051895);
    var q1 := NextOperation(b, 16, q0, 0, 0xf61e2562, 5, 0x3e9e9126);
    var q2 := NextOperation(b, 17, q1, 0, 0xc040b340, 9, 0x4a1d804e);
    var q3 := NextOperation(b, 18, q2, 0, 0x265e5a51, 14, 0xe25e1652);
    var q4 := NextOperation(b, 19, q3, 0x80636261, 0xe9b6c7aa, 20, 0xb5b204e4);
    var q5 := NextOperation(b, 20, q4, 0, 0xd62f105d, 5, 0x59a8ffda);
    var q6 := NextOperation(b, 21, q5, 0, 0x02441453, 9, 0x6d002f1e);
    var q7 := NextOperation(b, 22, q6, 0, 0xd8a1e681, 14, 0xabfc7920);
    var q8 := NextOperation(b, 23, q7, 0, 0xe7d3fbc8, 20, 0x47092c07);
  }

  lemma Operations24(b: seq<bv8>)
    requires IsLittle(b)
    ensures Operated(b, 32, M.Quad(0x790a77fb, 0x726342d3, 0xa62884aa, 0x9f47e4f8))
  {
    hide Operated, IsLittle;
    Operations16(b);
    var q0 := M.Quad(0x59a8ffda, 0x47092c07, 0xabfc7920, 0x6d002f1e);
    var q1 := NextOperation(b, 24, q0, 0, 0x21e1cde6, 5, 0xb7f268cf);
    var q2 := NextOperation(b, 25, q1, 0x00000018, 0xc33707d6, 9, 0x09388eff);
    var q3 := NextOperation(b, 26, q2, 0, 0xf4d50d87, 14, 0xfe1623b1);
    var q4 := NextOperation(b, 27, q3, 0, 0x455a14ed, 20, 0x786acb8f);
    var q5 := NextOperation(b, 28, q4, 0, 0xa9e3e905, 5, 0x790a77fb);
    var q6 := NextOperation(b, 29, q5, 0, 0xfcefa3f8, 9, 0x9f47e4f8);
    var q7 := NextOperation(b, 30, q6, 0, 0x676f02d9, 14, 0xa62884aa);
    var q8 := NextOperation(b, 31, q7, 0, 0x8d2a4c8a, 20, 0x726342d3);
  }

  lemma Operations32(b: seq<bv8>)
    requires IsLittle(b)
    ensures Operated(b, 40, M.Quad(0x21b117b9, 0x5a2f5ea5, 0x3575227e, 0x6e7429d5))
  {
    hide Operated, IsLittle;
    Operations24(b);
    var q0 := M.Quad(0x790a77fb, 0x726342d3, 0xa62884aa, 0x9f47e4f8);
    var q1 := NextOperation(b, 32, q0, 0, 0xfffa3942, 4, 0xb3707ebf);
    var q2 := NextOperation(b, 33, q1, 0, 0x8771f681, 11, 0x60127b2e);
    var q3 := NextOperation(b, 34, q2, 0, 0x6d9d6122, 16, 0x8d212ff5);
    var q4 := NextOperation(b, 35, q3, 0x00000018, 0xfde5380c, 23, 0x3b0875c7);
    var q5 := NextOperation(b, 36, q4, 0, 0xa4beea44, 4, 0x21b117b9);
    var q6 := NextOperation(b, 37, q5, 0, 0x4bdecfa9, 11, 0x6e7429d5);
    var q7 := NextOperation(b, 38, q6, 0, 0xf6bb4b60, 16, 0x3575227e);
    var q8 := NextOperation(b, 39, q7, 0, 0xbebfbc70, 23, 0x5a2f5ea5);
  }

  lemma Operations40(b: seq<bv8>)
    requires IsLittle(b)
    ensures Operated(b, 48, M.Quad(0x7f2e507b, 0x7beb9700, 0x8fae6399, 0x99d9679d))
  {
    hide Operated, IsLittle;
    Operations32(b);
    var q0 := M.Quad(0x21b117b9, 0x5a2f5ea5, 0x3575227e, 0x6e7429d5);
    var q1 := NextOperation(b, 40, q0, 0, 0x289b7ec6, 4, 0x11de1779);
    var q2 := NextOperation(b, 41, q1, 0x80636261, 0xeaa127fa, 11, 0xfadcaa38);
    var q3 := NextOperation(b, 42, q2, 0, 0xd4ef3085, 16, 0x31c465ca);
    var q4 := NextOperation(b, 43, q3, 0, 0x04881d05, 23, 0x4c6124f4);
    var q5 := NextOperation(b, 44, q4, 0, 0xd9d4d039, 4, 0x7f2e507b);
    var q6 := NextOperation(b, 45, q5, 0, 0xe6db99e5, 11, 0x99d9679d);
    var q7 := NextOperation(b, 46, q6, 0, 0x1fa27cf8, 16, 0x8fae6399);
    var q8 := NextOperation(b, 47, q7, 0, 0xc4ac5665, 23, 0x7beb9700);
  }

  lemma Operations48(b: seq<bv8>)
    requires IsLittle(b)
    ensures Operated(b, 56, M.Quad(0x06cc5e8a, 0x3bfa2c27, 0x7d632dd0, 0x5b0d97aa))
  {
    hide Operated, IsLittle;
    Operations40(b);
    var q0 := M.Quad(0x7f2e507b, 0x7beb9700, 0x8fae6399, 0x99d9679d);
    var q1 := NextOperation(b, 48, q0, 0x80636261, 0xf4292244, 6, 0x7b201df8);
    var q2 := NextOperation(b, 49, q1, 0, 0x432aff97, 10, 0xf4e8e96e);
    var q3 := NextOperation(b, 50, q2, 0x00000018, 0xab9423a7, 15, 0xb298cefd);
    var q4 := NextOperation(b, 51, q3, 0, 0xfc93a039, 21, 0x8bf025c4);
    var q5 := NextOperation(b, 52, q4, 0, 0x655b59c3, 6, 0x06cc5e8a);
    var q6 := NextOperation(b, 53, q5, 0, 0x8f0ccc92, 10, 0x5b0d97aa);
    var q7 := NextOperation(b, 54, q6, 0, 0xffeff47d, 15, 0x7d632dd0);
    var q8 := NextOperation(b, 55, q7, 0, 0x85845dd1, 21, 0x3bfa2c27);
  }

  lemma Operations56(b: seq<bv8>)
    requires IsLittle(b)
    ensures Operated(b, 64, M.Quad(0x310ade8f, 0xc08226b3, 0xe484b9d8, 0x624d8cb2))
  {
    hide Operated, IsLittle;
    Operations48(b);
    var q0 := M.Quad(0x06cc5e8a, 0x3bfa2c27, 0x7d632dd0, 0x5b0d97aa);
    var q1 := NextOperation(b, 56, q0, 0, 0x6fa87e4f, 6, 0x7f81cc35);
    var q2 := NextOperation(b, 57, q1, 0, 0xfe2ce6e0, 10, 0x094454ab);
    var q3 := NextOperation(b, 58, q2, 0, 0xa3014314, 15, 0x4f9dbe3f);
    var q4 := NextOperation(b, 59, q3, 0, 0x4e0811a1, 21, 0x7327d604);
    var q5 := NextOperation(b, 60, q4, 0, 0xf7537e82, 6, 0x310ade8f);
    var q6 := NextOperation(b, 61, q5, 0, 0xbd3af235, 10, 0x624d8cb2);
    var q7 := NextOperation(b, 62, q6, 0, 0x2ad7d2bb, 15, 0xe484b9d8);
    var q8 := NextOperation(b, 63, q7, 0, 0xeb86d391, 21, 0xc08226b3);
  }

  /** The digest of "abc" in appendix A.5 of RFC 1321, as four words. */
  lemma Md5Abc()
    ensures MS.HashValue(ABC) == M.Quad(0x98500190, 0xb04fd23c, 0x7d3f96d6, 0x727fe128)
  {
    var b := Padded(ABC, LittleEndian(8, 8 * |ABC| % MS.TWO64));
    LittleLength();
    LittleBlock(b);
    Operations56(b);
    ChainBlock(MS.HashStep, M.Initial(), b);
    var q := M.Quad(0x310ade8f, 0xc08226b3, 0xe484b9d8, 0x624d8cb2);
    assert M.Operations(M.Initial(), b, 64) == q;
    hide M.Operations, IsLittle, Padded, LittleEndian;
    assert MS.HashStep(M.Initial(), b) == M.Sum4(M.Initial(), q);
  }

  lemma LittleLength()
    ensures LittleEndian(8, 24) == [24, 0, 0, 0, 0, 0, 0, 0] && 8 * |ABC| % MS.TWO64 == 24
  {
    assert LittleEndian(7, 0) == [0, 0, 0, 0, 0, 0, 0];
  }

  lemma LittleBlock(b: seq<bv8>)
    requires b == Padded(ABC, [24, 0, 0, 0, 0, 0, 0, 0])
    ensures IsLittle(b)
  {
  }

  /** As the implementation writes it. */
  method HashAbcMd5() returns (digest: array<bv8>)
    ensures digest[..] == [
      0x90, 0x01, 0x50, 0x98, 0x3c, 0xd2, 0x4f, 0xb0, 0xd6, 0x96, 0x3f, 0x7d, 0x28, 0xe1, 0x7f, 0x72]
  {
    hide MS.HashValue, MS.WordBytes;
    digest := MS.Hash([ABC]);
    OneChunk(ABC);
    Md5Abc();
    LittleBytesOf();
  }

  lemma LittleBytesOf()
    ensures MS.WordBytes(0x98500190) == [0x90, 0x01, 0x50, 0x98]
    ensures MS.WordBytes(0xb04fd23c) == [0x3c, 0xd2, 0x4f, 0xb0]
    ensures MS.WordBytes(0x7d3f96d6) == [0xd6, 0x96, 0x3f, 0x7d]
    ensures MS.WordBytes(0x727fe128) == [0x28, 0xe1, 0x7f, 0x72]
  {
  }
}
