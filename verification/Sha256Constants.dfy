/** Where the constants of SHA-256 come from: sections 4.2.2 and 5.3.3 of FIPS 180-4. */
module Sha256Constants {
  import opened Sha256Standard
  import opened Endian

  // ----- the first primes -----

  ghost predicate IsPrime(n: nat) {
    n >= 2 && forall d | 2 <= d < n :: n % d != 0
  }

  /** The smallest divisor from 2 on if it is at most 17, else the number itself. */
  function SmallDivisor(n: nat): (d: nat)
    ensures d == n || (2 <= d <= 17 && n % d == 0)
  {
    if n % 2 == 0 then 2 else if n % 3 == 0 then 3 else if n % 5 == 0 then 5 else if n % 7 == 0 then 7
    else if n % 11 == 0 then 11 else if n % 13 == 0 then 13 else if n % 17 == 0 then 17 else n
  }

  lemma Divided(n: nat, d: nat, k: nat)
    requires d > 0 && n == d * k
    ensures n % d == 0
  {
    DivUnique(n, d, k, 0);
  }

  lemma Product(a: nat, b: nat, c: nat, d: nat)
    requires a >= c && b >= d
    ensures a * b >= c * d
  {
  }

  /** A divisor of a divisor is a divisor. */
  lemma DividesThrough(n: nat, d: nat, p: nat)
    requires d > 0 && p > 0 && n % d == 0 && d % p == 0
    ensures n % p == 0
  {
    var k, j := n / d, d / p;
    assert n == d * k && d == p * j;
    assert n == p * (j * k);
    Divided(n, p, j * k);
  }

  lemma SmallHasSmall(d: nat) returns (p: nat)
    requires 2 <= d <= 17
    ensures p in {2, 3, 5, 7, 11, 13, 17} && p <= d && d % p == 0
  {
    p := SmallDivisor(d);
  }

  /** Below 18 * 18 a number is prime exactly if it has no such divisor. */
  lemma PrimeBySmall(n: nat)
    requires 2 <= n < 324
    ensures IsPrime(n) <==> SmallDivisor(n) == n
  {
    if SmallDivisor(n) == n {
      forall d | 2 <= d < n ensures n % d != 0 {
        if n % d == 0 { SmallFactor(n, d); }
      }
    }
  }

  lemma SmallFactor(n: nat, d: nat)
    requires 2 <= d < n < 324 && n % d == 0
    ensures SmallDivisor(n) < n
  {
    hide SmallDivisor;
    var k := n / d;
    assert n == d * k && n == k * d;
    if d <= 17 {
      SmallPart(n, d);
    } else {
      OtherFactor(n, d, k);
      Divided(n, k, d);
      SmallPart(n, k);
    }
  }

  lemma OtherFactor(n: nat, d: nat, k: nat)
    requires 17 < d < n < 324 && n == d * k
    ensures 2 <= k <= 17 && k < n
  {
    if k >= 18 { Product(d, k, 18, 18); }
    if k <= 1 { Product(d, 1, d, k); }
  }

  lemma SmallPart(n: nat, d: nat)
    requires 2 <= d <= 17 && d < n && n % d == 0
    ensures SmallDivisor(n) < n
  {
    var p := SmallHasSmall(d);
    DividesThrough(n, d, p);
  }

  /** No number between the two is prime. */
  ghost predicate NoneBetween(p: nat, q: nat) {
    forall n | p < n < q :: !IsPrime(n)
  }

  /** All numbers between the two have a small divisor. */
  predicate AllComposite(p: nat, q: nat)
    decreases q - p
  {
    p + 1 >= q || (SmallDivisor(p + 1) < p + 1 && AllComposite(p + 1, q))
  }

  lemma {:induction false} Composites(p: nat, q: nat)
    requires AllComposite(p, q) && 1 <= p && q < 324
    ensures NoneBetween(p, q)
    decreases q - p
  {
    if p + 1 < q {
      PrimeBySmall(p + 1);
      Composites(p + 1, q);
    }
  }

  /** `p` is the prime that has exactly `t` primes below it. */
  ghost predicate NthPrime(t: nat, p: nat) {
    if t == 0 then p == 2 else IsPrime(p) && exists q: nat :: NthPrime(t - 1, q) && q < p && NoneBetween(q, p)
  }

  /** The next prime after `q`, below 18 * 18. */
  lemma Follows(t: nat, q: nat, p: nat)
    requires NthPrime(t, q) && 1 <= q < p < 324 && AllComposite(q, p) && SmallDivisor(p) == p
    ensures NthPrime(t + 1, p)
  {
    hide IsPrime, NoneBetween, AllComposite, SmallDivisor;
    PrimeBySmall(p);
    Composites(q, p);
  }

  lemma {:induction false} NthPrimeUnique(t: nat, p: nat, q: nat)
    requires NthPrime(t, p) && NthPrime(t, q)
    ensures p == q
  {
    if t > 0 {
      hide IsPrime;
      var p': nat :| NthPrime(t - 1, p') && p' < p && NoneBetween(p', p);
      var q': nat :| NthPrime(t - 1, q') && q' < q && NoneBetween(q', q);
      NthPrimeUnique(t - 1, p', q');
    }
  }

  // ----- roots -----

  const TWO32: nat := 0x1_0000_0000
  const TWO64: nat := 0x1_0000_0000_0000_0000
  const TWO96: nat := 0x1_0000_0000_0000_0000_0000_0000

  /** `w` is the first 32 bits of the fractional part of the cube root of `p`. */
  ghost predicate CubeRootBits(w: bv32, p: nat) {
    exists c: nat :: c % TWO32 == w as nat && c * c * c <= p * TWO96 < (c + 1) * (c + 1) * (c + 1)
  }

  /** `w` is the first 32 bits of the fractional part of the square root of `p`. */
  ghost predicate SquareRootBits(w: bv32, p: nat) {
    exists c: nat :: c % TWO32 == w as nat && c * c <= p * TWO64 < (c + 1) * (c + 1)
  }

  /** Round constant `t` comes from prime number `t`. */
  ghost predicate RoundConstant(t: nat)
    requires t < 64
  {
    exists p :: NthPrime(t, p) && CubeRootBits(K(t), p)
  }

  lemma CubeRoot(t: nat, p: nat, c: nat)
    requires t < 64 && NthPrime(t, p)
    requires c % TWO32 == K(t) as nat && c * c * c <= p * TWO96 < (c + 1) * (c + 1) * (c + 1)
    ensures RoundConstant(t)
  {
    hide NthPrime, K;
  }

  lemma SquareRoot(w: bv32, p: nat, c: nat)
    requires c % TWO32 == w as nat && c * c <= p * TWO64 < (c + 1) * (c + 1)
    ensures SquareRootBits(w, p)
  {
  }

  lemma Primes0()
    ensures NthPrime(0, 2) && NthPrime(1, 3) && NthPrime(2, 5) && NthPrime(3, 7)
    ensures NthPrime(4, 11) && NthPrime(5, 13) && NthPrime(6, 17) && NthPrime(7, 19)
  {
    hide NthPrime, IsPrime;
    FirstPrime();
    Follows(0, 2, 3);
    Follows(1, 3, 5);
    Follows(2, 5, 7);
    Follows(3, 7, 11);
    Follows(4, 11, 13);
    Follows(5, 13, 17);
    Follows(6, 17, 19);
  }

  lemma Primes8()
    ensures NthPrime(8, 23) && NthPrime(9, 29) && NthPrime(10, 31) && NthPrime(11, 37)
    ensures NthPrime(12, 41) && NthPrime(13, 43) && NthPrime(14, 47) && NthPrime(15, 53)
  {
    hide NthPrime, IsPrime;
    Primes0();
    Follows(7, 19, 23);
    Follows(8, 23, 29);
    Follows(9, 29, 31);
    Follows(10, 31, 37);
    Follows(11, 37, 41);
    Follows(12, 41, 43);
    Follows(13, 43, 47);
    Follows(14, 47, 53);
  }

  lemma Primes16()
    ensures NthPrime(16, 59) && NthPrime(17, 61) && NthPrime(18, 67) && NthPrime(19, 71)
    ensures NthPrime(20, 73) && NthPrime(21, 79) && NthPrime(22, 83) && NthPrime(23, 89)
  {
    hide NthPrime, IsPrime;
    Primes8();
    Follows(15, 53, 59);
    Follows(16, 59, 61);
    Follows(17, 61, 67);
    Follows(18, 67, 71);
    Follows(19, 71, 73);
    Follows(20, 73, 79);
    Follows(21, 79, 83);
    Follows(22, 83, 89);
  }

  lemma Primes24()
    ensures NthPrime(24, 97) && NthPrime(25, 101) && NthPrime(26, 103) && NthPrime(27, 107)
    ensures NthPrime(28, 109) && NthPrime(29, 113) && NthPrime(30, 127) && NthPrime(31, 131)
  {
    hide NthPrime, IsPrime;
    Primes16();
    Follows(23, 89, 97);
    Follows(24, 97, 101);
    Follows(25, 101, 103);
    Follows(26, 103, 107);
    Follows(27, 107, 109);
    Follows(28, 109, 113);
    Follows(29, 113, 127);
    Follows(30, 127, 131);
  }

  lemma Primes32()
    ensures NthPrime(32, 137) && NthPrime(33, 139) && NthPrime(34, 149) && NthPrime(35, 151)
    ensures NthPrime(36, 157) && NthPrime(37, 163) && NthPrime(38, 167) && NthPrime(39, 173)
  {
    hide NthPrime, IsPrime;
    Primes24();
    Follows(31, 131, 137);
    Follows(32, 137, 139);
    Follows(33, 139, 149);
    Follows(34, 149, 151);
    Follows(35, 151, 157);
    Follows(36, 157, 163);
    Follows(37, 163, 167);
    Follows(38, 167, 173);
  }

  lemma Primes40()
    ensures NthPrime(40, 179) && NthPrime(41, 181) && NthPrime(42, 191) && NthPrime(43, 193)
    ensures NthPrime(44, 197) && NthPrime(45, 199) && NthPrime(46, 211) && NthPrime(47, 223)
  {
    hide NthPrime, IsPrime;
    Primes32();
    Follows(39, 173, 179);
    Follows(40, 179, 181);
    Follows(41, 181, 191);
    Follows(42, 191, 193);
    Follows(43, 193, 197);
    Follows(44, 197, 199);
    Follows(45, 199, 211);
    Follows(46, 211, 223);
  }

  lemma Primes48()
    ensures NthPrime(48, 227) && NthPrime(49, 229) && NthPrime(50, 233) && NthPrime(51, 239)
    ensures NthPrime(52, 241) && NthPrime(53, 251) && NthPrime(54, 257) && NthPrime(55, 263)
  {
    hide NthPrime, IsPrime;
    Primes40();
    Follows(47, 223, 227);
    Follows(48, 227, 229);
    Follows(49, 229, 233);
    Follows(50, 233, 239);
    Follows(51, 239, 241);
    Follows(52, 241, 251);
    Follows(53, 251, 257);
    Follows(54, 257, 263);
  }

  lemma Primes56()
    ensures NthPrime(56, 269) && NthPrime(57, 271) && NthPrime(58, 277) && NthPrime(59, 281)
    ensures NthPrime(60, 283) && NthPrime(61, 293) && NthPrime(62, 307) && NthPrime(63, 311)
  {
    hide NthPrime, IsPrime;
    Primes48();
    Follows(55, 263, 269);
    Follows(56, 269, 271);
    Follows(57, 271, 277);
    Follows(58, 277, 281);
    Follows(59, 281, 283);
    Follows(60, 283, 293);
    Follows(61, 293, 307);
    Follows(62, 307, 311);
  }

  lemma FirstPrime()
    ensures NthPrime(0, 2)
  {
  }

  lemma Constants0()
    ensures forall t | 0 <= t < 8 :: RoundConstant(t)
  {
    Primes0();
    hide RoundConstant, NthPrime;
    CubeRoot(0, 2, 0x1428a2f98);
    CubeRoot(1, 3, 0x171374491);
    CubeRoot(2, 5, 0x1b5c0fbcf);
    CubeRoot(3, 7, 0x1e9b5dba5);
    CubeRoot(4, 11, 0x23956c25b);
    CubeRoot(5, 13, 0x259f111f1);
    CubeRoot(6, 17, 0x2923f82a4);
    CubeRoot(7, 19, 0x2ab1c5ed5);
  }

  lemma Constants8()
    ensures forall t | 8 <= t < 16 :: RoundConstant(t)
  {
    Primes8();
    hide RoundConstant, NthPrime;
    CubeRoot(8, 23, 0x2d807aa98);
    CubeRoot(9, 29, 0x312835b01);
    CubeRoot(10, 31, 0x3243185be);
    CubeRoot(11, 37, 0x3550c7dc3);
    CubeRoot(12, 41, 0x372be5d74);
    CubeRoot(13, 43, 0x380deb1fe);
    CubeRoot(14, 47, 0x39bdc06a7);
    CubeRoot(15, 53, 0x3c19bf174);
  }

  lemma Constants16()
    ensures forall t | 16 <= t < 24 :: RoundConstant(t)
  {
    Primes16();
    hide RoundConstant, NthPrime;
    CubeRoot(16, 59, 0x3e49b69c1);
    CubeRoot(17, 61, 0x3efbe4786);
    CubeRoot(18, 67, 0x40fc19dc6);
    CubeRoot(19, 71, 0x4240ca1cc);
    CubeRoot(20, 73, 0x42de92c6f);
    CubeRoot(21, 79, 0x44a7484aa);
    CubeRoot(22, 83, 0x45cb0a9dc);
    CubeRoot(23, 89, 0x476f988da);
  }

  lemma Constants24()
    ensures forall t | 24 <= t < 32 :: RoundConstant(t)
  {
    Primes24();
    hide RoundConstant, NthPrime;
    CubeRoot(24, 97, 0x4983e5152);
    CubeRoot(25, 101, 0x4a831c66d);
    CubeRoot(26, 103, 0x4b00327c8);
    CubeRoot(27, 107, 0x4bf597fc7);
    CubeRoot(28, 109, 0x4c6e00bf3);
    CubeRoot(29, 113, 0x4d5a79147);
    CubeRoot(30, 127, 0x506ca6351);
    CubeRoot(31, 131, 0x514292967);
  }

  lemma Constants32()
    ensures forall t | 32 <= t < 40 :: RoundConstant(t)
  {
    Primes32();
    hide RoundConstant, NthPrime;
    CubeRoot(32, 137, 0x527b70a85);
    CubeRoot(33, 139, 0x52e1b2138);
    CubeRoot(34, 149, 0x54d2c6dfc);
    CubeRoot(35, 151, 0x553380d13);
    CubeRoot(36, 157, 0x5650a7354);
    CubeRoot(37, 163, 0x5766a0abb);
    CubeRoot(38, 167, 0x581c2c92e);
    CubeRoot(39, 173, 0x592722c85);
  }

  lemma Constants40()
    ensures forall t | 40 <= t < 48 :: RoundConstant(t)
  {
    Primes40();
    hide RoundConstant, NthPrime;
    CubeRoot(40, 179, 0x5a2bfe8a1);
    CubeRoot(41, 181, 0x5a81a664b);
    CubeRoot(42, 191, 0x5c24b8b70);
    CubeRoot(43, 193, 0x5c76c51a3);
    CubeRoot(44, 197, 0x5d192e819);
    CubeRoot(45, 199, 0x5d6990624);
    CubeRoot(46, 211, 0x5f40e3585);
    CubeRoot(47, 223, 0x6106aa070);
  }

  lemma Constants48()
    ensures forall t | 48 <= t < 56 :: RoundConstant(t)
  {
    Primes48();
    hide RoundConstant, NthPrime;
    CubeRoot(48, 227, 0x619a4c116);
    CubeRoot(49, 229, 0x61e376c08);
    CubeRoot(50, 233, 0x62748774c);
    CubeRoot(51, 239, 0x634b0bcb5);
    CubeRoot(52, 241, 0x6391c0cb3);
    CubeRoot(53, 251, 0x64ed8aa4a);
    CubeRoot(54, 257, 0x65b9cca4f);
    CubeRoot(55, 263, 0x6682e6ff3);
  }

  lemma Constants56()
    ensures forall t | 56 <= t < 64 :: RoundConstant(t)
  {
    Primes56();
    hide RoundConstant, NthPrime;
    CubeRoot(56, 269, 0x6748f82ee);
    CubeRoot(57, 271, 0x678a5636f);
    CubeRoot(58, 277, 0x684c87814);
    CubeRoot(59, 281, 0x68cc70208);
    CubeRoot(60, 283, 0x690befffa);
    CubeRoot(61, 293, 0x6a4506ceb);
    CubeRoot(62, 307, 0x6bef9a3f7);
    CubeRoot(63, 311, 0x6c67178f2);
  }

  /** The round constants are the fractional parts of the cube roots of the first 64
      primes, to 32 bits. */
  lemma RoundConstants(t: nat)
    requires t < 64
    ensures RoundConstant(t)
  {
    hide RoundConstant;
    Constants0();
    Constants8();
    Constants16();
    Constants24();
    Constants32();
    Constants40();
    Constants48();
    Constants56();
  }

  /** No other prime has that place. */
  lemma RoundConstantOf(t: nat, p: nat)
    requires t < 64 && NthPrime(t, p)
    ensures CubeRootBits(K(t), p)
  {
    RoundConstants(t);
    hide NthPrime, CubeRootBits;
    var q :| NthPrime(t, q) && CubeRootBits(K(t), q);
    NthPrimeUnique(t, p, q);
  }

  /** The initial hash value has those of the square roots of the first eight primes. */
  lemma InitialConstants()
    ensures var r := Initial();
      var h := [r.a, r.b, r.c, r.d, r.e, r.f, r.g, r.h];
      forall t | 0 <= t < 8 :: exists p :: NthPrime(t, p) && SquareRootBits(h[t], p)
  {
    Primes0();
    hide NthPrime, SquareRootBits;
    SquareRoot(0x6a09e667, 2, 0x16a09e667);
    SquareRoot(0xbb67ae85, 3, 0x1bb67ae85);
    SquareRoot(0x3c6ef372, 5, 0x23c6ef372);
    SquareRoot(0xa54ff53a, 7, 0x2a54ff53a);
    SquareRoot(0x510e527f, 11, 0x3510e527f);
    SquareRoot(0x9b05688c, 13, 0x39b05688c);
    SquareRoot(0x1f83d9ab, 17, 0x41f83d9ab);
    SquareRoot(0x5be0cd19, 19, 0x45be0cd19);
  }
}
