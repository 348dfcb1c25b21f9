/** The definitions of RFC 1321, sections 3.3 and 3.4. */
module Md5Standard {
  import opened Words

  function RotL(x: bv32, n: bv32): bv32
    requires 0 < n < 32
  {
    (x << n) | (x >> (32 - n))
  }

  /** The four auxiliary functions. */
  function Auxiliary(round: nat, x: bv32, y: bv32, z: bv32): bv32
    requires round < 4
  {
    if round == 0 then (x & y) | (!x & z)
    else if round == 1 then (x & z) | (y & !z)
    else if round == 2 then x ^ y ^ z
    else y ^ (x | !z)
  }

  /** The word of the block that operation `t` adds. */
  function Index(t: nat): (k: nat)
    requires t < 64
    ensures k < 16
  {
    if t < 16 then t else if t < 32 then (1 + 5 * t) % 16 else if t < 48 then (5 + 3 * t) % 16 else 7 * t % 16
  }

  function Shift(t: nat): (s: bv32)
    requires t < 64
    ensures 0 < s < 32
  {
    var row: seq<bv32> :=
      match t / 16
      case 0 => [7, 12, 17, 22]
      case 1 => [5, 9, 14, 20]
      case 2 => [4, 11, 16, 23]
      case _ => [6, 10, 15, 21];
    row[t % 4]
  }

  /** The table of constants derived from the sine function. */
  function Sine(t: nat): bv32
    requires t < 64
  {
    var row: seq<bv32> :=
      match t / 8
      case 0 => [0xd76aa478, 0xe8c7b756, 0x242070db, 0xc1bdceee, 0xf57c0faf, 0x4787c62a, 0xa8304613, 0xfd469501]
      case 1 => [0x698098d8, 0x8b44f7af, 0xffff5bb1, 0x895cd7be, 0x6b901122, 0xfd987193, 0xa679438e, 0x49b40821]
      case 2 => [0xf61e2562, 0xc040b340, 0x265e5a51, 0xe9b6c7aa, 0xd62f105d, 0x02441453, 0xd8a1e681, 0xe7d3fbc8]
      case 3 => [0x21e1cde6, 0xc33707d6, 0xf4d50d87, 0x455a14ed, 0xa9e3e905, 0xfcefa3f8, 0x676f02d9, 0x8d2a4c8a]
      case 4 => [0xfffa3942, 0x8771f681, 0x6d9d6122, 0xfde5380c, 0xa4beea44, 0x4bdecfa9, 0xf6bb4b60, 0xbebfbc70]
      case 5 => [0x289b7ec6, 0xeaa127fa, 0xd4ef3085, 0x04881d05, 0xd9d4d039, 0xe6db99e5, 0x1fa27cf8, 0xc4ac5665]
      case 6 => [0xf4292244, 0x432aff97, 0xab9423a7, 0xfc93a039, 0x655b59c3, 0x8f0ccc92, 0xffeff47d, 0x85845dd1]
      case _ => [0x6fa87e4f, 0xfe2ce6e0, 0xa3014314, 0x4e0811a1, 0xf7537e82, 0xbd3af235, 0x2ad7d2bb, 0xeb86d391];
    row[t % 8]
  }

  /** Word `k` of a block, little-endian. */
  function WordOf(block: seq<bv8>, k: nat): bv32
    requires |block| == 64 && k < 16
  {
    (block[4 * k] as bv32) | ((block[4 * k + 1] as bv32) << 8)
    | ((block[4 * k + 2] as bv32) << 16) | ((block[4 * k + 3] as bv32) << 24)
  }

  datatype Quad = Quad(a: bv32, b: bv32, c: bv32, d: bv32)

  /** One operation; the registers change their names after it. */
  function Operation(q: Quad, block: seq<bv8>, t: nat): Quad
    requires |block| == 64 && t < 64
  {
    var sum := Add(Add3(q.a, Auxiliary(t / 16, q.b, q.c, q.d), WordOf(block, Index(t))), Sine(t));
    Quad(q.d, Add(q.b, RotL(sum, Shift(t))), q.b, q.c)
  }

  function Operations(q: Quad, block: seq<bv8>, t: nat): Quad
    requires |block| == 64 && t <= 64
  {
    if t == 0 then q else Operation(Operations(q, block, t - 1), block, t - 1)
  }

  function Sum4(q: Quad, r: Quad): Quad {
    Quad(Add(q.a, r.a), Add(q.b, r.b), Add(q.c, r.c), Add(q.d, r.d))
  }

  function Compress(q: Quad, block: seq<bv8>): Quad
    requires |block| == 64
  {
    Sum4(q, Operations(q, block, 64))
  }

  function Initial(): Quad {
    Quad(0x67452301, 0xefcdab89, 0x98badcfe, 0x10325476)
  }
}

/** The block function with its unrolled steps. */
module Md5Block {
  import opened Words
  import opened Md5Standard

  /** The words that the unrolled steps of a round name. */
  function StepWords(round: nat): (k: seq<nat>)
    requires round < 4
    ensures |k| == 16
  {
    if round == 0 then [0, 1, 2, 3, 4, 5, 6, 7, 8, 9, 10, 11, 12, 13, 14, 15]
    else if round == 1 then [1, 6, 11, 0, 5, 10, 15, 4, 9, 14, 3, 8, 13, 2, 7, 12]
    else if round == 2 then [5, 8, 11, 14, 1, 4, 7, 10, 13, 0, 3, 6, 9, 12, 15, 2]
    else [0, 7, 14, 5, 12, 3, 10, 1, 8, 15, 6, 13, 4, 11, 2, 9]
  }

  function StepIndex(t: nat): (k: nat)
    requires t < 64
    ensures k == Index(t)
  {
    StepWordsAt(t);
    StepWords(t / 16)[t % 16]
  }

  lemma FirstRow(i: nat)
    requires i < 16
    ensures [0, 1, 2, 3, 4, 5, 6, 7, 8, 9, 10, 11, 12, 13, 14, 15][i] == i
  {
  }

  lemma SecondRow(i: nat)
    requires i < 16
    ensures [1, 6, 11, 0, 5, 10, 15, 4, 9, 14, 3, 8, 13, 2, 7, 12][i] == (1 + 5 * (16 + i)) % 16
  {
  }

  lemma ThirdRow(i: nat)
    requires i < 16
    ensures [5, 8, 11, 14, 1, 4, 7, 10, 13, 0, 3, 6, 9, 12, 15, 2][i] == (5 + 3 * (32 + i)) % 16
  {
  }

  lemma FourthRow(i: nat)
    requires i < 16
    ensures [0, 7, 14, 5, 12, 3, 10, 1, 8, 15, 6, 13, 4, 11, 2, 9][i] == 7 * (48 + i) % 16
  {
  }

  lemma StepWordsAt(t: nat)
    requires t < 64
    ensures StepWords(t / 16)[t % 16] == Index(t)
  {
    if t < 16 {
      FirstRow(t);
    } else if t < 32 {
      SecondRow(t - 16);
    } else if t < 48 {
      ThirdRow(t - 32);
    } else {
      FourthRow(t - 48);
    }
  }

  /** The auxiliary functions as the steps compute them; the third is grouped
      differently in every other step. */
  function StepFunction(t: nat, x: bv32, y: bv32, z: bv32): bv32
    requires t < 64
  {
    if t < 16 then z ^ (x & (y ^ z))
    else if t < 32 then y ^ (z & (x ^ y))
    else if t < 48 then if t % 2 == 0 then (x ^ y) ^ z else x ^ (y ^ z)
    else y ^ (x | !z)
  }

  lemma FirstBits(x: bv32, y: bv32, z: bv32)
    ensures z ^ (x & (y ^ z)) == (x & y) | (!x & z)
  {
  }

  lemma SecondBits(x: bv32, y: bv32, z: bv32)
    ensures y ^ (z & (x ^ y)) == (x & z) | (y & !z)
  {
  }

  lemma ThirdBits(x: bv32, y: bv32, z: bv32)
    ensures x ^ (y ^ z) == (x ^ y) ^ z
  {
  }

  lemma StepIsAuxiliary(t: nat, x: bv32, y: bv32, z: bv32)
    requires t < 64
    ensures StepFunction(t, x, y, z) == Auxiliary(t / 16, x, y, z)
  {
    FirstBits(x, y, z);
    SecondBits(x, y, z);
    ThirdBits(x, y, z);
  }

  /** The rotation masks a value that has no more than 32 bits. */
  function StepRotate(a: bv32, s: bv32): bv32
    requires 0 < s < 32
  {
    (a << s) | ((a & 0xffffffff) >> (32 - s))
  }

  lemma MaskedBits(a: bv32)
    ensures a & 0xffffffff == a
  {
  }

  lemma StepRotates(a: bv32, s: bv32)
    requires 0 < s < 32
    ensures StepRotate(a, s) == RotL(a, s)
  {
    MaskedBits(a);
  }

  /** One step, which updates `a`. */
  function Stepped(t: nat, a: bv32, b: bv32, c: bv32, d: bv32, block: seq<bv8>): bv32
    requires |block| == 64 && t < 64
  {
    Add(StepRotate(Add(a, Add3(StepFunction(t, b, c, d), WordOf(block, StepIndex(t)), Sine(t))), Shift(t)), b)
  }

  lemma SteppedIsOperation(t: nat, q: Quad, block: seq<bv8>)
    requires |block| == 64 && t < 64
    ensures Operation(q, block, t) == Quad(q.d, Stepped(t, q.a, q.b, q.c, q.d, block), q.b, q.c)
  {
    hide Add, Add3, StepRotate, RotL, StepFunction, Auxiliary, WordOf, Sine, Shift, Index, StepIndex;
    StepIsAuxiliary(t, q.b, q.c, q.d);
    var f, x, s := Auxiliary(t / 16, q.b, q.c, q.d), WordOf(block, Index(t)), Sine(t);
    QuadSum(q.a, f, x, s);
    var sum := Add(Add3(q.a, f, x), s);
    StepRotates(sum, Shift(t));
    AddLaws(RotL(sum, Shift(t)), q.b, 0);
  }

  lemma QuadSum(a: bv32, f: bv32, x: bv32, s: bv32)
    ensures Add(a, Add3(f, x, s)) == Add(Add3(a, f, x), s)
  {
    hide Add;
    AddLaws(a, Add(f, x), s);
    AddLaws(a, f, x);
  }

  lemma FourOperations(q: Quad, block: seq<bv8>, t: nat)
    requires |block| == 64 && t <= 60
    ensures Operations(q, block, t + 4)
         == Operation(Operation(Operation(Operation(Operations(q, block, t), block, t), block, t + 1), block, t + 2),
           block, t + 3)
  {
    hide Operation;
    assert Operations(q, block, t + 1) == Operation(Operations(q, block, t), block, t);
    assert Operations(q, block, t + 2) == Operation(Operations(q, block, t + 1), block, t + 1);
    assert Operations(q, block, t + 3) == Operation(Operations(q, block, t + 2), block, t + 2);
  }

  /** One pass of the block loop computes the standard's step. */
  method Body(q: Quad, block: seq<bv8>) returns (r: Quad)
    requires |block| == 64
    ensures r == Compress(q, block)
  {
    hide Stepped, Operation, Operations, Add;
    var a, b, c, d := q.a, q.b, q.c, q.d;
    assert Operations(q, block, 0) == q by { NoOperations(q, block); }
    for g := 0 to 16
      invariant Quad(a, b, c, d) == Operations(q, block, 4 * g)
    {
      var t := 4 * g;
      FourOperations(q, block, t);
      SteppedIsOperation(t, Quad(a, b, c, d), block);
      a := Stepped(t, a, b, c, d, block);
      SteppedIsOperation(t + 1, Quad(d, a, b, c), block);
      d := Stepped(t + 1, d, a, b, c, block);
      SteppedIsOperation(t + 2, Quad(c, d, a, b), block);
      c := Stepped(t + 2, c, d, a, b, block);
      SteppedIsOperation(t + 3, Quad(b, c, d, a), block);
      b := Stepped(t + 3, b, c, d, a, block);
    }
    r := Quad(Add(a, q.a), Add(b, q.b), Add(c, q.c), Add(d, q.d));
    AddLaws(a, q.a, 0);
    AddLaws(b, q.b, 0);
    AddLaws(c, q.c, 0);
    AddLaws(d, q.d, 0);
  }

  lemma NoOperations(q: Quad, block: seq<bv8>)
    requires |block| == 64
    ensures Operations(q, block, 0) == q
  {
  }
}
