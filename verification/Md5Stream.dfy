/** Hashing with MD5 in chunks. */
module Md5Stream {
  import opened Md5Standard
  import opened Md5Block
  import opened Chaining
  import opened Endian

  const TWO29: nat := 0x2000_0000
  const TWO32: nat := 0x1_0000_0000
  const TWO64: nat := 0x1_0000_0000_0000_0000

  function HashStep(q: Quad, block: seq<bv8>): Quad {
    if |block| == 64 then Compress(q, block) else q
  }

  /** The hash value of the standard, which uses the length modulo 2^64. */
  function HashValue(msg: seq<bv8>): Quad {
    Chain(HashStep, Initial(), Padded(msg, LittleEndian(8, 8 * |msg| % TWO64)))
  }

  function WordBytes(w: bv32): seq<bv8> {
    [(w & 0xff) as bv8, ((w >> 8) & 0xff) as bv8, ((w >> 16) & 0xff) as bv8, ((w >> 24) & 0xff) as bv8]
  }

  function Digest(q: Quad): seq<bv8> {
    WordBytes(q.a) + WordBytes(q.b) + WordBytes(q.c) + WordBytes(q.d)
  }

  // ----- the split counter -----

  /** The bytes of the message modulo 2^29, and how often they overflowed. */
  predicate Counts(lo: nat, hi: nat, n: nat) {
    lo == n % TWO29 && hi == n / TWO29 % TWO32
  }

  /** The carry is detected by the low part becoming smaller. */
  lemma CounterAdds(lo: nat, hi: nat, n: nat, size: nat)
    requires Counts(lo, hi, n)
    ensures var low := (lo + size) % TWO29;
      Counts(low, ((if low < lo then (hi + 1) % TWO32 else hi) + size / TWO29) % TWO32, n + size)
  {
    var low := (lo + size) % TWO29;
    var a, b, s := n / TWO29, size / TWO29, size % TWO29;
    var carry := if lo + s >= TWO29 then 1 else 0;
    assert n + size == TWO29 * (a + b + carry) + (lo + s - TWO29 * carry);
    DivUnique(n + size, TWO29, a + b + carry, lo + s - TWO29 * carry);
    DivUnique(lo + size, TWO29, b + carry, lo + s - TWO29 * carry);
    assert low < lo <==> carry == 1;
    HighAdds(a, b, carry);
  }

  lemma HighAdds(a: nat, b: nat, carry: nat)
    requires carry <= 1
    ensures ((if carry == 1 then (a % TWO32 + 1) % TWO32 else a % TWO32) + b) % TWO32 == (a + b + carry) % TWO32
  {
  }

  /** The two parts encode the number of bits modulo 2^64. */
  lemma CounterBits(lo: nat, hi: nat, n: nat)
    requires Counts(lo, hi, n)
    ensures 8 * n % TWO64 == TWO32 * hi + 8 * lo && 8 * lo < TWO32 && 8 * lo % TWO32 == 8 * lo
  {
    var a := n / TWO29;
    var b := a / TWO32;
    assert 8 * n == TWO64 * b + (TWO32 * hi + 8 * lo);
    DivUnique(8 * n, TWO64, b, TWO32 * hi + 8 * lo);
  }

  lemma CounterRemainder(lo: nat, hi: nat, n: nat)
    requires Counts(lo, hi, n)
    ensures lo % 64 == n % 64
  {
  }

  /** How the padding of the message looks in terms of the counter. */
  lemma PaddedMessage(lo: nat, hi: nat, msg: seq<bv8>)
    requires Counts(lo, hi, |msg|)
    ensures lo % 64 == |msg| % 64 && 8 * lo < TWO32
    ensures var length := Encode32Little(8 * lo) + Encode32Little(hi);
      Padded(msg, LittleEndian(8, 8 * |msg| % TWO64))
      == if lo % 64 < 56 then msg + (Mark(56 - lo % 64) + length) else msg + Mark(64 - lo % 64) + (Zeros(56) + length)
  {
    hide Mark, Padded, Counts, LittleEndian, Encode32Little, Zeros;
    CounterRemainder(lo, hi, |msg|);
    CounterBits(lo, hi, |msg|);
    EncodeHalvesLittle(8 * lo, hi);
    PaddedForm(msg, LittleEndian(8, 8 * |msg| % TWO64));
  }

  class Context {
    var q: Quad
    var lo: nat
    var hi: nat
    const buffer: array<bv8>
    /** All bytes so far. */
    ghost var msg: seq<bv8>

    ghost predicate Valid()
      reads this, buffer
    {
      && buffer.Length == 64
      && Counts(lo, hi, |msg|)
      && q == Chain(HashStep, Initial(), msg)
      && buffer[..|msg| % 64] == Tail(msg)
    }

    constructor ()
      ensures Valid() && fresh(buffer) && msg == []
    {
      q := Quad(0x67452301, 0xefcdab89, 0x98badcfe, 0x10325476);
      buffer := new bv8[64];
      lo, hi, msg := 0, 0, [];
    }

    /** `MD5_body`: one or more complete blocks; returns where they end. */
    method Blocks(data: seq<bv8>, from: nat, size: nat) returns (to: nat)
      requires 0 < size && size % 64 == 0 && from + size <= |data|
      modifies this`q
      ensures to == from + size && q == Chain(HashStep, old(q), data[from..to])
    {
      hide Chain, HashStep, Compress;
      to := from;
      var left := size;
      NoBlock(q);
      assert data[from..from] == [];
      while left > 0
        invariant to == from + (size - left) && left % 64 == 0 && 0 <= left <= size
        invariant q == Chain(HashStep, old(q), data[from..to])
      {
        ghost var block := data[to..to + 64];
        assert data[from..to] + block == data[from..to + 64];
        ChainAppend(HashStep, old(q), data[from..to], block);
        ChainBlock(HashStep, q, block);
        Steps(q, block);
        q := Body(q, data[to..to + 64]);
        to, left := to + 64, left - 64;
      }
    }

    /** Bytes that do not complete a block. */
    method Keep(at: nat, data: seq<bv8>, ghost m: seq<bv8>)
      requires buffer.Length == 64 && at == |m| % 64 && buffer[..at] == Tail(m) && |data| < 64 - at
      modifies buffer
      ensures buffer[..|m + data| % 64] == Tail(m + data)
      ensures Chain(HashStep, Initial(), m + data) == Chain(HashStep, Initial(), m)
    {
      hide Chain, HashStep;
      Buffered(HashStep, Initial(), m, data);
      Fill(buffer, at, data);
    }

    /** Bytes that complete the block in the buffer. */
    method Complete(at: nat, data: seq<bv8>, ghost m: seq<bv8>)
      requires buffer.Length == 64 && at == |m| % 64 && buffer[..at] == Tail(m) && |data| == 64 - at
      requires q == Chain(HashStep, Initial(), m)
      modifies this`q, buffer
      ensures q == Chain(HashStep, Initial(), m + data) && |m + data| % 64 == 0
    {
      hide Chain, HashStep, Tail;
      Completed(HashStep, Initial(), m, data);
      Fill(buffer, at, data);
      assert buffer[..] == buffer[..64];
      ghost var block := buffer[..];
      ChainBlock(HashStep, q, block);
      assert block[0..64] == block;
      var _ := Blocks(buffer[..], 0, 64);
    }

    /** `MD5_hash`. */
    method Update(data: seq<bv8>)
      requires Valid()
      modifies this, buffer
      ensures Valid() && msg == old(msg) + data
    {
      hide Chain, HashStep, Tail, Counts;
      var used := lo % 64;
      CounterRemainder(lo, hi, |msg|);
      Count(|data|);
      var src := 0;
      if used != 0 {
        var available := 64 - used;
        if |data| < available {
          Keep(used, data, msg);
          msg := msg + data;
          return;
        }
        Complete(used, data[..available], msg);
        src := available;
      }
      assert used == 0 ==> msg + data[..0] == msg;
      src := CompleteBlocks(data, src, msg);
      NoTail(msg + data[..src]);
      assert msg + data[..src] + data[src..] == msg + data;
      Keep(0, data[src..], msg + data[..src]);
      msg := msg + data;
    }

    method Count(size: nat)
      requires Counts(lo, hi, |msg|)
      modifies this`lo, this`hi
      ensures Counts(lo, hi, |msg| + size)
    {
      var saved := lo;
      CounterAdds(lo, hi, |msg|, size);
      hide Counts;
      lo := (saved + size) % TWO29;
      if lo < saved {
        hi := (hi + 1) % TWO32;
      }
      hi := (hi + size / TWO29) % TWO32;
    }

    /** The complete blocks of the chunk. */
    method CompleteBlocks(data: seq<bv8>, from: nat, ghost m: seq<bv8>) returns (src: nat)
      requires from <= |data| && |m + data[..from]| % 64 == 0 && q == Chain(HashStep, Initial(), m + data[..from])
      modifies this`q
      ensures src <= |data| < src + 64 && |m + data[..src]| % 64 == 0
      ensures q == Chain(HashStep, Initial(), m + data[..src])
    {
      hide Chain, HashStep;
      src := from;
      if |data| - src >= 64 {
        var whole := (|data| - src) / 64 * 64;
        assert m + data[..src] + data[src..src + whole] == m + data[..src + whole];
        ChainAppend(HashStep, Initial(), m + data[..src], data[src..src + whole]);
        src := Blocks(data, src, whole);
      }
    }

    /** `MD5_end`. */
    method Final(result: array<bv8>)
      requires Valid() && result.Length == 16 && result != buffer
      modifies this`q, this`lo, buffer, result
      ensures result[..] == Digest(HashValue(msg))
    {
      hide HashValue, WordBytes;
      Pad();
      var digest := Digest(q);
      DigestSize(q);
      forall i | 0 <= i < 16 { result[i] := digest[i]; }
    }

    method Pad()
      requires Valid()
      modifies this`q, this`lo, buffer
      ensures q == HashValue(msg)
    {
      hide Chain, HashStep, Tail, Counts, Mark, Padded, Encode32Little, LittleEndian;
      var used := lo % 64;
      PaddedMessage(lo, hi, msg);
      var available := 63 - used;
      ghost var m := msg + Mark(64 - used);
      if available < 8 {
        Complete(used, Mark(64 - used), msg);
        NoTail(m);
        Fill(buffer, 0, Zeros(56));
        Last(m, 0, Zeros(56));
      } else {
        Fill(buffer, used, Mark(56 - used));
        Last(msg, used, Mark(56 - used));
      }
    }

    /** The length completes the last block. */
    method Last(ghost m: seq<bv8>, ghost used: nat, ghost mark: seq<bv8>)
      requires buffer.Length == 64 && used == |m| % 64 && used + |mark| == 56 && buffer[..56] == Tail(m) + mark
      requires 8 * lo < TWO32 && q == Chain(HashStep, Initial(), m)
      modifies this`q, this`lo, buffer
      ensures q == Chain(HashStep, Initial(), m + (mark + (Encode32Little(8 * old(lo)) + Encode32Little(hi))))
    {
      hide Chain, HashStep, Tail, Encode32Little;
      lo := 8 * lo % TWO32;
      LittleSize(lo, hi);
      ghost var length := Encode32Little(lo) + Encode32Little(hi);
      Completed(HashStep, Initial(), m, mark + length);
      Fill(buffer, 56, Encode32Little(lo) + Encode32Little(hi));
      ghost var block := buffer[..];
      assert block == buffer[..64] == Tail(m) + (mark + length);
      ChainBlock(HashStep, q, block);
      assert block[0..64] == block;
      var _ := Blocks(buffer[..], 0, 64);
    }
  }

  lemma LittleSize(lo: nat, hi: nat)
    ensures |Encode32Little(lo) + Encode32Little(hi)| == 8
  {
  }

  lemma DigestSize(q: Quad)
    ensures |Digest(q)| == 16
  {
  }

  lemma NoBlock(q: Quad)
    ensures Chain(HashStep, q, []) == q
  {
  }

  lemma Steps(q: Quad, block: seq<bv8>)
    requires |block| == 64
    ensures HashStep(q, block) == Compress(q, block)
  {
  }

  /** The digest does not depend on how the message is cut into chunks. */
  method Hash(chunks: seq<seq<bv8>>) returns (digest: array<bv8>)
    ensures digest.Length == 16 && digest[..] == Digest(HashValue(Joined(chunks)))
  {
    hide HashValue, Digest, Joined, Chain, HashStep, Tail;
    var context := new Context();
    NothingJoined(chunks);
    for i := 0 to |chunks|
      invariant context.Valid() && fresh(context) && fresh(context.buffer)
      invariant context.msg == Joined(chunks[..i])
    {
      JoinedStep(chunks, i);
      context.Update(chunks[i]);
    }
    assert chunks[..|chunks|] == chunks;
    digest := new bv8[16];
    context.Final(digest);
  }
}
