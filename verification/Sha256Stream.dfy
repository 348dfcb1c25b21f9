/** Hashing with SHA-256 in chunks. */
module Sha256Stream {
  import opened Sha256Standard
  import opened Sha256Block
  import opened Chaining
  import opened Endian

  const TWO64: nat := 0x1_0000_0000_0000_0000

  function HashStep(r: Registers, block: seq<bv8>): Registers {
    if |block| == 64 then Compress(r, block) else r
  }

  /** The bits of the message, as the 64-bit counter holds them. */
  function BitLength(msg: seq<bv8>): nat {
    8 * |msg| % TWO64
  }

  /** The hash value of the standard; messages of 2^64 bits and more are outside
      the standard, and their length is taken modulo 2^64. */
  function HashValue(msg: seq<bv8>): Registers {
    Chain(HashStep, Initial(), Padded(msg, BigEndian(8, BitLength(msg))))
  }

  function WordBytes(w: bv32): seq<bv8> {
    [((w >> 24) & 0xff) as bv8, ((w >> 16) & 0xff) as bv8, ((w >> 8) & 0xff) as bv8, (w & 0xff) as bv8]
  }

  function WordsBytes(w: seq<bv32>): (s: seq<bv8>)
    ensures |s| == 4 * |w|
  {
    if w == [] then [] else WordsBytes(w[..|w| - 1]) + WordBytes(w[|w| - 1])
  }

  /** The hash value as bytes. */
  function Digest(r: Registers): seq<bv8> {
    WordsBytes([r.a, r.b, r.c, r.d, r.e, r.f, r.g, r.h])
  }

  /** Encoding a word and decoding it again gives the word. */
  lemma WordRoundTrip(w: bv32)
    ensures var b := WordBytes(w); Decode32(b[0], b[1], b[2], b[3]) == w
  {
  }

  class Context {
    const state: array<bv32>
    const buf: array<bv8>
    var count: nat
    /** All bytes so far. */
    ghost var msg: seq<bv8>

    ghost predicate Valid()
      reads this, state, buf
    {
      && state.Length == 8 && buf.Length == 64
      && count == BitLength(msg)
      && View(state[..], 0) == Chain(HashStep, Initial(), msg)
      && buf[..|msg| % 64] == Tail(msg)
    }

    constructor ()
      ensures Valid() && fresh(state) && fresh(buf) && msg == []
    {
      state := new bv32[] [0x6a09e667, 0xbb67ae85, 0x3c6ef372, 0xa54ff53a, 0x510e527f, 0x9b05688c, 0x1f83d9ab,
        0x5be0cd19];
      buf := new bv8[64];
      count, msg := 0, [];
    }

    method Mix(block: seq<bv8>)
      requires state.Length == 8 && |block| == 64
      modifies state
      ensures View(state[..], 0) == HashStep(View(old(state[..]), 0), block)
    {
      Transform(state, block);
    }

    /** Bytes that do not complete a block. */
    method Keep(at: nat, data: seq<bv8>, ghost m: seq<bv8>)
      requires buf.Length == 64 && at == |m| % 64 && buf[..at] == Tail(m) && |data| < 64 - at
      modifies buf
      ensures buf[..|m + data| % 64] == Tail(m + data)
      ensures Chain(HashStep, Initial(), m + data) == Chain(HashStep, Initial(), m)
    {
      hide Chain, HashStep;
      Buffered(HashStep, Initial(), m, data);
      Fill(buf, at, data);
    }

    /** Bytes that complete the block in the buffer. */
    method Complete(at: nat, data: seq<bv8>)
      requires state.Length == 8 && buf.Length == 64 && at == |msg| % 64 && buf[..at] == Tail(msg) && |data| == 64 - at
      requires View(state[..], 0) == Chain(HashStep, Initial(), msg)
      modifies state, buf
      ensures View(state[..], 0) == Chain(HashStep, Initial(), msg + data) && |msg + data| % 64 == 0
    {
      hide View, Chain, HashStep, Tail;
      Completed(HashStep, Initial(), msg, data);
      Fill(buf, at, data);
      assert buf[..] == buf[..64];
      Mix(buf[..]);
    }

    /** `SHA256_Update`: the hash so far is that of the message with the chunk
        added, whatever the size of the chunk. */
    method Update(data: seq<bv8>)
      requires Valid()
      modifies this`count, this`msg, state, buf
      ensures Valid() && msg == old(msg) + data
    {
      hide View, Chain, HashStep, Tail, BitLength;
      var r := count / 8 % 64;
      Remainder(msg);
      CountAdds(msg, data);
      count := (count + 8 * |data|) % TWO64;
      if |data| < 64 - r {
        Keep(r, data, msg);
        msg := msg + data;
        return;
      }
      Complete(r, data[..64 - r]);
      var src := MixAll(data, 64 - r, msg);
      NoTail(msg + data[..src]);
      assert msg + data[..src] + data[src..] == msg + data;
      Keep(0, data[src..], msg + data[..src]);
      msg := msg + data;
    }

    /** The complete blocks of the chunk. */
    method MixAll(data: seq<bv8>, from: nat, ghost start: seq<bv8>) returns (src: nat)
      requires state.Length == 8 && from <= |data| && |start + data[..from]| % 64 == 0
      requires View(state[..], 0) == Chain(HashStep, Initial(), start + data[..from])
      modifies state
      ensures src <= |data| < src + 64 && |start + data[..src]| % 64 == 0
      ensures View(state[..], 0) == Chain(HashStep, Initial(), start + data[..src])
    {
      hide View, Chain, HashStep;
      src := from;
      while |data| - src >= 64
        invariant src <= |data| && |start + data[..src]| % 64 == 0
        invariant View(state[..], 0) == Chain(HashStep, Initial(), start + data[..src])
      {
        ghost var so := start + data[..src];
        var block := data[src..src + 64];
        assert so + block == start + data[..src + 64];
        ChainAppend(HashStep, Initial(), so, block);
        ChainBlock(HashStep, Chain(HashStep, Initial(), so), block);
        Mix(block);
        src := src + 64;
      }
    }

    /** `SHA256_Pad`: mark, zeros and the bit count, over one block or two. */
    method Pad()
      requires Valid()
      modifies state, buf
      ensures View(state[..], 0) == HashValue(msg)
    {
      hide View, Chain, HashStep, Tail, BitLength, Encode64, Mark, Padded;
      var r := count / 8 % 64;
      Remainder(msg);
      Encode64Big(count);
      PaddedForm(msg, Encode64(count));
      if r < 56 {
        Fill(buf, r, Mark(56 - r));
        Last(msg, r, Mark(56 - r));
      } else {
        Complete(r, Mark(64 - r));
        NoTail(msg + Mark(64 - r));
        Fill(buf, 0, Zeros(56));
        Last(msg + Mark(64 - r), 0, Zeros(56));
      }
    }

    /** The bit count completes the last block. */
    method Last(ghost m: seq<bv8>, ghost r: nat, ghost mark: seq<bv8>)
      requires state.Length == 8 && buf.Length == 64
      requires r == |m| % 64 && r + |mark| == 56 && buf[..56] == Tail(m) + mark
      requires View(state[..], 0) == Chain(HashStep, Initial(), m)
      modifies state, buf
      ensures View(state[..], 0) == Chain(HashStep, Initial(), m + (mark + Encode64(count)))
    {
      hide View, Chain, HashStep, Tail, Encode64;
      CountSize(count);
      Completed(HashStep, Initial(), m, mark + Encode64(count));
      Fill(buf, 56, Encode64(count));
      assert buf[..] == buf[..64];
      assert Tail(m) + mark + Encode64(count) == Tail(m) + (mark + Encode64(count));
      Mix(buf[..]);
    }

    /** `SHA256_Final`: the digest of everything that was put in. */
    method Final(digest: array<bv8>)
      requires Valid() && digest.Length == 32 && digest != buf
      modifies state, buf, digest
      ensures digest[..] == Digest(HashValue(msg))
    {
      hide HashValue, WordBytes, View, WordsBytes;
      Pad();
      assert digest[..0] == WordsBytes(state[..0]);
      for i := 0 to 8
        invariant View(state[..], 0) == HashValue(msg)
        invariant digest[..4 * i] == WordsBytes(state[..i])
      {
        Write(digest, 4 * i, state[i]);
        WordsBytesSnoc(state[..i], state[i]);
        assert state[..i + 1] == state[..i] + [state[i]];
      }
      assert state[..8] == state[..];
      AllWords(state[..]);
    }

    /** `be32enc` into the digest. */
    method Write(digest: array<bv8>, at: nat, w: bv32)
      requires at + 4 <= digest.Length
      modifies digest
      ensures digest[..at + 4] == old(digest[..at]) + WordBytes(w)
    {
      hide WordBytes;
      BytesOf(w);
      var b := WordBytes(w);
      digest[at], digest[at + 1], digest[at + 2], digest[at + 3] := b[0], b[1], b[2], b[3];
      assert digest[..at + 4] == digest[..at] + b;
    }
  }

  lemma CountSize(count: nat)
    ensures |Encode64(count)| == 8
  {
  }

  lemma WordsBytesSnoc(w: seq<bv32>, x: bv32)
    ensures WordsBytes(w + [x]) == WordsBytes(w) + WordBytes(x)
  {
    assert (w + [x])[..|w|] == w;
  }

  lemma BytesOf(w: bv32)
    ensures |WordBytes(w)| == 4
  {
  }

  lemma AllWords(s: seq<bv32>)
    requires |s| == 8
    ensures WordsBytes(s) == Digest(View(s, 0))
  {
    hide WordsBytes;
    var r := View(s, 0);
    assert s == [r.a, r.b, r.c, r.d, r.e, r.f, r.g, r.h];
  }

  lemma Remainder(msg: seq<bv8>)
    ensures BitLength(msg) / 8 % 64 == |msg| % 64
  {
    var n := |msg|;
    var q, r := n / 0x2000_0000_0000_0000, n % 0x2000_0000_0000_0000;
    assert 8 * n == TWO64 * q + 8 * r;
    DivUnique(8 * n, TWO64, q, 8 * r);
    assert n == 64 * (0x80_0000_0000_0000 * q) + r;
    assert r == 64 * (r / 64) + r % 64;
    DivUnique(n, 64, 0x80_0000_0000_0000 * q + r / 64, r % 64);
  }

  lemma CountAdds(msg: seq<bv8>, data: seq<bv8>)
    ensures (BitLength(msg) + 8 * |data|) % TWO64 == BitLength(msg + data)
  {
  }

  /** The digest does not depend on how the message is cut into chunks. */
  method Hash(chunks: seq<seq<bv8>>) returns (digest: array<bv8>)
    ensures digest.Length == 32 && digest[..] == Digest(HashValue(Joined(chunks)))
  {
    hide HashValue, Digest, Joined, Chain, HashStep, Tail;
    var context := new Context();
    NothingJoined(chunks);
    for i := 0 to |chunks|
      invariant context.Valid() && fresh(context) && fresh(context.state) && fresh(context.buf)
      invariant context.msg == Joined(chunks[..i])
    {
      JoinedStep(chunks, i);
      context.Update(chunks[i]);
    }
    assert chunks[..|chunks|] == chunks;
    digest := new bv8[32];
    context.Final(digest);
  }
}
