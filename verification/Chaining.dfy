/** Hashing a message block by block, in chunks of any size. */
module Chaining {
  type Step<!S> = (S, seq<bv8>) -> S

  /** The step applied to every complete block of the message in turn. */
  function Chain<S>(step: Step<S>, s: S, msg: seq<bv8>): S
    decreases |msg|
  {
    if |msg| < 64 then s else Chain(step, step(s, msg[..64]), msg[64..])
  }

  /** The bytes after the last complete block. */
  function Tail(msg: seq<bv8>): (t: seq<bv8>)
    ensures |t| == |msg| % 64
  {
    msg[|msg| / 64 * 64..]
  }

  lemma {:induction false} ChainAppend<S>(step: Step<S>, s: S, a: seq<bv8>, b: seq<bv8>)
    requires |a| % 64 == 0
    ensures Chain(step, s, a + b) == Chain(step, Chain(step, s, a), b)
    decreases |a|
  {
    if |a| == 0 {
      assert a + b == b;
    } else {
      assert (a + b)[..64] == a[..64] && (a + b)[64..] == a[64..] + b;
      ChainAppend(step, step(s, a[..64]), a[64..], b);
    }
  }

  lemma ChainBlock<S>(step: Step<S>, s: S, block: seq<bv8>)
    requires |block| == 64
    ensures Chain(step, s, block) == step(s, block)
  {
    assert block[..64] == block;
  }

  /** The bytes after the last complete block do not count yet. */
  lemma ChainWhole<S>(step: Step<S>, s: S, msg: seq<bv8>)
    ensures Chain(step, s, msg) == Chain(step, s, msg[..|msg| / 64 * 64])
  {
    hide Chain;
    var full := msg[..|msg| / 64 * 64];
    assert msg == full + Tail(msg);
    ChainAppend(step, s, full, Tail(msg));
    ChainShort(step, Chain(step, s, full), Tail(msg));
  }

  lemma ChainShort<S>(step: Step<S>, s: S, msg: seq<bv8>)
    requires |msg| < 64
    ensures Chain(step, s, msg) == s
  {
  }

  /** Bytes that do not complete a block wait behind the others. */
  lemma Buffered<S>(step: Step<S>, s: S, msg: seq<bv8>, data: seq<bv8>)
    requires |Tail(msg)| + |data| < 64
    ensures Chain(step, s, msg + data) == Chain(step, s, msg) && Tail(msg + data) == Tail(msg) + data
  {
    hide Chain;
    var full := msg[..|msg| / 64 * 64];
    assert |msg + data| / 64 == |msg| / 64;
    assert (msg + data)[..|msg| / 64 * 64] == full;
    ChainWhole(step, s, msg);
    ChainWhole(step, s, msg + data);
  }

  /** Bytes that complete a block pass it to the step. */
  lemma TailEmpty(msg: seq<bv8>, data: seq<bv8>)
    requires |Tail(msg)| + |data| == 64
    ensures |msg + data| % 64 == 0 && Tail(msg + data) == []
  {
  }

  lemma Completed<S>(step: Step<S>, s: S, msg: seq<bv8>, data: seq<bv8>)
    requires |Tail(msg)| + |data| == 64
    ensures Chain(step, s, msg + data) == step(Chain(step, s, msg), Tail(msg) + data) && Tail(msg + data) == []
    ensures |msg + data| % 64 == 0
  {
    hide Chain, Tail;
    TailEmpty(msg, data);
    var full := WholeBlocks(msg);
    ChainWhole(step, s, msg);
    assert msg + data == full + (Tail(msg) + data) by { assert msg == full + Tail(msg); }
    ChainAppend(step, s, full, Tail(msg) + data);
    ChainBlock(step, Chain(step, s, full), Tail(msg) + data);
  }

  lemma WholeBlocks(msg: seq<bv8>) returns (full: seq<bv8>)
    ensures full == msg[..|msg| / 64 * 64] && |full| % 64 == 0 && msg == full + Tail(msg)
  {
    full := msg[..|msg| / 64 * 64];
  }

  // ----- padding -----

  function Zeros(n: nat): (z: seq<bv8>)
    ensures |z| == n
  {
    seq(n, i => 0 as bv8)
  }

  /** The number of zero bytes between the mark and the length: the smallest that
      makes the padded message a multiple of 64 bytes long. */
  function Gap(n: nat): (z: nat)
    ensures z < 64 && (n + 1 + z + 8) % 64 == 0
  {
    (119 - n % 64) % 64
  }

  /** The padded message: section 5.1.1 of FIPS 180-4, and sections 3.1 and 3.2 of
      RFC 1321 with the other byte order of the length. */
  function Padded(msg: seq<bv8>, length: seq<bv8>): (p: seq<bv8>)
    requires |length| == 8
    ensures |p| % 64 == 0
  {
    msg + ([0x80] + Zeros(Gap(|msg|))) + length
  }

  /** `memcpy` or `memset` into the buffer. */
  method Fill(buf: array<bv8>, at: nat, data: seq<bv8>)
    requires buf.Length == 64 && at + |data| <= 64
    modifies buf
    ensures buf[..at] == old(buf[..at]) && buf[at..at + |data|] == data && buf[at + |data|..] == old(buf[at + |data|..])
    ensures buf[..at + |data|] == old(buf[..at]) + data
  {
    for i := 0 to |data|
      invariant buf[..at] == old(buf[..at]) && buf[at..at + i] == data[..i] && buf[at + i..] == old(buf[at + i..])
    {
      buf[at + i] := data[i];
      assert buf[at..at + (i + 1)] == buf[at..at + i] + [data[i]];
      assert buf[at + (i + 1)..] == old(buf[at + i..])[1..];
    }
    assert buf[..at + |data|] == buf[..at] + buf[at..at + |data|];
  }

  /** The first `k` bytes of the padding. */
  function Mark(k: nat): (s: seq<bv8>)
    requires k > 0
    ensures |s| == k
  {
    [0x80] + Zeros(k - 1)
  }

  lemma PaddedForm(msg: seq<bv8>, length: seq<bv8>)
    requires |length| == 8
    ensures |msg| % 64 < 56 ==> Padded(msg, length) == msg + (Mark(56 - |msg| % 64) + length)
    ensures |msg| % 64 >= 56 ==> Padded(msg, length) == msg + Mark(64 - |msg| % 64) + (Zeros(56) + length)
  {
    var r := |msg| % 64;
    if r < 56 {
      assert Gap(|msg|) == 55 - r;
    } else {
      assert Gap(|msg|) == 119 - r;
      assert Zeros(63 - r) + Zeros(56) == Zeros(119 - r);
    }
  }

  lemma NoTail(msg: seq<bv8>)
    requires |msg| % 64 == 0
    ensures Tail(msg) == []
  {
  }

  /** The message that was cut into chunks. */
  function Joined(chunks: seq<seq<bv8>>): seq<bv8> {
    if chunks == [] then [] else Joined(chunks[..|chunks| - 1]) + chunks[|chunks| - 1]
  }

  lemma JoinedStep(chunks: seq<seq<bv8>>, i: nat)
    requires i < |chunks|
    ensures Joined(chunks[..i + 1]) == Joined(chunks[..i]) + chunks[i]
  {
    assert chunks[..i + 1][..i] == chunks[..i];
  }

  lemma NothingJoined(chunks: seq<seq<bv8>>)
    ensures Joined(chunks[..0]) == []
  {
  }
}
