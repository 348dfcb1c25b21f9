/** Padding an image to several alignments, with a marker at each. */
module PadImage {
  import opened Endian

  const BUF_SIZE: nat := 0x1_0000
  const TWO32: nat := 0x1_0000_0000

  /** What is written at an aligned offset. */
  datatype Marker = EndOfFile | BigPad | LittlePad

  function Bytes(m: Marker): (b: seq<bv8>)
    ensures 0 < |b| < 1024
  {
    match m
    case EndOfFile => [0xde, 0xad, 0xc0, 0xde]
    case BigPad => [0x19, 0x85, 0x20, 0x04, 0x04, 0x00, 0x00, 0x00, 0xc4, 0x94, 0xdb, 0xf4]
    case LittlePad => [0x85, 0x19, 0x04, 0x20, 0x00, 0x00, 0x00, 0x04, 0xa8, 0xfb, 0xa0, 0xb4]
  }

  // ----- alignment -----

  function Pow2(i: nat): (p: nat)
    ensures p > 0
  {
    if i == 0 then 1 else 2 * Pow2(i - 1)
  }

  predicate Aligned(x: nat, i: nat) {
    x % Pow2(i) == 0
  }

  /** The first offset at or after `from` that is aligned to 2^i. */
  ghost predicate FirstAligned(x: nat, from: nat, i: nat) {
    from <= x && Aligned(x, i) && forall y | from <= y < x :: !Aligned(y, i)
  }

  /** Rounding up as the macro computes it: the mask has 32 bits, so the result is
      cut to 32 bits. */
  function AlignUp(x: nat, i: nat): nat {
    (x + Pow2(i) - 1) / Pow2(i) * Pow2(i)
  }

  function Align(x: nat, i: nat): nat {
    AlignUp(x, i) % TWO32
  }

  lemma MultipleAligned(a: nat, i: nat)
    ensures Aligned(a * Pow2(i), i)
  {
    DivUnique(Pow2(i) * a, Pow2(i), a, 0);
  }

  lemma AlignedMultiple(x: nat, i: nat)
    requires Aligned(x, i)
    ensures x == x / Pow2(i) * Pow2(i)
  {
  }

  lemma AlignUpFirst(x: nat, i: nat)
    ensures FirstAligned(AlignUp(x, i), x, i)
  {
    var m := Pow2(i);
    var q := (x + m - 1) / m;
    var r := (x + m - 1) % m;
    assert x + m - 1 == m * q + r;
    MultipleAligned(q, i);
    assert q * m == m * q;
    forall y | x <= y < q * m ensures !Aligned(y, i) {
      if Aligned(y, i) {
        AlignedMultiple(y, i);
        NoMultipleBetween(m, q, y / m, x, r);
        assert false;
      }
    }
  }

  lemma NoMultipleBetween(m: nat, q: nat, k: nat, x: nat, r: nat)
    requires x + m - 1 == m * q + r
    ensures k * m < x || k * m >= q * m
  {
    assert k * m == m * k && q * m == m * q;
    MultiplesApart(m, q, k);
    MultiplesApart(m, k, q);
  }

  /** The 32-bit mask gives the right offset exactly when that offset fits. */
  lemma AlignExact(x: nat, i: nat)
    ensures FirstAligned(Align(x, i), x, i) <==> AlignUp(x, i) < TWO32
  {
    AlignUpFirst(x, i);
    hide AlignUp, Aligned;
    if FirstAligned(Align(x, i), x, i) {
      FirstAlignedUnique(Align(x, i), AlignUp(x, i), x, i);
    }
  }

  lemma {:induction false} PowDivides(i: nat, j: nat)
    requires i <= j
    ensures Pow2(j) == Pow2(i) * Pow2(j - i)
  {
    if i < j { PowDivides(i, j - 1); }
  }

  /** Aligned to more is aligned to less. */
  lemma AlignedLess(x: nat, i: nat, j: nat)
    requires i <= j && Aligned(x, j)
    ensures Aligned(x, i)
  {
    AlignedMultiple(x, j);
    PowDivides(i, j);
    var q := x / Pow2(j);
    assert x == q * Pow2(j - i) * Pow2(i);
    MultipleAligned(q * Pow2(j - i), i);
  }

  lemma FirstAlignedUnique(x: nat, y: nat, from: nat, i: nat)
    requires FirstAligned(x, from, i) && FirstAligned(y, from, i)
    ensures x == y
  {
  }

  /** Going on from an offset that was aligned to less loses nothing. */
  lemma FirstAlignedOn(a: nat, b: nat, from: nat, i: nat, j: nat)
    requires FirstAligned(a, from, i) && i <= j && FirstAligned(b, a, j)
    ensures FirstAligned(b, from, j)
  {
    forall y | from <= y < b ensures !Aligned(y, j) {
      if y < a && Aligned(y, j) {
        AlignedLess(y, i, j);
      }
    }
  }

  /** An offset that happens to be aligned to more is the first of that kind. */
  lemma FirstAlignedMore(a: nat, from: nat, i: nat, j: nat)
    requires FirstAligned(a, from, i) && i <= j && Aligned(a, j)
    ensures FirstAligned(a, from, j)
  {
    FirstAlignedOn(a, a, from, i, j);
  }

  // ----- the padded part -----

  function Ones(n: nat): (s: seq<bv8>)
    ensures |s| == n
  {
    seq(n, _ => 0xff)
  }

  /** Increasing offsets from `start` on, at least `room` apart. */
  predicate Spaced(start: nat, marks: seq<nat>, room: nat) {
    && (forall k | 0 <= k < |marks| :: start <= marks[k])
    && (forall j, k | 0 <= j < k < |marks| :: marks[j] + room <= marks[k])
  }

  /** What is written from `start` on: a marker at each offset, 0xff between them. */
  function Laid(start: nat, marks: seq<nat>, pad: seq<bv8>): (s: seq<bv8>)
    requires Spaced(start, marks, |pad|)
    ensures |s| == if marks == [] then 0 else marks[|marks| - 1] + |pad| - start
  {
    if marks == [] then []
    else
      var before := Laid(start, marks[..|marks| - 1], pad);
      before + Ones(marks[|marks| - 1] - start - |before|) + pad
  }

  predicate InMarker(start: nat, marks: seq<nat>, pad: seq<bv8>, i: nat) {
    exists k | 0 <= k < |marks| :: marks[k] <= start + i < marks[k] + |pad|
  }

  lemma InMarkerParts(start: nat, marks: seq<nat>, pad: seq<bv8>, i: nat)
    requires marks != []
    ensures InMarker(start, marks[..|marks| - 1], pad, i) ==> InMarker(start, marks, pad, i)
    ensures marks[|marks| - 1] <= start + i < marks[|marks| - 1] + |pad| ==> InMarker(start, marks, pad, i)
  {
    var init := marks[..|marks| - 1];
    assert forall k | 0 <= k < |init| :: init[k] == marks[k];
  }

  predicate MarkerAt(s: seq<bv8>, o: nat, pad: seq<bv8>) {
    o + |pad| <= |s| && s[o..o + |pad|] == pad
  }

  /** Every marker is whole and at its offset. */
  lemma {:induction false} LaidMarkers(start: nat, marks: seq<nat>, pad: seq<bv8>, k: nat)
    requires Spaced(start, marks, |pad|) && k < |marks|
    ensures MarkerAt(Laid(start, marks, pad), marks[k] - start, pad)
    decreases |marks|
  {
    var init := marks[..|marks| - 1];
    var before, gap := LaidLast(start, marks, pad);
    hide Laid, MarkerAt, Spaced;
    if k < |init| {
      LaidMarkers(start, init, pad, k);
      assert init[k] == marks[k];
      MarkerKept(before, gap, pad, marks[k] - start, pad);
    } else {
      MarkerAdded(before, gap, pad);
    }
  }

  lemma LaidLast(start: nat, marks: seq<nat>, pad: seq<bv8>) returns (before: seq<bv8>, gap: seq<bv8>)
    requires Spaced(start, marks, |pad|) && marks != []
    ensures forall k | 0 <= k < |marks| :: start <= marks[k]
    ensures var init := marks[..|marks| - 1];
      && Spaced(start, init, |pad|) && before == Laid(start, init, pad)
      && |before| + |gap| == marks[|marks| - 1] - start && Laid(start, marks, pad) == before + gap + pad
  {
    before := Laid(start, marks[..|marks| - 1], pad);
    gap := Ones(marks[|marks| - 1] - start - |before|);
  }

  lemma MarkerKept(a: seq<bv8>, b: seq<bv8>, c: seq<bv8>, o: nat, pad: seq<bv8>)
    requires MarkerAt(a, o, pad)
    ensures MarkerAt(a + b + c, o, pad)
  {
    assert (a + b + c)[o..o + |pad|] == a[o..o + |pad|];
  }

  lemma MarkerAdded(a: seq<bv8>, b: seq<bv8>, pad: seq<bv8>)
    ensures MarkerAt(a + b + pad, |a| + |b|, pad)
  {
  }

  /** Every other byte is 0xff. */
  lemma {:induction false} LaidOnes(start: nat, marks: seq<nat>, pad: seq<bv8>, i: nat)
    requires Spaced(start, marks, |pad|) && i < |Laid(start, marks, pad)| && !InMarker(start, marks, pad, i)
    ensures Laid(start, marks, pad)[i] == 0xff
    decreases |marks|
  {
    var n := |marks| - 1;
    var before := Laid(start, marks[..n], pad);
    InMarkerParts(start, marks, pad, i);
    hide InMarker;
    if i < |before| {
      LaidOnes(start, marks[..n], pad, i);
    }
  }

  /** The requested alignments whose first aligned offset fits in 32 bits. */
  function Fitting(start: nat, bits: set<nat>): set<nat> {
    set i | i in bits && AlignUp(start, i) < TWO32
  }

  predicate Fits(start: nat, bits: set<nat>) {
    forall i | i in bits :: AlignUp(start, i) < TWO32
  }

  predicate AllAligned(start: nat, bits: set<nat>) {
    forall i | i in bits :: Aligned(start, i)
  }

  ghost predicate HasMark(start: nat, marks: seq<nat>, i: nat) {
    exists k | 0 <= k < |marks| :: FirstAligned(marks[k], start, i)
  }

  ghost predicate HasReason(start: nat, x: nat, bits: set<nat>) {
    exists i | i in bits :: FirstAligned(x, start, i)
  }

  /** The offsets are exactly the first aligned ones for the requested alignments. */
  ghost predicate Covers(start: nat, marks: seq<nat>, bits: set<nat>) {
    && (forall i | i in bits :: HasMark(start, marks, i))
    && (forall k | 0 <= k < |marks| :: HasReason(start, marks[k], bits))
  }

  // ----- the loop -----

  /** The lowest requested alignment from 2^10 on; the last one tried if none is. */
  method Lowest(bits: set<nat>) returns (i: nat)
    ensures 10 <= i < 32 && (forall j | 10 <= j < i :: j !in bits) && (i in bits || i == 31)
  {
    i := 10;
    while i < 31 && i !in bits
      invariant 10 <= i <= 31 && forall j | 10 <= j < i :: j !in bits
    {
      i := i + 1;
    }
  }

  /** Takes out every alignment that the offset has. */
  method Satisfied(bits: set<nat>, x: nat) returns (rest: set<nat>)
    requires forall i | i in bits :: 10 <= i < 32
    ensures forall i :: i in rest <==> i in bits && !Aligned(x, i)
  {
    rest := bits;
    for i := 10 to 32
      invariant forall j :: j in rest <==> j in bits && !(j < i && Aligned(x, j))
    {
      if x % Pow2(i) == 0 {
        rest := rest - {i};
      }
    }
  }

  /** Writes 0xff in pieces up to the offset. */
  method WriteOnes(written: seq<bv8>, from: nat, to: nat) returns (out: seq<bv8>)
    ensures out == written + Ones(if from < to then to - from else 0)
  {
    out := written;
    var at := from;
    while at < to
      invariant from <= at && (if from < to then at <= to else at == from)
      invariant out == written + Ones(at - from)
    {
      var len := if to - at > BUF_SIZE then BUF_SIZE else to - at;
      OnesJoin(at - from, len);
      assert written + (Ones(at - from) + Ones(len)) == written + Ones(at - from) + Ones(len);
      out := out + Ones(len);
      at := at + len;
    }
  }

  lemma OnesJoin(a: nat, b: nat)
    ensures Ones(a) + Ones(b) == Ones(a + b)
  {
  }

  // ----- where the markers stand -----

  /** Right after the last marker, or at `start` if there is none. */
  function Behind(start: nat, places: seq<nat>, size: nat): nat {
    if places == [] then start else places[|places| - 1] + size
  }

  /** The alignments that fit have their markers, and one more marker, for all the
      others, stands right behind those. */
  ghost predicate Cut(start: nat, places: seq<nat>, request: set<nat>, size: nat) {
    && !Fits(start, request) && places != []
    && Covers(start, places[..|places| - 1], Fitting(start, request))
    && places[|places| - 1] == Behind(start, places[..|places| - 1], size)
  }

  ghost predicate PlacedLow(start: nat, places: seq<nat>, request: set<nat>, size: nat) {
    if Fits(start, request) then Covers(start, places, request) else Cut(start, places, request, size)
  }

  /** From 2^32 on no gap is ever filled: the markers stand side by side. */
  ghost predicate PlacedHigh(start: nat, places: seq<nat>, request: set<nat>, size: nat) {
    && (forall k | 0 <= k < |places| :: places[k] == start + k * size)
    && (request == {} <==> places == [])
    && (AllAligned(start, request) ==> |places| <= 1)
  }

  /** `pad_image` on an image of `length` bytes: it ends for every request. The
      markers stand at `places`, they do not overlap, and every other byte written
      is 0xff. There is a marker at exactly the first aligned offset for every
      requested alignment if and only if these offsets fit in 32 bits or the image
      has all the alignments already. */
  method Pad(length: nat, extra: nat, request: set<nat>, marker: Marker)
    returns (written: seq<bv8>, ghost places: seq<nat>)
    requires forall i | i in request :: 10 <= i < 32
    ensures Spaced(length + extra, places, |Bytes(marker)|) && written == Laid(length + extra, places, Bytes(marker))
    ensures length + extra < TWO32 ==> PlacedLow(length + extra, places, request, |Bytes(marker)|)
    ensures length + extra >= TWO32 ==> PlacedHigh(length + extra, places, request, |Bytes(marker)|)
    ensures Covers(length + extra, places, request) <==>
      Fits(length + extra, request) || AllAligned(length + extra, request)
  {
    hide Fits, Going, Placing, Laid, Spaced, Covers, PlacedLow, PlacedHigh;
    ghost var start, pad := length + extra, Bytes(marker);
    var offset: nat, end: nat, bits := length + extra, length + extra, request;
    written, places := [], [];
    GoingStart(start, request, pad);
    while bits != {}
      invariant bits <= request
      invariant Placing(start, places, end, written, pad)
      invariant Going(start, request, bits, offset, places, |pad|)
      decreases |bits|
    {
      var i := Lowest(bits);
      assert i in bits by { ghost var j :| j in bits; }
      var next := Align(offset, i);
      var rest := Satisfied(bits, next);
      AlignAligned(offset, i);
      assert rest < bits;
      SmallerSet(rest, bits);
      PlacingEnd(start, places, end, written, pad);
      GoingStep(start, request, bits, offset, end, places, |pad|, i, rest);
      PlacingStep(start, places, end, written, pad, if end < next then next else end);
      written := WriteOnes(written, end, next);
      end := if end < next then next else end;
      places := places + [end];
      written := written + Bytes(marker);
      end := end + |Bytes(marker)|;
      offset, bits := next, rest;
    }
    PlacingEnd(start, places, end, written, pad);
    GoingEnd(start, request, offset, places, |pad|);
    PlacedExact(start, places, request, |pad|);
  }

  /** What has been written so far ends at `end`. */
  ghost predicate Placing(start: nat, places: seq<nat>, end: nat, written: seq<bv8>, pad: seq<bv8>) {
    Spaced(start, places, |pad|) && written == Laid(start, places, pad) && end == start + |written|
  }

  lemma PlacingEnd(start: nat, places: seq<nat>, end: nat, written: seq<bv8>, pad: seq<bv8>)
    requires Placing(start, places, end, written, pad)
    ensures end == Behind(start, places, |pad|) && start <= end
    ensures Spaced(start, places, |pad|) && written == Laid(start, places, pad)
  {
  }

  lemma PlacingStep(start: nat, places: seq<nat>, end: nat, written: seq<bv8>, pad: seq<bv8>, place: nat)
    requires Placing(start, places, end, written, pad) && end <= place
    ensures Placing(start, places + [place], place + |pad|, written + Ones(place - end) + pad, pad)
  {
    var more := places + [place];
    assert more[..|places|] == places && more[|places|] == place;
  }

  /** How far the loop is: from below 2^32 it is on its way, or the computed offset
      has been cut to 0 and nothing is left to do. */
  ghost predicate Going(start: nat, request: set<nat>, bits: set<nat>, offset: nat, places: seq<nat>, size: nat) {
    if start >= TWO32 then Stacking(start, request, bits, offset, places, size)
    else Padding(start, request, bits, offset, places) || (bits == {} && Cut(start, places, request, size))
  }

  ghost predicate Stacking(start: nat, request: set<nat>, bits: set<nat>, offset: nat, places: seq<nat>, size: nat) {
    && (forall k | 0 <= k < |places| :: places[k] == start + k * size)
    && (places == [] ==> bits == request && offset == start)
    && (places != [] ==> request != {} && (AllAligned(start, request) ==> bits == {} && |places| == 1))
  }

  lemma GoingStart(start: nat, request: set<nat>, pad: seq<bv8>)
    ensures Placing(start, [], start, [], pad) && Going(start, request, request, start, [], |pad|)
  {
    assert request - request == {};
  }

  lemma GoingStep(start: nat, request: set<nat>, bits: set<nat>, offset: nat, end: nat, places: seq<nat>, size: nat,
      i: nat, rest: set<nat>)
    requires Going(start, request, bits, offset, places, size) && bits <= request && 0 < size < 1024
    requires end == Behind(start, places, size) && start <= end
    requires (forall j | j in bits :: i <= j < 32) && i in bits && 10 <= i
    requires forall j :: j in rest <==> j in bits && !Aligned(Align(offset, i), j)
    ensures var next := Align(offset, i);
      Going(start, request, rest, next, places + [if end < next then next else end], size)
  {
    hide Padding, Cut, Stacking, Align, AlignUp, Aligned;
    if start >= TWO32 {
      StackingStep(start, request, bits, offset, end, places, size, i, rest);
      return;
    }
    PaddingGoes(start, request, bits, offset, places, size, i);
    if AlignUp(start, i) < TWO32 {
      PaddingStep(start, request, bits, offset, end, places, size, i, rest);
    } else {
      CutStep(start, request, bits, offset, end, places, size, i, rest);
    }
  }

  lemma PaddingGoes(start: nat, request: set<nat>, bits: set<nat>, offset: nat, places: seq<nat>, size: nat, i: nat)
    requires start < TWO32 && Going(start, request, bits, offset, places, size) && i in bits
    ensures Padding(start, request, bits, offset, places)
  {
    hide Padding, Cut;
  }

  lemma GoingEnd(start: nat, request: set<nat>, offset: nat, places: seq<nat>, size: nat)
    requires Going(start, request, {}, offset, places, size)
    ensures start < TWO32 ==> PlacedLow(start, places, request, size)
    ensures start >= TWO32 ==> PlacedHigh(start, places, request, size)
  {
    hide AlignUp, Aligned, FirstAligned;
    if start < TWO32 && Padding(start, request, {}, offset, places) {
      assert request - {} == request;
      PaddedFits(start, places, request);
    }
  }

  lemma StackingStep(start: nat, request: set<nat>, bits: set<nat>, offset: nat, end: nat, places: seq<nat>, size: nat,
      i: nat, rest: set<nat>)
    requires start >= TWO32 && Stacking(start, request, bits, offset, places, size) && bits <= request
    requires end == Behind(start, places, size) && start <= end
    requires i in bits && forall j :: j in rest <==> j in bits && !Aligned(Align(offset, i), j)
    requires forall j | j in bits :: j < 32
    ensures Align(offset, i) <= end && Stacking(start, request, rest, Align(offset, i), places + [end], size)
  {
    hide Aligned, AlignUp;
    var more := places + [end];
    if places != [] {
      StackedNext(start, |places| - 1, size);
    }
    forall k | 0 <= k < |more| ensures more[k] == start + k * size {}
    if AllAligned(start, request) {
      assert places == [] && bits == request && offset == start;
      forall j | j in bits ensures Aligned(Align(start, i), j) { AlignedCut(start, i, j); }
      assert rest == {};
    }
  }

  lemma StackedNext(start: nat, k: nat, size: nat)
    ensures start + k * size + size == start + (k + 1) * size
  {
  }

  /** An offset that is aligned already is only cut to 32 bits. */
  lemma AlignedCut(x: nat, i: nat, j: nat)
    requires Aligned(x, i) && Aligned(x, j) && j < 32
    ensures Aligned(Align(x, i), j)
  {
    hide AlignUp;
    AlignUpFirst(x, i);
    assert AlignUp(x, i) == x;
    CutAligned(x, j);
  }

  /** Below 2^32, the computed offset that does not fit is 2^32, which is cut to 0;
      0 has every alignment. */
  lemma CutStep(start: nat, request: set<nat>, bits: set<nat>, offset: nat, end: nat, places: seq<nat>, size: nat,
      i: nat, rest: set<nat>)
    requires start < TWO32 && Padding(start, request, bits, offset, places) && bits <= request && i in bits && 10 <= i
    requires AlignUp(start, i) >= TWO32 && end == Behind(start, places, size)
    requires forall j | j in bits :: i <= j < 32
    requires forall j :: j in rest <==> j in bits && !Aligned(Align(offset, i), j)
    ensures Align(offset, i) == 0 && rest == {} && Cut(start, places + [end], request, size)
  {
    hide AlignUp, Covers, Padding, Aligned, Fitting;
    OffsetIs(start, request, bits, offset, places, i);
    WordAligned(start, i);
    forall j | j in bits ensures Aligned(0, j) { ZeroAligned(j); }
    CutCovers(start, request, bits, offset, places, i);
    assert (places + [end])[..|places|] == places;
  }

  lemma ZeroAligned(j: nat)
    ensures Aligned(0, j)
  {
  }

  /** 2^32 has every alignment, so no first aligned offset below it lies beyond. */
  lemma WordAligned(start: nat, i: nat)
    requires start <= TWO32 && i < 32
    ensures AlignUp(start, i) <= TWO32
  {
    hide AlignUp, Pow2;
    PowDivides(i, 32);
    PowWord();
    AlignUpFirst(start, i);
    assert TWO32 == Pow2(32 - i) * Pow2(i);
    MultipleAligned(Pow2(32 - i), i);
  }

  lemma CutCovers(start: nat, request: set<nat>, bits: set<nat>, offset: nat, places: seq<nat>, i: nat)
    requires Padding(start, request, bits, offset, places) && bits <= request && i in bits && AlignUp(start, i) >= TWO32
    requires forall j | j in bits :: i <= j
    ensures Covers(start, places, Fitting(start, request))
  {
    hide AlignUp, FirstAligned, Covers;
    PaddedFits(start, places, request - bits);
    forall j | j in bits ensures AlignUp(start, j) >= TWO32 { LaterAligned(start, i, j); }
    assert Fitting(start, request) == request - bits;
  }

  lemma LaterAligned(start: nat, i: nat, j: nat)
    requires i <= j
    ensures AlignUp(start, i) <= AlignUp(start, j)
  {
    hide AlignUp;
    AlignUpFirst(start, i);
    AlignUpFirst(start, j);
    AlignedLess(AlignUp(start, j), i, j);
  }

  // ----- exactly when the markers are right -----

  /** Markers below 2^32 cannot stand at offsets beyond. */
  lemma PaddedFits(start: nat, places: seq<nat>, request: set<nat>)
    requires Covers(start, places, request) && forall k | 0 <= k < |places| :: places[k] < TWO32
    ensures Fits(start, request)
  {
    hide FirstAligned, AlignUp;
    forall i | i in request ensures AlignUp(start, i) < TWO32 {
      assert HasMark(start, places, i);
      var k :| 0 <= k < |places| && FirstAligned(places[k], start, i);
      AlignUpFirst(start, i);
      FirstAlignedUnique(places[k], AlignUp(start, i), start, i);
    }
  }

  lemma PlacedExact(start: nat, places: seq<nat>, request: set<nat>, size: nat)
    requires 0 < size < 1024 && forall i | i in request :: 10 <= i < 32
    requires start < TWO32 ==> PlacedLow(start, places, request, size)
    requires start >= TWO32 ==> PlacedHigh(start, places, request, size)
    ensures Covers(start, places, request) <==> Fits(start, request) || AllAligned(start, request)
  {
    hide AlignUp, FirstAligned, Aligned;
    if start >= TWO32 {
      StackedExact(start, places, request, size);
    } else if !Fits(start, request) {
      if AllAligned(start, request) { AlignedFits(start, request); }
      CutLow(start, places, request, size);
      if Covers(start, places, request) { PaddedFits(start, places, request); }
    }
  }

  lemma AlignedFits(start: nat, request: set<nat>)
    requires AllAligned(start, request) && start < TWO32
    ensures Fits(start, request)
  {
    hide AlignUp;
    forall i | i in request ensures AlignUp(start, i) < TWO32 { AlignUpFirst(start, i); }
  }

  /** Even the marker for what does not fit stands below 2^32. */
  lemma CutLow(start: nat, places: seq<nat>, request: set<nat>, size: nat)
    requires start < TWO32 && Cut(start, places, request, size) && size < 1024
    requires forall i | i in request :: 10 <= i < 32
    ensures forall k | 0 <= k < |places| :: places[k] < TWO32
  {
    hide AlignUp, FirstAligned, Aligned;
    var good, low := places[..|places| - 1], Fitting(start, request);
    forall k | 0 <= k < |good| ensures good[k] + 1024 <= TWO32 {
      assert HasReason(start, good[k], low);
      var i :| i in low && FirstAligned(good[k], start, i);
      AlignUpFirst(start, i);
      FirstAlignedUnique(good[k], AlignUp(start, i), start, i);
      Thousand(good[k], start, i);
    }
    forall k | 0 <= k < |places| ensures places[k] < TWO32 {
      if k < |good| { assert places[k] == good[k]; }
    }
  }

  lemma Thousand(x: nat, start: nat, i: nat)
    requires FirstAligned(x, start, i) && 10 <= i
    ensures x % 1024 == 0 && (x < TWO32 ==> x + 1024 <= TWO32)
  {
    AlignedLess(x, 10, i);
    PowWord();
  }

  /** Side by side, only the first marker can have any of the alignments. */
  lemma StackedExact(start: nat, places: seq<nat>, request: set<nat>, size: nat)
    requires start >= TWO32 && PlacedHigh(start, places, request, size) && 0 < size < 1024
    requires forall i | i in request :: 10 <= i < 32
    ensures Covers(start, places, request) <==> Fits(start, request) || AllAligned(start, request)
  {
    hide AlignUp, FirstAligned, Aligned;
    if i :| i in request {
      assert places[0] == start;
      assert !Fits(start, request) by {
        AlignUpFirst(start, i);
        NotBefore(AlignUp(start, i), start, i);
      }
      if AllAligned(start, request) {
        AlignedCovers(start, places, request, i);
      } else if Covers(start, places, request) {
        StackedFirst(start, places, request, size);
      }
    }
  }

  lemma AlignedCovers(start: nat, places: seq<nat>, request: set<nat>, i: nat)
    requires AllAligned(start, request) && i in request && places == [start]
    ensures Covers(start, places, request)
  {
    assert forall j | j in request :: FirstAligned(places[0], start, j);
  }

  lemma StackedFirst(start: nat, places: seq<nat>, request: set<nat>, size: nat)
    requires Covers(start, places, request) && places != [] && places[0] == start && 0 < size < 1024
    requires |places| > 1 ==> places[1] == start + 1 * size
    requires forall i | i in request :: 10 <= i < 32
    ensures AllAligned(start, request)
  {
    hide HasReason, HasMark, Aligned;
    ReasonThousand(start, places[0], request);
    if |places| > 1 {
      ReasonThousand(start, places[1], request);
      assert false;
    }
    forall j | j in request ensures Aligned(start, j) { OnlyMark(start, places, j); }
  }

  lemma ReasonThousand(start: nat, x: nat, request: set<nat>)
    requires HasReason(start, x, request) && forall i | i in request :: 10 <= i < 32
    ensures x % 1024 == 0
  {
    hide FirstAligned;
    var i :| i in request && FirstAligned(x, start, i);
    Thousand(x, start, i);
  }

  lemma OnlyMark(start: nat, places: seq<nat>, i: nat)
    requires HasMark(start, places, i) && places == [start]
    ensures Aligned(start, i)
  {
  }

  // ----- instances -----

  /** One byte before 2^32 the offset aligned to 2^16 is cut to 0, and the marker is
      written where the image ends. */
  method CutOffset(marker: Marker) returns (written: seq<bv8>, ghost places: seq<nat>)
    ensures places == [TWO32 - 1] && written == Bytes(marker)
    ensures !Covers(TWO32 - 1, places, {16})
  {
    hide Laid, Covers, Fits, AllAligned, AlignUp;
    var length := 0xffff_ffff;
    written, places := Pad(length, 0, {16}, marker);
    OneCut();
    NoneFits(TWO32 - 1, places);
    LaidAtStart(TWO32 - 1, Bytes(marker));
  }

  lemma OneCut()
    ensures !Fits(TWO32 - 1, {16}) && !AllAligned(TWO32 - 1, {16}) && Fitting(TWO32 - 1, {16}) == {}
  {
    assert Pow2(16) == 0x1_0000 by {
      assert Pow2(4) == 16;
      PowDivides(4, 8);
      PowDivides(8, 16);
    }
    hide Pow2;
    assert 16 in {16};
    assert AlignUp(TWO32 - 1, 16) == TWO32 && !Aligned(TWO32 - 1, 16);
  }

  lemma NoReason(start: nat, x: nat)
    ensures !HasReason(start, x, {})
  {
  }

  lemma NoneFits(start: nat, places: seq<nat>)
    requires places != [] && Covers(start, places[..|places| - 1], {})
    ensures |places| == 1
  {
    var good := places[..|places| - 1];
    if good != [] { NoReason(start, good[0]); }
  }

  lemma LaidAtStart(start: nat, pad: seq<bv8>)
    ensures Spaced(start, [start], |pad|) && Laid(start, [start], pad) == pad
  {
    assert [start][..0] == [];
    assert Laid(start, [], pad) == [];
  }

  /** At 2^32 itself the offset is cut as well, but the marker is at the right place. */
  method AlignedBeyond(marker: Marker) returns (written: seq<bv8>, ghost places: seq<nat>)
    ensures places == [TWO32] && written == Bytes(marker)
    ensures !Fits(TWO32, {16}) && Covers(TWO32, places, {16})
  {
    hide Laid, Covers, Fits, AllAligned, AlignUp, Aligned;
    written, places := Pad(1, 0xffff_ffff, {16}, marker);
    OneBeyond();
    assert places[0] == TWO32 + 0 * |Bytes(marker)|;
    LaidAtStart(TWO32, Bytes(marker));
  }

  lemma OneBeyond()
    ensures !Fits(TWO32, {16}) && AllAligned(TWO32, {16})
  {
    PowWord();
    PowDivides(16, 32);
    MultipleAligned(Pow2(16), 16);
    hide Pow2, AlignUp;
    assert 16 in {16};
    AlignUpFirst(TWO32, 16);
  }

  lemma SmallerSet(a: set<nat>, b: set<nat>)
    requires a < b
    ensures |a| < |b|
  {
    var x :| x in b && x !in a;
    assert b == (b - a) + a;
  }

  /** Cutting to 32 bits keeps the alignment. */
  lemma CutAligned(u: nat, i: nat)
    requires i < 32 && Aligned(u, i)
    ensures Aligned(u % TWO32, i)
  {
    hide Pow2;
    PowDivides(i, 32);
    PowWord();
    AlignedMultiple(u, i);
    var q, k, p := u / TWO32, u / Pow2(i), Pow2(32 - i);
    Factored(u, q, p, Pow2(i), k, u % TWO32);
    MultipleAligned(k - q * p, i);
  }

  lemma AlignAligned(x: nat, i: nat)
    requires i < 32
    ensures Aligned(Align(x, i), i)
  {
    hide AlignUp, Pow2;
    AlignUpFirst(x, i);
    CutAligned(AlignUp(x, i), i);
  }

  lemma Factored(u: nat, q: nat, p: nat, m: nat, k: nat, v: nat)
    requires u == k * m && m > 0 && u == q * (m * p) + v
    ensures v == (k - q * p) * m && k - q * p >= 0
  {
    assert q * (m * p) == (q * p) * m;
    assert (k - q * p) * m == k * m - (q * p) * m;
  }

  lemma PowWord()
    ensures Pow2(10) == 1024 && Pow2(32) == TWO32
  {
    assert Pow2(8) == 256 by { assert Pow2(4) == 16; PowDivides(4, 8); }
    PowDivides(8, 10);
    PowDivides(8, 16);
    PowDivides(16, 32);
  }

  /** The markers so far are those for the alignments that are done. */
  ghost predicate Padding(start: nat, request: set<nat>, bits: set<nat>, offset: nat, places: seq<nat>) {
    && Covers(start, places, request - bits)
    && (forall k | 0 <= k < |places| :: places[k] < TWO32)
    && offset == (if places == [] then start else places[|places| - 1])
    && (places != [] ==> forall i | i in bits :: NotYet(start, offset, i))
  }

  /** The offset was found for some lower alignment and does not have this one. */
  ghost predicate NotYet(start: nat, offset: nat, i: nat) {
    !Aligned(offset, i) && exists j | 10 <= j <= i :: FirstAligned(offset, start, j)
  }

  /** The next offset is the first aligned one, counted from the start. */
  lemma OffsetIs(start: nat, request: set<nat>, bits: set<nat>, offset: nat, places: seq<nat>, i: nat)
    requires Padding(start, request, bits, offset, places) && i in bits && 10 <= i
    ensures AlignUp(offset, i) == AlignUp(start, i)
    ensures offset <= AlignUp(offset, i) && (places != [] ==> offset + 1024 <= AlignUp(offset, i))
  {
    hide Covers, AlignUp, FirstAligned, Aligned;
    AlignUpFirst(offset, i);
    AlignUpFirst(start, i);
    var u := AlignUp(offset, i);
    if places != [] {
      assert NotYet(start, offset, i);
      var j :| 10 <= j <= i && FirstAligned(offset, start, j);
      FirstAlignedOn(offset, u, start, j, i);
      FarApart(offset, u, start, j, i);
    }
    NotBefore(u, offset, i);
    FirstAlignedUnique(u, AlignUp(start, i), start, i);
  }

  lemma NotBefore(u: nat, offset: nat, i: nat)
    requires FirstAligned(u, offset, i)
    ensures offset <= u
  {
  }

  lemma FarApart(a: nat, u: nat, start: nat, j: nat, i: nat)
    requires FirstAligned(a, start, j) && 10 <= j <= i && !Aligned(a, i) && FirstAligned(u, a, i)
    ensures a + 1024 <= u
  {
    AlignedLess(a, 10, j);
    AlignedLess(u, 10, i);
    PowWord();
    assert a % 1024 == 0 && u % 1024 == 0 && u != a;
  }

  lemma PaddingStep(start: nat, request: set<nat>, bits: set<nat>, offset: nat, end: nat, places: seq<nat>, size: nat,
      i: nat, rest: set<nat>)
    requires start < TWO32 && Padding(start, request, bits, offset, places) && bits <= request && size < 1024
    requires AlignUp(start, i) < TWO32 && end == Behind(start, places, size)
    requires (forall j | j in bits :: i <= j < 32) && i in bits && 10 <= i
    requires forall j :: j in rest <==> j in bits && !Aligned(Align(offset, i), j)
    ensures end <= Align(offset, i) && Padding(start, request, rest, Align(offset, i), places + [Align(offset, i)])
  {
    hide FirstAligned, Aligned, Covers, AlignUp, NotYet;
    var next := Align(offset, i);
    OffsetIs(start, request, bits, offset, places, i);
    AlignUpFirst(start, i);
    CoversStep(start, request, bits, places, i, next, rest);
    forall k | k in rest ensures NotYet(start, next, k) { StillNotYet(start, next, i, k); }
  }

  lemma StillNotYet(start: nat, offset: nat, i: nat, k: nat)
    requires 10 <= i <= k && FirstAligned(offset, start, i) && !Aligned(offset, k)
    ensures NotYet(start, offset, k)
  {
    hide FirstAligned, Aligned;
  }

  lemma CoversStep(start: nat, request: set<nat>, bits: set<nat>, marks: seq<nat>, i: nat, next: nat, rest: set<nat>)
    requires Covers(start, marks, request - bits) && bits <= request && i in bits && FirstAligned(next, start, i)
    requires (forall j | j in bits :: i <= j) && forall j :: j in rest <==> j in bits && !Aligned(next, j)
    ensures Covers(start, marks + [next], request - rest)
  {
    hide FirstAligned, Aligned, HasMark, HasReason;
    var more := marks + [next];
    forall j | j in request - rest ensures HasMark(start, more, j) {
      if j in bits {
        FirstAlignedMore(next, start, i, j);
        MarkLast(start, marks, next, j);
      } else {
        assert j in request - bits;
        MarkEarlier(start, marks, next, j);
      }
    }
    AlignedSelf(next, start, i);
    assert i in request - rest;
    forall k | 0 <= k < |more| ensures HasReason(start, more[k], request - rest) {
      if k < |marks| {
        assert more[k] == marks[k];
        ReasonMore(start, marks[k], request - bits, request - rest);
      } else {
        ReasonIs(start, next, request - rest, i);
      }
    }
  }

  lemma MarkLast(start: nat, marks: seq<nat>, next: nat, j: nat)
    requires FirstAligned(next, start, j)
    ensures HasMark(start, marks + [next], j)
  {
    hide FirstAligned;
    assert (marks + [next])[|marks|] == next;
  }

  lemma MarkEarlier(start: nat, marks: seq<nat>, next: nat, j: nat)
    requires HasMark(start, marks, j)
    ensures HasMark(start, marks + [next], j)
  {
    hide FirstAligned;
    var k :| 0 <= k < |marks| && FirstAligned(marks[k], start, j);
    assert (marks + [next])[k] == marks[k];
  }

  lemma ReasonMore(start: nat, x: nat, a: set<nat>, b: set<nat>)
    requires HasReason(start, x, a) && a <= b
    ensures HasReason(start, x, b)
  {
    hide FirstAligned;
  }

  lemma ReasonIs(start: nat, x: nat, a: set<nat>, i: nat)
    requires i in a && FirstAligned(x, start, i)
    ensures HasReason(start, x, a)
  {
    hide FirstAligned;
  }

  lemma AlignedSelf(x: nat, start: nat, i: nat)
    requires FirstAligned(x, start, i)
    ensures Aligned(x, i)
  {
  }
}
