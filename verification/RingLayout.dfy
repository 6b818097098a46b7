/**
 The byte layout of the ring: inline headers, SKIP markers, and the queue of
 blocks a stretch of the buffer spells out. Offsets are the monotone byte
 offsets of the control block; `Pos` folds them onto the physical buffer.
 */
module RingLayout {
  import opened Bytes

  const HDR: nat := 16
  const SKIP: nat := 0x8000_0000_0000_0000

  datatype Header = Header(sizeFlags: nat, tag: nat)
  datatype Block = Block(data: seq<byte>, tag: nat)

  /** Size rounded up to the 16-byte granule. */
  function Pad(n: nat): (p: nat)
    ensures p % 16 == 0 && n <= p < n + 16
  {
    (n + 15) / 16 * 16
  }

  predicate IsPowerOfTwo(n: nat) {
    n == 1 || (n > 1 && n % 2 == 0 && IsPowerOfTwo(n / 2))
  }

  /** Bitwise and of two naturals, bit by bit. */
  function And(a: nat, b: nat): nat {
    if a == 0 || b == 0 then 0
    else (if a % 2 == 1 && b % 2 == 1 then 1 else 0) + 2 * And(a / 2, b / 2)
  }

  lemma AndHalves(a: nat, h: nat)
    requires h > 0
    ensures And(a, 2 * h - 1) == a % 2 + 2 * And(a / 2, h - 1)
  {
    assert (2 * h - 1) / 2 == h - 1;
    assert a == 0 ==> And(a / 2, h - 1) == 0;
  }

  lemma HalveModulo(x: nat, h: nat)
    requires h > 0
    ensures x % (2 * h) == x % 2 + 2 * ((x / 2) % h)
  {
    var y := x / 2;
    var q, r := y / h, y % h;
    assert y == h * q + r;
    assert (2 * h) * q == 2 * (h * q);
    ModUnique(x, q, x % 2 + 2 * r, 2 * h);
  }

  lemma {:induction false} MaskIsModulo(off: nat, cap: nat, r: nat)
    requires IsPowerOfTwo(cap) && r == off % cap
    ensures And(off, cap - 1) == r
    decreases cap
  {
    if cap > 1 {
      var h := cap / 2;
      MaskIsModulo(off / 2, h, (off / 2) % h);
      HalveModulo(off, h);
      AndHalves(off, h);
    }
  }

  /** The source's `off & mask` is the fold this model uses. */
  lemma MaskFolds(off: nat, cap: nat)
    requires IsPowerOfTwo(cap)
    ensures And(off, cap - 1) == Fold(off, cap)
  {
    MaskIsModulo(off, cap, off % cap);
    FoldIsModulo(off, cap);
  }

  /** What ra_init accepts, short of the bit that marks a SKIP header. */
  predicate GoodCapacity(cap: nat) {
    32 <= cap < SKIP && IsPowerOfTwo(cap)
  }

  predicate Sized(buf: seq<byte>) {
    32 <= |buf| < SKIP && |buf| % 16 == 0
  }

  lemma GoodCapacityIsSized(cap: nat)
    requires GoodCapacity(cap)
    ensures cap % 16 == 0
  {
    var a := cap / 2;
    assert cap == 2 * a && IsPowerOfTwo(a);
    var b := a / 2;
    assert a == 2 * b && IsPowerOfTwo(b);
    var c := b / 2;
    assert b == 2 * c && IsPowerOfTwo(c);
    var d := c / 2;
    assert c == 2 * d;
    Multiple(cap, d);
  }

  function Pos(buf: seq<byte>, off: nat): (p: nat)
    requires |buf| > 0
    ensures p < |buf|
  {
    Fold(off, |buf|)
  }

  function At(buf: seq<byte>, off: nat): byte
    requires |buf| > 0
  {
    buf[Pos(buf, off)]
  }

  /** Bytes from `off` to the physical end of the buffer. */
  function ToEnd(buf: seq<byte>, off: nat): (n: nat)
    requires |buf| > 0
    ensures 0 < n <= |buf|
  {
    |buf| - Pos(buf, off)
  }

  function Put(buf: seq<byte>, p: nat, bs: seq<byte>): (r: seq<byte>)
    requires p + |bs| <= |buf|
    ensures |r| == |buf|
    ensures forall i :: 0 <= i < |buf| ==> r[i] == if p <= i < p + |bs| then bs[i - p] else buf[i]
  {
    buf[..p] + bs + buf[p + |bs|..]
  }

  /** The `n` bytes from `off` on. */
  function Span(buf: seq<byte>, off: nat, n: nat): (s: seq<byte>)
    requires |buf| > 0
    ensures |s| == n && forall i :: 0 <= i < n ==> s[i] == At(buf, off + i)
  {
    seq<byte>(n, i requires 0 <= i => At(buf, off + i))
  }

  /** A span that does not cross the physical end is a slice of the buffer. */
  lemma SpanIsSlice(buf: seq<byte>, off: nat, n: nat)
    requires |buf| > 0 && Pos(buf, off) + n <= |buf|
    ensures Span(buf, off, n) == buf[Pos(buf, off)..Pos(buf, off) + n]
  {
    var p, s := Pos(buf, off), Span(buf, off, n);
    forall i | 0 <= i < n ensures s[i] == buf[p..p + n][i] {
      FoldShift(off, i, |buf|);
    }
  }

  /** The header at `off`; like `Fold`, kept deep so that proofs go through its lemmas. */
  function HeaderAt(buf: seq<byte>, off: nat): Header
    requires |buf| > 0
  {
    HeaderFrom(buf, off, |buf|)
  }

  function HeaderFrom(buf: seq<byte>, off: nat, depth: nat): Header
    requires |buf| > 0
    decreases depth
  {
    if depth == 0 then Header(FromLittleEndian(Span(buf, off, 8)), FromLittleEndian(Span(buf, off + 8, 8)))
    else HeaderFrom(buf, off, depth - 1)
  }

  lemma {:induction false} HeaderIsWords(buf: seq<byte>, off: nat, depth: nat)
    requires |buf| > 0
    ensures HeaderFrom(buf, off, depth)
         == Header(FromLittleEndian(Span(buf, off, 8)), FromLittleEndian(Span(buf, off + 8, 8)))
    decreases depth
  {
    if depth > 0 { HeaderIsWords(buf, off, depth - 1); }
  }

  function HeaderBytes(sizeFlags: nat, tag: nat): (bs: seq<byte>)
    ensures |bs| == HDR
  {
    LittleEndian(sizeFlags, 8) + LittleEndian(tag, 8)
  }

  function WriteHeader(buf: seq<byte>, off: nat, sizeFlags: nat, tag: nat): (r: seq<byte>)
    requires Sized(buf) && off % 16 == 0
    ensures |r| == |buf|
  {
    FoldAligned(off, |buf|);
    Put(buf, Pos(buf, off), HeaderBytes(sizeFlags, tag))
  }

  lemma HeaderReadBack(buf: seq<byte>, off: nat, sizeFlags: nat, tag: nat)
    requires Sized(buf) && off % 16 == 0 && sizeFlags < U64_LIMIT && tag < U64_LIMIT
    ensures HeaderAt(WriteHeader(buf, off, sizeFlags, tag), off) == Header(sizeFlags, tag)
  {
    FoldAligned(off, |buf|);
    var p, r := Pos(buf, off), WriteHeader(buf, off, sizeFlags, tag);
    FoldShift(off, 8, |buf|);
    SpanIsSlice(r, off, 8);
    SpanIsSlice(r, off + 8, 8);
    assert r[p..p + 8] == LittleEndian(sizeFlags, 8);
    assert r[p + 8..p + 16] == LittleEndian(tag, 8);
    HeaderIsWords(r, off, |r|);
    U64RoundTrip(sizeFlags);
    U64RoundTrip(tag);
  }

  /** Two buffers hold the same bytes at every offset from `t` to `h`. */
  ghost predicate Agree(a: seq<byte>, b: seq<byte>, t: nat, h: nat) {
    |a| == |b| > 0 && forall x {:trigger At(a, x)} :: t <= x < h ==> At(a, x) == At(b, x)
  }

  /** Writing past `h`, and less than a turn past `t`, leaves `t..h` alone. */
  lemma PutOutside(buf: seq<byte>, t: nat, h: nat, w: nat, bs: seq<byte>)
    requires Sized(buf) && Pos(buf, w) + |bs| <= |buf|
    requires h <= w && w + |bs| <= t + |buf|
    ensures Agree(buf, Put(buf, Pos(buf, w), bs), t, h)
  {
    var p, r := Pos(buf, w), Put(buf, Pos(buf, w), bs);
    forall x {:trigger At(buf, x)} | t <= x < h
      ensures At(buf, x) == At(r, x)
    {
      var k := Pos(buf, x);
      if p <= k < p + |bs| {
        FoldShift(w, k - p, |buf|);
        FoldInjective(x, w + (k - p), |buf|);
      }
    }
  }

  /** Writing before `t`, and less than a turn before `h`, leaves `t..h` alone too. */
  lemma PutBefore(buf: seq<byte>, w: nat, bs: seq<byte>, t: nat, h: nat)
    requires Sized(buf) && Pos(buf, w) + |bs| <= |buf|
    requires w + |bs| <= t && h <= w + |buf|
    ensures Agree(buf, Put(buf, Pos(buf, w), bs), t, h)
  {
    var p, r := Pos(buf, w), Put(buf, Pos(buf, w), bs);
    forall x {:trigger At(buf, x)} | t <= x < h
      ensures At(buf, x) == At(r, x)
    {
      var k := Pos(buf, x);
      if p <= k < p + |bs| {
        FoldShift(w, k - p, |buf|);
        FoldInjective(x, w + (k - p), |buf|);
      }
    }
  }

  lemma AgreeSpan(a: seq<byte>, b: seq<byte>, t: nat, h: nat, off: nat, n: nat)
    requires Agree(a, b, t, h) && t <= off && off + n <= h
    ensures Span(a, off, n) == Span(b, off, n)
  {
    forall i | 0 <= i < n ensures Span(a, off, n)[i] == Span(b, off, n)[i] {
      assert At(a, off + i) == At(b, off + i);
    }
  }

  lemma AgreeHeader(a: seq<byte>, b: seq<byte>, t: nat, h: nat, off: nat)
    requires Agree(a, b, t, h) && t <= off && off + HDR <= h
    ensures HeaderAt(a, off) == HeaderAt(b, off)
  {
    AgreeSpan(a, b, t, h, off, 8);
    AgreeSpan(a, b, t, h, off + 8, 8);
    HeaderIsWords(a, off, |a|);
    HeaderIsWords(b, off, |b|);
  }

  // One record: an optional SKIP marker to the physical end, then a block.

  predicate IsSkip(hd: Header) {
    hd.sizeFlags >= SKIP
  }

  /** Where the block of the record at `t` has its header: past the SKIP, if there is one. */
  function BlockStart(buf: seq<byte>, t: nat): (s: nat)
    requires |buf| > 0
    ensures s >= t
  {
    var hd := HeaderAt(buf, t);
    if IsSkip(hd) then t + HDR + (hd.sizeFlags - SKIP) else t
  }

  /** A block header at `s` whose data is contiguous and ends by `h`. */
  predicate BlockFits(buf: seq<byte>, s: nat, h: nat)
    requires Sized(buf)
  {
    && s % 16 == 0 && s + HDR <= h
    && var size := HeaderAt(buf, s).sizeFlags;
       size < SKIP && Pos(buf, s) + HDR + Pad(size) <= |buf| && s + HDR + Pad(size) <= h
  }

  predicate RecordFits(buf: seq<byte>, t: nat, h: nat)
    requires Sized(buf)
  {
    && t % 16 == 0 && t + HDR <= h
    && (IsSkip(HeaderAt(buf, t)) ==> BlockStart(buf, t) == t + ToEnd(buf, t))
    && BlockFits(buf, BlockStart(buf, t), h)
  }

  function BlockAt(buf: seq<byte>, s: nat): Block
    requires |buf| > 0
  {
    var hd := HeaderAt(buf, s);
    Block(Span(buf, s + HDR, hd.sizeFlags), hd.tag)
  }

  /** A block that fits is a slice of the buffer, aligned, right behind its header. */
  lemma BlockInPlace(buf: seq<byte>, s: nat, h: nat)
    requires Sized(buf) && BlockFits(buf, s, h)
    ensures var p, size := Pos(buf, s) + HDR, HeaderAt(buf, s).sizeFlags;
      p % 16 == 0 && p + size <= |buf| && BlockAt(buf, s).data == buf[p..p + size]
  {
    FoldAligned(s, |buf|);
    if HeaderAt(buf, s).sizeFlags > 0 {
      FoldShift(s, HDR, |buf|);
      SpanIsSlice(buf, s + HDR, HeaderAt(buf, s).sizeFlags);
    }
  }

  function RecordEnd(buf: seq<byte>, t: nat): (e: nat)
    requires |buf| > 0
    ensures t < e
  {
    var s := BlockStart(buf, t);
    s + HDR + Pad(HeaderAt(buf, s).sizeFlags)
  }

  /** `t..h` is exactly a run of well-formed records. */
  predicate Chain(buf: seq<byte>, t: nat, h: nat)
    requires Sized(buf)
    decreases h - t
  {
    t <= h && (t == h || (RecordFits(buf, t, h) && Chain(buf, RecordEnd(buf, t), h)))
  }

  /** The blocks `t..h` spells out, oldest first. */
  function Queue(buf: seq<byte>, t: nat, h: nat): seq<Block>
    requires Sized(buf) && Chain(buf, t, h)
    decreases h - t
  {
    if t == h then []
    else [BlockAt(buf, BlockStart(buf, t))] + Queue(buf, RecordEnd(buf, t), h)
  }

  /** The oldest block of a queue that has one. */
  lemma QueueHead(buf: seq<byte>, t: nat, h: nat)
    requires Sized(buf) && Chain(buf, t, h) && t < h
    ensures RecordFits(buf, t, h) && Queue(buf, t, h) != []
    ensures Queue(buf, t, h)[0] == BlockAt(buf, BlockStart(buf, t))
  {
  }

  /** And where its data is. */
  lemma OldestInPlace(buf: seq<byte>, t: nat, h: nat, at: nat, hd: Header, p: nat)
    requires Sized(buf) && Chain(buf, t, h) && t < h
    requires at == BlockStart(buf, t) && hd == HeaderAt(buf, at) && p == Pos(buf, at) + HDR
    ensures p + hd.sizeFlags <= |buf| && p % 16 == 0 && Queue(buf, t, h) != []
    ensures Queue(buf, t, h)[0] == Block(buf[p..p + hd.sizeFlags], hd.tag)
  {
    QueueHead(buf, t, h);
    BlockInPlace(buf, at, h);
  }

  lemma AgreeBlock(a: seq<byte>, b: seq<byte>, t0: nat, h: nat, s: nat, e: nat)
    requires Sized(a) && Agree(a, b, t0, h) && t0 <= s && e <= h && BlockFits(a, s, e)
    ensures HeaderAt(a, s) == HeaderAt(b, s) && BlockFits(b, s, e) && BlockAt(a, s) == BlockAt(b, s)
  {
    AgreeHeader(a, b, t0, h, s);
    AgreeSpan(a, b, t0, h, s + HDR, HeaderAt(a, s).sizeFlags);
  }

  lemma AgreeRecord(a: seq<byte>, b: seq<byte>, t0: nat, h: nat, t: nat, e: nat)
    requires Sized(a) && Agree(a, b, t0, h) && t0 <= t && e <= h && RecordFits(a, t, e)
    ensures RecordFits(b, t, e) && BlockStart(a, t) == BlockStart(b, t)
    ensures HeaderAt(a, t) == HeaderAt(b, t)
    ensures HeaderAt(a, BlockStart(a, t)) == HeaderAt(b, BlockStart(a, t))
    ensures RecordEnd(a, t) == RecordEnd(b, t)
    ensures BlockAt(a, BlockStart(a, t)) == BlockAt(b, BlockStart(b, t))
  {
    AgreeHeader(a, b, t0, h, t);
    AgreeBlock(a, b, t0, h, BlockStart(a, t), e);
  }

  /** The queue depends on nothing but the bytes it covers. */
  lemma {:induction false} AgreeQueue(a: seq<byte>, b: seq<byte>, t0: nat, h0: nat, t: nat, h: nat)
    requires Sized(a) && Agree(a, b, t0, h0) && t0 <= t && h <= h0 && Chain(a, t, h)
    ensures Chain(b, t, h) && Queue(a, t, h) == Queue(b, t, h)
    decreases h - t
  {
    if t < h {
      AgreeRecord(a, b, t0, h0, t, h);
      AgreeQueue(a, b, t0, h0, RecordEnd(a, t), h);
    }
  }

  /** A record at the end of a chain appends its block to the queue. */
  lemma {:induction false} AppendRecord(buf: seq<byte>, t: nat, h: nat, e: nat)
    requires Sized(buf) && Chain(buf, t, h) && RecordFits(buf, h, e) && RecordEnd(buf, h) == e
    ensures Chain(buf, t, e)
    ensures Queue(buf, t, e) == Queue(buf, t, h) + [BlockAt(buf, BlockStart(buf, h))]
    decreases h - t
  {
    if t == h {
      assert Chain(buf, e, e);
    } else {
      AppendRecord(buf, RecordEnd(buf, t), h, e);
      assert RecordFits(buf, t, e) && RecordEnd(buf, t) == RecordEnd(buf, t);
    }
  }
}
