/**
 The single-producer single-consumer ring as a two-thread step system. Every
 atomic load or store of `head` and `tail` is one step, so the other thread may
 run between any two; `tailCache` and `headCache` may be arbitrarily stale.
 */
module RingMachine {
  import opened Bytes
  import opened RingLayout

  /** Where the producer is inside ra_reserve / ra_commit. */
  datatype Producer =
    | PIdle
    | PLoadTail(min: nat)                          // cached tail says full: reload it
    | PStage(min: nat)                             // fits: write the SKIP, record the reservation
    | PReserved(hdr: nat, max: nat)                // rsv_active: the caller fills the span
    | PPublish(hdr: nat, size: nat, tag: nat)      // header written, head not yet stored

  /** Where the consumer is inside ra_peek / ra_release. */
  datatype Consumer =
    | CIdle
    | CLoadHead
    | CRead
    | CHop(at: nat)
    | CHolding(data: nat, size: nat, tag: nat)     // ra_peek returned this block
    | CReleaseHop(at: nat)
    | CStoreTail(next: nat)

  datatype State = State(
    buf: seq<byte>, head: nat, tail: nat, tailCache: nat, headCache: nat,
    prod: Producer, cons: Consumer)

  datatype Step =
    | ReserveStart(min: nat) | ReserveLoad | ReserveStage
    | UserWrite(i: nat, b: byte)
    | CommitHeader(size: nat, tag: nat) | CommitPublish | Abort
    | PeekStart | PeekLoad | PeekRead | PeekHop | PeekDone
    | ReleaseStart | ReleaseHop | ReleaseStore

  // ---- ra_reserve's arithmetic

  function SkipFor(buf: seq<byte>, head: nat, n: nat): (k: nat)
    requires |buf| > 0
  {
    if ToEnd(buf, head) < HDR + Pad(n) then ToEnd(buf, head) else 0
  }

  function TotalFor(buf: seq<byte>, head: nat, n: nat): nat
    requires |buf| > 0
  {
    SkipFor(buf, head, n) + HDR + Pad(n)
  }

  function Free(cap: nat, head: nat, tailCache: nat): int {
    cap - (head - tailCache)
  }

  /** The room ra_reserve reports: to the physical end, or to the cached tail. */
  function MaxData(buf: seq<byte>, head: nat, tailCache: nat, n: nat): int
    requires |buf| > 0
  {
    var skip := SkipFor(buf, head, n);
    var roomEnd := (if skip > 0 then |buf| else ToEnd(buf, head)) - HDR;
    var freeData := Free(|buf|, head, tailCache) - skip - HDR;
    if roomEnd < freeData then roomEnd else freeData
  }

  // ---- steps

  predicate Enabled(s: State, step: Step) {
    |s.buf| > 0 &&
    match step
    case ReserveStart(_) => s.prod.PIdle?
    case ReserveLoad => s.prod.PLoadTail?
    case ReserveStage => s.prod.PStage?
    case UserWrite(i, _) => s.prod.PReserved? && i < s.prod.max
    case CommitHeader(size, tag) => s.prod.PReserved? && size <= s.prod.max && tag < U64_LIMIT
    case CommitPublish => s.prod.PPublish?
    case Abort => s.prod.PReserved?
    case PeekStart => s.cons.CIdle?
    case PeekLoad => s.cons.CLoadHead?
    case PeekRead => s.cons.CRead?
    case PeekHop => s.cons.CHop?
    case PeekDone => s.cons.CHolding?
    case ReleaseStart => s.cons.CIdle? && s.tail != s.head   // the caller knows the ring is non-empty
    case ReleaseHop => s.cons.CReleaseHop?
    case ReleaseStore => s.cons.CStoreTail?
  }

  function Poke(buf: seq<byte>, off: nat, bs: seq<byte>): (r: seq<byte>)
    requires |buf| > 0
    ensures |r| == |buf|
  {
    if Pos(buf, off) + |bs| <= |buf| then Put(buf, Pos(buf, off), bs) else buf
  }

  function Held(buf: seq<byte>, at: nat): Consumer
    requires |buf| > 0
  {
    var hd := HeaderAt(buf, at);
    CHolding(at + HDR, hd.sizeFlags, hd.tag)
  }

  function Do(s: State, step: Step): (r: State)
    requires Enabled(s, step)
    ensures |r.buf| == |s.buf|
  {
    match step
    case ReserveStart(n) =>
      if n > |s.buf| then s
      else if Free(|s.buf|, s.head, s.tailCache) < TotalFor(s.buf, s.head, n) then s.(prod := PLoadTail(n))
      else s.(prod := PStage(n))
    case ReserveLoad =>
      var n, r := s.prod.min, s.(tailCache := s.tail);
      if Free(|s.buf|, s.head, s.tail) < TotalFor(s.buf, s.head, n) then r.(prod := PIdle) else r.(prod := PStage(n))
    case ReserveStage =>
      var n := s.prod.min;
      var skip, max := SkipFor(s.buf, s.head, n), MaxData(s.buf, s.head, s.tailCache, n);
      s.(buf := if skip > 0 then Poke(s.buf, s.head, HeaderBytes(SKIP + (skip - HDR), 0)) else s.buf,
         prod := PReserved(s.head + skip, if max >= 0 then max else 0))
    case UserWrite(i, b) =>
      s.(buf := Poke(s.buf, s.prod.hdr + HDR + i, [b]))
    case CommitHeader(size, tag) =>
      s.(buf := Poke(s.buf, s.prod.hdr, HeaderBytes(size, tag)), prod := PPublish(s.prod.hdr, size, tag))
    case CommitPublish =>
      s.(head := s.prod.hdr + HDR + Pad(s.prod.size), prod := PIdle)
    case Abort => s.(prod := PIdle)
    case PeekStart => s.(cons := if s.tail >= s.headCache then CLoadHead else CRead)
    case PeekLoad => s.(headCache := s.head, cons := if s.tail == s.head then CIdle else CRead)
    case PeekRead =>
      if IsSkip(HeaderAt(s.buf, s.tail)) then s.(cons := CHop(BlockStart(s.buf, s.tail)))
      else s.(cons := Held(s.buf, s.tail))
    case PeekHop => s.(cons := Held(s.buf, s.cons.at))
    case PeekDone => s.(cons := CIdle)
    case ReleaseStart =>
      if IsSkip(HeaderAt(s.buf, s.tail)) then s.(cons := CReleaseHop(BlockStart(s.buf, s.tail)))
      else s.(cons := CStoreTail(s.tail + HDR + Pad(HeaderAt(s.buf, s.tail).sizeFlags)))
    case ReleaseHop =>
      s.(cons := CStoreTail(s.cons.at + HDR + Pad(HeaderAt(s.buf, s.cons.at).sizeFlags)))
    case ReleaseStore => s.(tail := s.cons.next, cons := CIdle)
  }

  function Init(buf: seq<byte>): State {
    State(buf, 0, 0, 0, 0, PIdle, CIdle)
  }

  predicate CanRun(s: State, steps: seq<Step>)
    decreases |steps|
  {
    steps == [] || (Enabled(s, steps[0]) && CanRun(Do(s, steps[0]), steps[1..]))
  }

  function Exec(s: State, steps: seq<Step>): State
    requires CanRun(s, steps)
    decreases |steps|
  {
    if steps == [] then s else Exec(Do(s, steps[0]), steps[1..])
  }

  // ---- the safety invariant

  /** The indices: caches lag, nothing overtakes, the ring is never over-full. */
  predicate IndicesOk(cap: nat, head: nat, tail: nat, tailCache: nat, headCache: nat) {
    && tailCache <= tail <= head <= tailCache + cap && headCache <= head
    && head % 16 == 0 && tail % 16 == 0 && tailCache % 16 == 0 && headCache % 16 == 0
  }

  /** Between head and `hdr` there is nothing, or exactly a SKIP to the physical end. */
  predicate SkipStaged(buf: seq<byte>, head: nat, hdr: nat)
    requires |buf| > 0
  {
    hdr == head || (hdr == head + ToEnd(buf, head) == BlockStart(buf, head) && IsSkip(HeaderAt(buf, head)))
  }

  /** A staged header at `hdr` with room for `room` padded bytes after it. */
  predicate Staged(buf: seq<byte>, head: nat, tailCache: nat, hdr: nat, room: nat)
    requires |buf| > 0
  {
    && hdr % 16 == 0 && room % 16 == 0
    && Pos(buf, hdr) + HDR + room <= |buf|
    && head <= hdr && hdr + HDR + room <= tailCache + |buf|
    && SkipStaged(buf, head, hdr)
  }

  predicate ProducerOk(buf: seq<byte>, head: nat, tailCache: nat, prod: Producer)
    requires |buf| > 0
  {
    match prod
    case PIdle => true
    case PLoadTail(n) => n <= |buf|
    case PStage(n) => n <= |buf| && TotalFor(buf, head, n) <= Free(|buf|, head, tailCache)
    case PReserved(hdr, max) => Staged(buf, head, tailCache, hdr, max)
    case PPublish(hdr, size, tag) =>
      Staged(buf, head, tailCache, hdr, Pad(size)) && size < SKIP && HeaderAt(buf, hdr) == Header(size, tag)
  }

  predicate ConsumerOk(buf: seq<byte>, tail: nat, head: nat, headCache: nat, cons: Consumer)
    requires |buf| > 0
  {
    match cons
    case CIdle => true
    case CLoadHead => true
    case CRead => tail < headCache
    case CHop(a) => tail < headCache && a == BlockStart(buf, tail)
    case CHolding(d, size, tag) =>
      var at := BlockStart(buf, tail);
      tail < head && d == at + HDR && HeaderAt(buf, at) == Header(size, tag)
    case CReleaseHop(a) => tail < head && a == BlockStart(buf, tail)
    case CStoreTail(next) => tail < head && next == RecordEnd(buf, tail)
  }

  predicate Inv(s: State) {
    && Sized(s.buf) && IndicesOk(|s.buf|, s.head, s.tail, s.tailCache, s.headCache)
    && Chain(s.buf, s.tail, s.head)
    && (s.tail < s.headCache ==> Chain(s.buf, s.tail, s.headCache))
    && ProducerOk(s.buf, s.head, s.tailCache, s.prod)
    && ConsumerOk(s.buf, s.tail, s.head, s.headCache, s.cons)
  }

  function Live(s: State): seq<Block>
    requires Inv(s)
  {
    Queue(s.buf, s.tail, s.head)
  }

  lemma InitInv(buf: seq<byte>)
    requires GoodCapacity(|buf|)
    ensures Inv(Init(buf)) && Live(Init(buf)) == []
  {
    GoodCapacityIsSized(|buf|);
  }

  /** A producer write into unpublished space moves nothing the consumer can see. */
  lemma WriteUnpublished(s: State, w: nat, bs: seq<byte>)
    requires Inv(s) && Pos(s.buf, w) + |bs| <= |s.buf|
    requires s.head <= w && w + |bs| <= s.tailCache + |s.buf|
    ensures var b := Poke(s.buf, w, bs);
      && Agree(s.buf, b, s.tail, s.head)
      && Chain(b, s.tail, s.head) && Queue(b, s.tail, s.head) == Live(s)
      && (s.tail < s.headCache ==> Chain(b, s.tail, s.headCache))
      && ConsumerOk(b, s.tail, s.head, s.headCache, s.cons)
  {
    var b := Poke(s.buf, w, bs);
    PutOutside(s.buf, s.tail, s.head, w, bs);
    AgreeQueue(s.buf, b, s.tail, s.head, s.tail, s.head);
    if s.tail < s.headCache { AgreeQueue(s.buf, b, s.tail, s.head, s.tail, s.headCache); }
    if s.tail < s.head { AgreeRecord(s.buf, b, s.tail, s.head, s.tail, s.head); }
  }

  // ---- reservation arithmetic, on plain numbers

  lemma RoomArithmetic(cap: nat, pos: nat, used: nat, n: nat, max: int)
    requires cap % 16 == 0 && pos % 16 == 0 && used % 16 == 0 && pos < cap
    requires HDR + Pad(n) <= cap - pos && HDR + Pad(n) <= cap - used
    requires max == (if cap - pos < cap - used then cap - pos else cap - used) - HDR
    ensures max % 16 == 0 && Pad(n) <= max
  {
    var c := Sixteenth(cap);
    var p := Sixteenth(pos);
    var u := Sixteenth(used);
    Multiple(max, (if c - p < c - u then c - p else c - u) - 1);
  }

  lemma WrapArithmetic(cap: nat, pos: nat, used: nat, n: nat, max: int)
    requires cap % 16 == 0 && pos % 16 == 0 && used % 16 == 0 && pos < cap
    requires (cap - pos) + HDR + Pad(n) <= cap - used
    requires max == (if cap < cap - used - (cap - pos) then cap else cap - used - (cap - pos)) - HDR
    ensures max % 16 == 0 && Pad(n) <= max && max + HDR <= cap
  {
    var c := Sixteenth(cap);
    var p := Sixteenth(pos);
    var u := Sixteenth(used);
    Multiple(max, (if c < p - u then c else p - u) - 1);
  }

  lemma AlignedSum(a: nat, b: nat)
    requires a % 16 == 0 && b % 16 == 0
    ensures (a - b) % 16 == 0 && (a + b) % 16 == 0
  {
    var x := Sixteenth(a);
    var y := Sixteenth(b);
    Multiple(a - b, x - y);
    Multiple(a + b, x + y);
  }

  /** ra_reserve's maximum: a multiple of 16, at least the request, inside the free space and the turn. */
  lemma MaxDataFits(buf: seq<byte>, head: nat, tailCache: nat, n: nat)
    requires Sized(buf) && tailCache <= head <= tailCache + |buf| && head % 16 == 0 && tailCache % 16 == 0
    requires TotalFor(buf, head, n) <= Free(|buf|, head, tailCache)
    ensures var max, hdr := MaxData(buf, head, tailCache, n), head + SkipFor(buf, head, n);
      && Pad(n) <= max && max % 16 == 0 && hdr % 16 == 0
      && Pos(buf, hdr) + HDR + max <= |buf| && hdr + HDR + max <= tailCache + |buf|
  {
    var cap, pos, max := |buf|, Pos(buf, head), MaxData(buf, head, tailCache, n);
    FoldAligned(head, cap);
    AlignedSum(head, tailCache);
    if SkipFor(buf, head, n) == 0 {
      RoomArithmetic(cap, pos, head - tailCache, n, max);
    } else {
      FoldToEnd(head, cap);
      AlignedSum(cap, pos);
      AlignedSum(head, cap - pos);
      WrapArithmetic(cap, pos, head - tailCache, n, max);
    }
  }

  // ---- what each writing step keeps

  /** A staged SKIP marker survives a write at or past the staged header. */
  lemma SkipSurvives(buf: seq<byte>, head: nat, hdr: nat, w: nat, bs: seq<byte>)
    requires Sized(buf) && head % 16 == 0 && SkipStaged(buf, head, hdr)
    requires hdr <= w && w + |bs| <= head + |buf| && Pos(buf, w) + |bs| <= |buf|
    ensures SkipStaged(Poke(buf, w, bs), head, hdr)
  {
    if hdr != head {
      FoldAligned(head, |buf|);
      PutOutside(buf, head, head + HDR, w, bs);
      AgreeHeader(buf, Poke(buf, w, bs), head, head + HDR, head);
    }
  }

  /** The SKIP marker ra_reserve writes reads back as one that ends at the physical end. */
  lemma SkipIsStaged(buf: seq<byte>, head: nat)
    requires Sized(buf) && head % 16 == 0
    ensures var skip := ToEnd(buf, head);
      && HDR <= skip && Pos(buf, head) + HDR <= |buf|
      && SkipStaged(Poke(buf, head, HeaderBytes(SKIP + (skip - HDR), 0)), head, head + skip)
  {
    FoldAligned(head, |buf|);
    HeaderReadBack(buf, head, SKIP + (ToEnd(buf, head) - HDR), 0);
  }

  /** What ra_reserve leaves behind: the SKIP, if it needs one, and the span it hands out. */
  lemma StageIsStaged(buf: seq<byte>, head: nat, tailCache: nat, n: nat, skip: nat, b: seq<byte>)
    requires Sized(buf) && tailCache <= head <= tailCache + |buf| && head % 16 == 0 && tailCache % 16 == 0
    requires TotalFor(buf, head, n) <= Free(|buf|, head, tailCache) && skip == SkipFor(buf, head, n)
    requires b == if skip > 0 then Poke(buf, head, HeaderBytes(SKIP + (skip - HDR), 0)) else buf
    ensures var max := MaxData(buf, head, tailCache, n);
      Pad(n) <= max && ProducerOk(b, head, tailCache, PReserved(head + skip, max))
  {
    MaxDataFits(buf, head, tailCache, n);
    if skip > 0 { SkipIsStaged(buf, head); }
  }

  lemma StageKeepsInv(s: State)
    requires Inv(s) && Enabled(s, ReserveStage)
    ensures var r := Do(s, ReserveStage);
      Inv(r) && Live(r) == Live(s) && r.prod.PReserved? && Pad(s.prod.min) <= r.prod.max
  {
    var n := s.prod.min;
    var skip, max := SkipFor(s.buf, s.head, n), MaxData(s.buf, s.head, s.tailCache, n);
    var b := if skip > 0 then Poke(s.buf, s.head, HeaderBytes(SKIP + (skip - HDR), 0)) else s.buf;
    StageIsStaged(s.buf, s.head, s.tailCache, n, skip, b);
    StageUnseen(s, skip, b);
    Rewritten(s, b, PReserved(s.head + skip, max));
    StageMeans(s, skip, max, b);
  }

  lemma StageMeans(s: State, skip: nat, max: nat, b: seq<byte>)
    requires Enabled(s, ReserveStage) && skip == SkipFor(s.buf, s.head, s.prod.min)
    requires max == MaxData(s.buf, s.head, s.tailCache, s.prod.min)
    requires b == if skip > 0 then Poke(s.buf, s.head, HeaderBytes(SKIP + (skip - HDR), 0)) else s.buf
    ensures Do(s, ReserveStage) == s.(buf := b, prod := PReserved(s.head + skip, max))
  {
  }

  lemma StageUnseen(s: State, skip: nat, b: seq<byte>)
    requires Inv(s) && (skip > 0 ==> skip == ToEnd(s.buf, s.head) && s.head + HDR <= s.tailCache + |s.buf|)
    requires b == if skip > 0 then Poke(s.buf, s.head, HeaderBytes(SKIP + (skip - HDR), 0)) else s.buf
    ensures Chain(b, s.tail, s.head) && Queue(b, s.tail, s.head) == Live(s)
    ensures s.tail < s.headCache ==> Chain(b, s.tail, s.headCache)
    ensures ConsumerOk(b, s.tail, s.head, s.headCache, s.cons)
  {
    if skip > 0 {
      assert HDR <= skip && Pos(s.buf, s.head) + HDR <= |s.buf| by { SkipIsStaged(s.buf, s.head); }
      WriteUnpublished(s, s.head, HeaderBytes(SKIP + (skip - HDR), 0));
    }
  }

  /** Bytes and producer state may change as long as the consumer sees the same. */
  lemma Rewritten(s: State, b: seq<byte>, prod: Producer)
    requires Inv(s) && |b| == |s.buf| && ProducerOk(b, s.head, s.tailCache, prod)
    requires Chain(b, s.tail, s.head) && Queue(b, s.tail, s.head) == Live(s)
    requires s.tail < s.headCache ==> Chain(b, s.tail, s.headCache)
    requires ConsumerOk(b, s.tail, s.head, s.headCache, s.cons)
    ensures var r := s.(buf := b, prod := prod); Inv(r) && Live(r) == Live(s)
  {
  }

  lemma UserWriteKeepsInv(s: State, i: nat, b: byte)
    requires Inv(s) && Enabled(s, UserWrite(i, b))
    ensures Inv(Do(s, UserWrite(i, b))) && Live(Do(s, UserWrite(i, b))) == Live(s)
  {
    var w := s.prod.hdr + HDR + i;
    FoldShift(s.prod.hdr, HDR + i, |s.buf|);
    WriteUnpublished(s, w, [b]);
    SkipSurvives(s.buf, s.head, s.prod.hdr, w, [b]);
  }

  lemma PadWithin(size: nat, max: nat)
    requires size <= max && max % 16 == 0
    ensures Pad(size) <= max
  {
  }

  lemma CommitHeaderKeepsInv(s: State, size: nat, tag: nat)
    requires Inv(s) && Enabled(s, CommitHeader(size, tag))
    ensures var r := Do(s, CommitHeader(size, tag)); Inv(r) && Live(r) == Live(s)
  {
    var hdr, hb := s.prod.hdr, HeaderBytes(size, tag);
    FoldAligned(hdr, |s.buf|);
    PadWithin(size, s.prod.max);
    WriteUnpublished(s, hdr, hb);
    HeaderReadBack(s.buf, hdr, size, tag);
    SkipSurvives(s.buf, s.head, hdr, hdr, hb);
  }

  lemma StagedIsRecord(buf: seq<byte>, head: nat, tailCache: nat, hdr: nat, size: nat, tag: nat)
    requires Sized(buf) && head % 16 == 0 && size < SKIP
    requires Staged(buf, head, tailCache, hdr, Pad(size)) && HeaderAt(buf, hdr) == Header(size, tag)
    ensures BlockStart(buf, head) == hdr
    ensures RecordFits(buf, head, hdr + HDR + Pad(size)) && RecordEnd(buf, head) == hdr + HDR + Pad(size)
  {
  }

  lemma PublishIndices(cap: nat, head: nat, tail: nat, tailCache: nat, headCache: nat, hdr: nat, size: nat)
    requires IndicesOk(cap, head, tail, tailCache, headCache)
    requires hdr % 16 == 0 && head <= hdr && hdr + HDR + Pad(size) <= tailCache + cap
    ensures IndicesOk(cap, hdr + HDR + Pad(size), tail, tailCache, headCache)
  {
  }

  /** Storing head appends exactly the staged block. */
  lemma PublishAppends(s: State)
    requires Inv(s) && Enabled(s, CommitPublish)
    ensures var r := Do(s, CommitPublish);
      Inv(r) && Live(r) == Live(s) + [Block(Span(s.buf, s.prod.hdr + HDR, s.prod.size), s.prod.tag)]
  {
    var hdr, size, tag := s.prod.hdr, s.prod.size, s.prod.tag;
    var r := Do(s, CommitPublish);
    StagedIsRecord(s.buf, s.head, s.tailCache, hdr, size, tag);
    PublishIndices(|s.buf|, s.head, s.tail, s.tailCache, s.headCache, hdr, size);
    AppendRecord(s.buf, s.tail, s.head, r.head);
    PublishConsumer(s.buf, s.tail, s.head, r.head, s.headCache, s.cons);
  }

  lemma PublishConsumer(buf: seq<byte>, tail: nat, head: nat, head': nat, headCache: nat, cons: Consumer)
    requires |buf| > 0 && head <= head' && ConsumerOk(buf, tail, head, headCache, cons)
    ensures ConsumerOk(buf, tail, head', headCache, cons)
  {
  }

  /** The oldest record off the front of a chain. */
  lemma QueueDrops(buf: seq<byte>, t: nat, h: nat)
    requires Sized(buf) && Chain(buf, t, h) && t < h
    ensures var e := RecordEnd(buf, t);
      && e <= h && e % 16 == 0 && Chain(buf, e, h)
      && Queue(buf, t, h) != [] && Queue(buf, t, h)[1..] == Queue(buf, e, h)
  {
  }

  /** Storing tail drops exactly the oldest block. */
  lemma ReleaseDrops(s: State)
    requires Inv(s) && Enabled(s, ReleaseStore)
    ensures var r := Do(s, ReleaseStore); Inv(r) && Live(s) != [] && Live(r) == Live(s)[1..]
  {
    QueueDrops(s.buf, s.tail, s.head);
    if s.tail < s.headCache { QueueDrops(s.buf, s.tail, s.headCache); }
  }

  lemma ProducerQuiet(s: State, step: Step)
    requires Inv(s) && Enabled(s, step)
    requires step.ReserveStart? || step.ReserveLoad? || step.Abort?
    ensures Inv(Do(s, step)) && Live(Do(s, step)) == Live(s)
  {
  }

  lemma ConsumerQuiet(s: State, step: Step)
    requires Inv(s) && Enabled(s, step)
    requires step.PeekStart? || step.PeekLoad? || step.PeekRead? || step.PeekHop? || step.PeekDone?
    ensures Inv(Do(s, step)) && Live(Do(s, step)) == Live(s)
  {
  }

  lemma ReleaseQuiet(s: State, step: Step)
    requires Inv(s) && Enabled(s, step) && (step.ReleaseStart? || step.ReleaseHop?)
    ensures Inv(Do(s, step)) && Live(Do(s, step)) == Live(s)
  {
  }
}
