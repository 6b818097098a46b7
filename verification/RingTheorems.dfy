/** What every interleaving of the ring's two threads guarantees. */
module RingTheorems {
  import opened Bytes
  import opened RingLayout
  import opened RingMachine

  // ---- the invariant over one step, and what it does to the queue

  /** The block a publish hands over. */
  function Published(s: State): Block
    requires |s.buf| > 0 && s.prod.PPublish?
  {
    Block(Span(s.buf, s.prod.hdr + HDR, s.prod.size), s.prod.tag)
  }

  /** Every step keeps the invariant; only the two index stores move the queue. */
  lemma StepKeepsInv(s: State, step: Step)
    requires Inv(s) && Enabled(s, step)
    ensures var r := Do(s, step);
      && Inv(r)
      && (step.CommitPublish? ==> Live(r) == Live(s) + [Published(s)])
      && (step.ReleaseStore? ==> Live(s) != [] && Live(r) == Live(s)[1..])
      && (!step.CommitPublish? && !step.ReleaseStore? ==> Live(r) == Live(s))
  {
    match step
    case ReserveStage => StageKeepsInv(s);
    case UserWrite(i, b) => UserWriteKeepsInv(s, i, b);
    case CommitHeader(size, tag) => CommitHeaderKeepsInv(s, size, tag);
    case CommitPublish => PublishAppends(s);
    case ReleaseStore => ReleaseDrops(s);
    case ReleaseStart => ReleaseQuiet(s, step);
    case ReleaseHop => ReleaseQuiet(s, step);
    case ReserveStart(_) => ProducerQuiet(s, step);
    case ReserveLoad => ProducerQuiet(s, step);
    case Abort => ProducerQuiet(s, step);
    case PeekStart => ConsumerQuiet(s, step);
    case PeekLoad => ConsumerQuiet(s, step);
    case PeekRead => ConsumerQuiet(s, step);
    case PeekHop => ConsumerQuiet(s, step);
    case PeekDone => ConsumerQuiet(s, step);
  }

  /** Writing the header of a commit does not touch the bytes the caller filled in. */
  lemma CommitKeepsData(s: State, size: nat, tag: nat)
    requires Inv(s) && Enabled(s, CommitHeader(size, tag))
    ensures Published(Do(s, CommitHeader(size, tag))) == Block(Span(s.buf, s.prod.hdr + HDR, size), tag)
  {
    var hdr, hb := s.prod.hdr, HeaderBytes(size, tag);
    FoldAligned(hdr, |s.buf|);
    PutBefore(s.buf, hdr, hb, hdr + HDR, hdr + HDR + size);
    AgreeSpan(s.buf, Poke(s.buf, hdr, hb), hdr + HDR, hdr + HDR + size, hdr + HDR, size);
  }

  // ---- safety of the shared bytes

  /** Everything a reservation lets the producer write lies off every live byte. */
  lemma ReservationIsDisjoint(s: State, x: nat, y: nat)
    requires Inv(s) && s.prod.PReserved?
    requires s.tail <= x < s.head && s.head <= y < s.prod.hdr + HDR + s.prod.max
    ensures Pos(s.buf, x) != Pos(s.buf, y)
  {
    if Pos(s.buf, x) == Pos(s.buf, y) { FoldInjective(x, y, |s.buf|); }
  }

  /** The consumer's two assertions: a SKIP is never exposed alone, and never twice. */
  lemma PeekAssertionsHold(s: State)
    requires Inv(s) && s.cons.CHop?
    ensures s.cons.at < s.headCache && !IsSkip(HeaderAt(s.buf, s.cons.at))
  {
  }

  /** What the consumer holds is contiguous, aligned, live, and the oldest block. */
  lemma HeldIsOldest(s: State)
    requires Inv(s) && s.cons.CHolding?
    ensures var c := s.cons;
      && Live(s) != [] && Live(s)[0] == Block(Span(s.buf, c.data, c.size), c.tag)
      && c.data % 16 == 0 && s.tail < c.data && c.data + c.size <= s.head
      && Pos(s.buf, c.data - HDR) + HDR + c.size <= |s.buf|
  {
    QueueHead(s.buf, s.tail, s.head);
    HeldFits(s.buf, s.tail, s.head, s.headCache, s.cons);
  }

  lemma HeldFits(buf: seq<byte>, tail: nat, head: nat, headCache: nat, c: Consumer)
    requires Sized(buf) && c.CHolding? && tail < head && RecordFits(buf, tail, head)
    requires ConsumerOk(buf, tail, head, headCache, c)
    ensures BlockAt(buf, BlockStart(buf, tail)) == Block(Span(buf, c.data, c.size), c.tag)
    ensures c.data % 16 == 0 && tail < c.data && c.data + c.size <= head
    ensures Pos(buf, c.data - HDR) + HDR + c.size <= |buf|
  {
    AlignedSum(BlockStart(buf, tail), HDR);
  }

  // ---- whole runs

  function Gain(s: State, step: Step): seq<Block>
    requires Enabled(s, step)
  {
    if step.CommitPublish? then [Published(s)] else []
  }

  function Loss(step: Step): nat {
    if step.ReleaseStore? then 1 else 0
  }

  /** The blocks handed over in a run, in publish order. */
  function Committed(s: State, steps: seq<Step>): seq<Block>
    requires CanRun(s, steps)
    decreases |steps|
  {
    if steps == [] then [] else Gain(s, steps[0]) + Committed(Do(s, steps[0]), steps[1..])
  }

  function Releases(steps: seq<Step>): nat {
    if steps == [] then 0 else Loss(steps[0]) + Releases(steps[1..])
  }

  lemma QueueMoves(live: seq<Block>, live': seq<Block>, gain: seq<Block>, loss: nat, later: seq<Block>, k: nat)
    requires if loss == 0 then live' == live + gain else loss == 1 && gain == [] && live != [] && live' == live[1..]
    requires k <= |live' + later|
    ensures var all := live + (gain + later); loss + k <= |all| && all[loss + k..] == (live' + later)[k..]
  {
    if loss == 0 {
      assert live + (gain + later) == live' + later;
    } else {
      var all := live + later;
      assert gain + later == later && all[1..] == live' + later;
      assert all[1 + k..] == all[1..][k..];
    }
  }

  lemma StepMovesQueue(s: State, step: Step, later: seq<Block>, k: nat)
    requires Inv(s) && Enabled(s, step)
    requires Inv(Do(s, step)) ==> k <= |Live(Do(s, step)) + later|
    ensures Inv(Do(s, step))
    ensures var all := Live(s) + (Gain(s, step) + later);
      Loss(step) + k <= |all| && all[Loss(step) + k..] == (Live(Do(s, step)) + later)[k..]
  {
    StepKeepsInv(s, step);
    assert Live(s) + [] == Live(s);
    QueueMoves(Live(s), Live(Do(s, step)), Gain(s, step), Loss(step), later, k);
  }

  /** From any good state the queue gains what is committed at the back and loses what is released at the front. */
  lemma {:induction false} RunMovesQueue(s: State, steps: seq<Step>)
    requires Inv(s) && CanRun(s, steps)
    ensures var r, all := Exec(s, steps), Live(s) + Committed(s, steps);
      Inv(r) && Releases(steps) <= |all| && Live(r) == all[Releases(steps)..]
    decreases |steps|
  {
    if steps == [] {
      assert Live(s) + [] == Live(s);
    } else {
      var mid, rest := Do(s, steps[0]), steps[1..];
      StepKeepsInv(s, steps[0]);
      RunMovesQueue(mid, rest);
      StepMovesQueue(s, steps[0], Committed(mid, rest), Releases(rest));
    }
  }

  /**
   The ring is a FIFO queue: after any run from ra_init, whatever the
   interleaving, the live blocks are the committed ones minus the released
   prefix, and a block the consumer holds is, byte for byte, the oldest of them.
   */
  lemma FifoRefinement(buf: seq<byte>, steps: seq<Step>)
    requires GoodCapacity(|buf|) && CanRun(Init(buf), steps)
    ensures var s, sent, k := Exec(Init(buf), steps), Committed(Init(buf), steps), Releases(steps);
      && Inv(s) && k <= |sent| && Live(s) == sent[k..]
      && (s.cons.CHolding? ==>
            k < |sent| && sent[k] == Block(Span(s.buf, s.cons.data, s.cons.size), s.cons.tag))
  {
    InitInv(buf);
    RunMovesQueue(Init(buf), steps);
    var s, sent := Exec(Init(buf), steps), Committed(Init(buf), steps);
    assert Live(Init(buf)) + sent == sent;
    if s.cons.CHolding? { HeldIsOldest(s); }
  }

  /** ra_peek reports empty exactly when everything committed had been released as head was read. */
  lemma EmptyIsHonest(buf: seq<byte>, steps: seq<Step>)
    requires GoodCapacity(|buf|) && CanRun(Init(buf), steps)
    requires Enabled(Exec(Init(buf), steps), PeekLoad)
    ensures var s := Exec(Init(buf), steps);
      Do(s, PeekLoad).cons.CIdle? <==> |Committed(Init(buf), steps)| == Releases(steps)
  {
    FifoRefinement(buf, steps);
  }

  // ---- fit

  /** The rule ra_reserve documents, in terms of where head sits. */
  predicate FitsEmpty(cap: nat, phase: nat, n: nat) {
    n <= cap && (HDR + Pad(n) <= cap - phase || (cap - phase) + HDR + Pad(n) <= cap)
  }

  /** The state once ra_reserve has run to its end. */
  function Reserve(s: State, n: nat): State
    requires |s.buf| > 0 && s.prod.PIdle?
  {
    var a := Do(s, ReserveStart(n));
    var b := if a.prod.PLoadTail? then Do(a, ReserveLoad) else a;
    if b.prod.PStage? then Do(b, ReserveStage) else b
  }

  /**
   Whether a 16-byte header and the padded data fit, with `phase` the place of head in the
   buffer: up to the physical end, or else behind a SKIP that uses up the rest of the turn.
   */
  predicate Fits(cap: nat, phase: nat, free: int, n: nat) {
    var need, toEnd := 16 + Pad(n), cap - phase;
    n <= cap && ((need <= toEnd && need <= free) || (need > toEnd && toEnd + need <= free))
  }

  /** ra_reserve succeeds exactly when header and data fit, however stale the cached tail. */
  lemma ReserveSucceedsIff(s: State, n: nat)
    requires Inv(s) && s.prod.PIdle?
    ensures Reserve(s, n).prod.PReserved? <==>
              Fits(|s.buf|, s.head % |s.buf|, |s.buf| - (s.head - s.tail), n)
  {
    FoldIsModulo(s.head, |s.buf|);
  }

  /**
   What it hands out then: the header goes to head, or to the start of the next turn; the room
   reported is all there is up to the physical end and the tail it knows of, and the shared tail
   is read only if the cached one does not do.
   */
  lemma ReserveSpan(s: State, n: nat)
    requires Inv(s) && s.prod.PIdle? && Reserve(s, n).prod.PReserved?
    ensures var cap, phase, p := |s.buf|, s.head % |s.buf|, Reserve(s, n).prod;
      var known := if Fits(cap, phase, cap - (s.head - s.tailCache), n) then s.tailCache else s.tail;
      && Reserve(s, n).tailCache == known
      && p.hdr == s.head + (if 16 + Pad(n) <= cap - phase then 0 else cap - phase)
      && 16 + p.max == Min(cap - p.hdr % cap, known + cap - p.hdr)
  {
    var known := ReserveStages(s, n);
    SpanNumbers(s.buf, s.head, known, n);
    StageReserves(s.(tailCache := known), n);
  }

  lemma ReserveStages(s: State, n: nat) returns (known: nat)
    requires Inv(s) && s.prod.PIdle? && Reserve(s, n).prod.PReserved?
    ensures known == if Fits(|s.buf|, s.head % |s.buf|, |s.buf| - (s.head - s.tailCache), n) then s.tailCache else s.tail
    ensures TotalFor(s.buf, s.head, n) <= Free(|s.buf|, s.head, known)
    ensures Reserve(s, n) == Do(s.(tailCache := known, prod := PStage(n)), ReserveStage)
  {
    ReserveSucceedsIff(s, n);
    known := if Free(|s.buf|, s.head, s.tailCache) < TotalFor(s.buf, s.head, n) then s.tail else s.tailCache;
    FitsIsTotal(s.buf, s.head, s.tailCache, n);
    FitsIsTotal(s.buf, s.head, known, n);
    ReserveOutcome(s, n, s.(tailCache := known));
  }

  lemma FitsIsTotal(buf: seq<byte>, head: nat, known: nat, n: nat)
    requires Sized(buf) && known <= head
    ensures Fits(|buf|, head % |buf|, |buf| - (head - known), n)
       <==> n <= |buf| && TotalFor(buf, head, n) <= Free(|buf|, head, known)
  {
    FoldIsModulo(head, |buf|);
  }

  lemma StageReserves(s: State, n: nat)
    requires |s.buf| > 0 && MaxData(s.buf, s.head, s.tailCache, n) >= 0
    ensures var r := Do(s.(prod := PStage(n)), ReserveStage);
      && r.tailCache == s.tailCache
      && r.prod == PReserved(s.head + SkipFor(s.buf, s.head, n), MaxData(s.buf, s.head, s.tailCache, n))
  {
  }

  lemma SpanNumbers(buf: seq<byte>, head: nat, known: nat, n: nat)
    requires Sized(buf) && known <= head <= known + |buf| && head % 16 == 0 && known % 16 == 0
    requires TotalFor(buf, head, n) <= Free(|buf|, head, known)
    ensures var cap, phase := |buf|, head % |buf|;
      var hdr, max := head + SkipFor(buf, head, n), MaxData(buf, head, known, n);
      && max >= 0 && hdr == head + (if 16 + Pad(n) <= cap - phase then 0 else cap - phase)
      && 16 + max == Min(cap - hdr % cap, known + cap - hdr)
  {
    MaxDataFits(buf, head, known, n);
    FoldIsModulo(head, |buf|);
    FoldToEnd(head, |buf|);
    FoldIsModulo(head + SkipFor(buf, head, n), |buf|);
  }

  function Min(a: int, b: int): int {
    if a < b then a else b
  }

  /** In an empty ring, at any phase and with any stale cache, the fit rule is exact. */
  lemma EmptyRingFit(s: State, n: nat)
    requires Inv(s) && s.prod.PIdle? && s.tail == s.head
    ensures Reserve(s, n).prod.PReserved? <==> FitsEmpty(|s.buf|, Pos(s.buf, s.head), n)
  {
    ReserveSucceedsIff(s, n);
  }

  lemma HalfFits(cap: nat, phase: nat, n: nat)
    requires cap % 16 == 0 && phase % 16 == 0 && phase < cap && n + 16 <= cap / 2
    ensures FitsEmpty(cap, phase, n)
  {
    var k, p, m := cap / 16, phase / 16, (n + 15) / 16;
    assert cap == 16 * k && phase == 16 * p && Pad(n) == 16 * m;
    assert 16 * m <= n + 15 && 2 * (n + 16) <= cap;
    assert 2 * m < k;
  }

  /** The documented guarantee: up to half the capacity less a header fits at every phase. */
  lemma HalfAlwaysFits(s: State, n: nat)
    requires Inv(s) && s.prod.PIdle? && s.tail == s.head && n + 16 <= |s.buf| / 2
    ensures Reserve(s, n).prod.PReserved?
  {
    FoldAligned(s.head, |s.buf|);
    HalfFits(|s.buf|, Pos(s.buf, s.head), n);
    EmptyRingFit(s, n);
  }

  /** The largest block of all fits at phase 0 only, and is capacity - 16 bytes. */
  lemma LargestBlock(cap: nat, phase: nat, n: nat)
    requires GoodCapacity(cap) && phase < cap && phase % 16 == 0
    ensures FitsEmpty(cap, phase, n) ==> n <= cap - 16
    ensures FitsEmpty(cap, phase, cap - 16) <==> phase == 0
  {
    GoodCapacityIsSized(cap);
  }

  /** Where ra_reserve ends up, in one piece. */
  lemma ReserveOutcome(s: State, n: nat, r: State)
    requires Inv(s) && s.prod.PIdle?
    requires n <= |s.buf|
    requires var total := TotalFor(s.buf, s.head, n);
      r == s.(tailCache := if Free(|s.buf|, s.head, s.tailCache) < total then s.tail else s.tailCache)
    ensures Reserve(s, n) ==
            if Free(|s.buf|, s.head, r.tailCache) < TotalFor(s.buf, s.head, n) then r
            else Do(r.(prod := PStage(n)), ReserveStage)
  {
  }

  /** The span a reservation hands out lies inside the buffer, in one piece. */
  lemma ReservationIsContiguous(s: State)
    requires Inv(s) && s.prod.PReserved?
    ensures Pos(s.buf, s.prod.hdr) + HDR + s.prod.max <= |s.buf|
  {
  }

  /** ra_reserve up to the point where it stages anything. */
  lemma ReserveDecides(s: State, n: nat) returns (b: State)
    requires Inv(s) && s.prod.PIdle?
    ensures Inv(b) && Live(b) == Live(s) && !b.prod.PReserved? && (b.prod.PStage? ==> b.prod.min == n)
    ensures Reserve(s, n) == if b.prod.PStage? then Do(b, ReserveStage) else b
  {
    var a := Do(s, ReserveStart(n));
    ProducerQuiet(s, ReserveStart(n));
    b := a;
    if a.prod.PLoadTail? {
      ProducerQuiet(a, ReserveLoad);
      b := Do(a, ReserveLoad);
    }
  }

  /** A reservation keeps the queue, and reports a multiple of 16 no smaller than asked. */
  lemma ReserveKeepsInv(s: State, n: nat)
    requires Inv(s) && s.prod.PIdle?
    ensures var r := Reserve(s, n);
      Inv(r) && Live(r) == Live(s) && (r.prod.PReserved? ==> n <= r.prod.max && r.prod.max % 16 == 0)
  {
    var b := ReserveDecides(s, n);
    if b.prod.PStage? { StageKeepsInv(b); }
  }

  /** Any size up to the reported maximum can be committed, and appends the caller's bytes. */
  lemma CommitAppends(r: State, size: nat, tag: nat)
    requires Inv(r) && r.prod.PReserved? && size <= r.prod.max && tag < U64_LIMIT
    ensures var p := Do(Do(r, CommitHeader(size, tag)), CommitPublish);
      Inv(p) && Live(p) == Live(r) + [Block(Span(r.buf, r.prod.hdr + HDR, size), tag)]
  {
    CommitHeaderKeepsInv(r, size, tag);
    CommitKeepsData(r, size, tag);
    PublishAppends(Do(r, CommitHeader(size, tag)));
  }
}
