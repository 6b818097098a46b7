/**
 The arena: a chain of malloc'd blocks, bump-allocated and rewound by position.
 Allocations and open temporaries are ghost history; the fields are the source's.
 */
module Arena {
  import opened Bytes
  import opened RingLayout

  const DEFAULT_BLOCK: nat := 65536

  /** One block: `addr` is where its payload starts, `base` the capacities of the blocks before it. */
  datatype ArenaBlock = ArenaBlock(addr: nat, cap: nat, used: nat, base: nat)

  /** A live allocation of `size` bytes at address `at`, cut from block `block`. */
  datatype Alloc = Alloc(block: nat, at: nat, size: nat, align: nat)

  /** An open temporary: the saved position, and how many allocations were live. */
  datatype Mark = Mark(pos: nat, count: nat)

  /** (x + (p - 1)) & ~(p - 1). */
  function AlignPow2(x: nat, p: nat): (r: nat)
    requires IsPowerOfTwo(p)
    ensures x <= r < x + p && Fold(r, p) == 0
  {
    AlignFacts(x + p - 1, p);
    x + p - 1 - And(x + p - 1, p - 1)
  }

  lemma AlignFacts(y: nat, p: nat)
    requires IsPowerOfTwo(p)
    ensures And(y, p - 1) == Fold(y, p) <= y && Fold(y - Fold(y, p), p) == 0
  {
    MaskFolds(y, p);
    FoldDown(y, p);
  }

  // ---- blocks

  predicate Apart(a: nat, n: nat, b: nat, m: nat) {
    a + n <= b || b + m <= a
  }

  predicate Chained(bs: seq<ArenaBlock>) {
    && |bs| > 0 && bs[0].base == 0
    && (forall i :: 0 <= i < |bs| ==> 0 < bs[i].cap && bs[i].used <= bs[i].cap)
    && (forall i, j :: 0 <= i < j < |bs| ==>
          && bs[i].base + bs[i].cap <= bs[j].base
          && (j == i + 1 ==> bs[i].base + bs[i].cap == bs[j].base)
          && Apart(bs[i].addr, bs[i].cap, bs[j].addr, bs[j].cap))
  }

  /** Blocks past the current one hold nothing. */
  predicate Reset(bs: seq<ArenaBlock>, cur: nat) {
    forall i :: cur < i < |bs| ==> bs[i].used == 0
  }

  /** Same blocks in the same place, whatever their fill. */
  predicate SamePlace(bs: seq<ArenaBlock>, bs': seq<ArenaBlock>) {
    && |bs| <= |bs'|
    && forall i :: 0 <= i < |bs| ==> bs'[i].addr == bs[i].addr && bs'[i].cap == bs[i].cap && bs'[i].base == bs[i].base
  }

  // ---- allocations

  predicate InBlock(bs: seq<ArenaBlock>, a: Alloc) {
    && a.block < |bs|
    && bs[a.block].addr <= a.at
    && a.at + a.size <= bs[a.block].addr + bs[a.block].used
  }

  predicate Aligned(a: Alloc) {
    a.align > 0 && Fold(a.at, a.align) == 0
  }

  /** Live allocations are aligned, inside the used part of their block, and pairwise disjoint. */
  predicate Sound(bs: seq<ArenaBlock>, live: seq<Alloc>) {
    && (forall i :: 0 <= i < |live| ==> InBlock(bs, live[i]) && Aligned(live[i]))
    && (forall i, j :: 0 <= i < j < |live| ==> Apart(live[i].at, live[i].size, live[j].at, live[j].size))
  }

  /** The logical position just behind an allocation. */
  function EndPos(bs: seq<ArenaBlock>, a: Alloc): nat
    requires InBlock(bs, a)
  {
    bs[a.block].base + (a.at - bs[a.block].addr) + a.size
  }

  predicate Below(bs: seq<ArenaBlock>, live: seq<Alloc>, count: nat, pos: nat) {
    && count <= |live|
    && forall i :: 0 <= i < count ==> InBlock(bs, live[i]) && EndPos(bs, live[i]) <= pos
  }

  /** Open temporaries nest: positions and counts grow, up to the present position. */
  predicate Nested(bs: seq<ArenaBlock>, live: seq<Alloc>, marks: seq<Mark>, pos: nat) {
    && (forall m :: 0 <= m < |marks| ==> marks[m].pos <= pos && Below(bs, live, marks[m].count, marks[m].pos))
    && (forall m, n :: 0 <= m < n < |marks| ==> marks[m].pos <= marks[n].pos && marks[m].count <= marks[n].count)
  }

  function Position(bs: seq<ArenaBlock>, cur: nat): nat
    requires cur < |bs|
  {
    bs[cur].base + bs[cur].used
  }

  ghost predicate Inv(bs: seq<ArenaBlock>, cur: nat, live: seq<Alloc>, marks: seq<Mark>) {
    && Chained(bs) && cur < |bs| && Reset(bs, cur)
    && Sound(bs, live) && Below(bs, live, |live|, Position(bs, cur))
    && Nested(bs, live, marks, Position(bs, cur))
  }

  // ---- the bump

  function Start(b: ArenaBlock, align: nat): (p: nat)
    requires IsPowerOfTwo(align)
    ensures b.addr + b.used <= p < b.addr + b.used + align && Fold(p, align) == 0
  {
    AlignPow2(b.addr + b.used, align)
  }

  function Need(b: ArenaBlock, size: nat, align: nat): nat
    requires IsPowerOfTwo(align)
  {
    Start(b, align) - (b.addr + b.used) + size
  }

  predicate Room(b: ArenaBlock, size: nat, align: nat)
    requires IsPowerOfTwo(align)
  {
    b.used + Need(b, size, align) <= b.cap
  }

  function Bumped(bs: seq<ArenaBlock>, k: nat, size: nat, align: nat): seq<ArenaBlock>
    requires k < |bs| && IsPowerOfTwo(align)
  {
    bs[k := bs[k].(used := bs[k].used + Need(bs[k], size, align))]
  }

  /** `bs'` is `bs` with block `cur` filled up to `used`, and `a` the last allocation in it. */
  predicate Placed(bs: seq<ArenaBlock>, bs': seq<ArenaBlock>, cur: nat, used: nat, a: Alloc) {
    && cur < |bs| && bs' == bs[cur := bs[cur].(used := used)]
    && Aligned(a) && a.block == cur && used <= bs[cur].cap
    && bs[cur].addr + bs[cur].used <= a.at && a.at + a.size == bs[cur].addr + used
  }

  lemma PlacedChained(bs: seq<ArenaBlock>, bs': seq<ArenaBlock>, cur: nat, used: nat, a: Alloc)
    requires Chained(bs) && Reset(bs, cur) && Placed(bs, bs', cur, used, a)
    ensures Chained(bs') && Reset(bs', cur)
    ensures Position(bs', cur) >= Position(bs, cur)
  {
    assert forall i :: 0 <= i < |bs| && i != cur ==> bs'[i] == bs[i];
  }

  /** An allocation that was there stays put, and the new one does not touch it. */
  lemma PlacedApart(bs: seq<ArenaBlock>, bs': seq<ArenaBlock>, cur: nat, used: nat, a: Alloc, b: Alloc)
    requires Chained(bs) && Placed(bs, bs', cur, used, a) && InBlock(bs, b)
    ensures InBlock(bs', b) && EndPos(bs', b) == EndPos(bs, b)
    ensures Apart(b.at, b.size, a.at, a.size)
  {
    BlocksApart(bs, cur, b.block);
  }

  lemma PlaceKeeps(bs: seq<ArenaBlock>, bs': seq<ArenaBlock>, cur: nat, live: seq<Alloc>, live': seq<Alloc>,
                   marks: seq<Mark>, used: nat, a: Alloc)
    requires Inv(bs, cur, live, marks) && Placed(bs, bs', cur, used, a) && live' == live + [a]
    ensures Inv(bs', cur, live', marks)
  {
    PlacedChained(bs, bs', cur, used, a);
    forall i | 0 <= i < |live|
      ensures InBlock(bs', live[i]) && EndPos(bs', live[i]) == EndPos(bs, live[i])
      ensures Apart(live[i].at, live[i].size, a.at, a.size)
    {
      PlacedApart(bs, bs', cur, used, a, live[i]);
    }
    NestedStays(bs, bs', live, live', marks, Position(bs, cur), Position(bs', cur));
    assert EndPos(bs', a) == Position(bs', cur);
    forall i | 0 <= i < |live'|
      ensures InBlock(bs', live'[i]) && Aligned(live'[i]) && EndPos(bs', live'[i]) <= Position(bs', cur)
    {
      assert i < |live| ==> live'[i] == live[i] && Aligned(live[i]) && EndPos(bs, live[i]) <= Position(bs, cur);
    }
  }

  lemma BumpKeeps(bs: seq<ArenaBlock>, cur: nat, live: seq<Alloc>, marks: seq<Mark>, size: nat, align: nat)
    requires Inv(bs, cur, live, marks) && IsPowerOfTwo(align) && Room(bs[cur], size, align)
    ensures Inv(Bumped(bs, cur, size, align), cur, live + [Alloc(cur, Start(bs[cur], align), size, align)], marks)
    ensures Position(Bumped(bs, cur, size, align), cur) >= Position(bs, cur) + size
  {
    var p := Start(bs[cur], align);
    var a := Alloc(cur, p, size, align);
    PlaceKeeps(bs, Bumped(bs, cur, size, align), cur, live, live + [a], marks, bs[cur].used + Need(bs[cur], size, align), a);
  }

  lemma BlocksApart(bs: seq<ArenaBlock>, i: nat, j: nat)
    requires Chained(bs) && i < |bs| && j < |bs|
    ensures i == j || Apart(bs[i].addr, bs[i].cap, bs[j].addr, bs[j].cap)
  {
  }

  lemma NestedStays(bs: seq<ArenaBlock>, bs': seq<ArenaBlock>, live: seq<Alloc>, live': seq<Alloc>,
                    marks: seq<Mark>, pos: nat, pos': nat)
    requires Nested(bs, live, marks, pos) && pos <= pos' && live <= live'
    requires forall i :: 0 <= i < |live| ==> InBlock(bs, live[i]) && InBlock(bs', live[i])
    requires forall i :: 0 <= i < |live| ==> EndPos(bs', live[i]) == EndPos(bs, live[i])
    ensures Nested(bs', live', marks, pos')
  {
    forall m | 0 <= m < |marks|
      ensures Below(bs', live', marks[m].count, marks[m].pos)
    {
      assert Below(bs, live, marks[m].count, marks[m].pos);
    }
  }

  /** Moving on to the next block only raises the position. */
  lemma NextKeeps(bs: seq<ArenaBlock>, cur: nat, live: seq<Alloc>, marks: seq<Mark>)
    requires Inv(bs, cur, live, marks) && cur + 1 < |bs|
    ensures Inv(bs, cur + 1, live, marks)
    ensures Position(bs, cur + 1) >= Position(bs, cur)
  {
    assert bs[cur].base + bs[cur].cap == bs[cur + 1].base;
    NestedStays(bs, bs, live, live, marks, Position(bs, cur), Position(bs, cur + 1));
  }

  lemma GrownChained(bs: seq<ArenaBlock>, bs': seq<ArenaBlock>, nb: ArenaBlock)
    requires Chained(bs) && nb.cap > 0 && nb.used == 0 && nb.base == bs[|bs| - 1].base + bs[|bs| - 1].cap
    requires forall i :: 0 <= i < |bs| ==> Apart(bs[i].addr, bs[i].cap, nb.addr, nb.cap)
    requires bs' == bs + [nb]
    ensures Chained(bs') && Reset(bs', |bs| - 1)
  {
    var n := |bs| - 1;
    forall i, j | 0 <= i < j < |bs'|
      ensures bs'[i].base + bs'[i].cap <= bs'[j].base && (j == i + 1 ==> bs'[i].base + bs'[i].cap == bs'[j].base)
      ensures Apart(bs'[i].addr, bs'[i].cap, bs'[j].addr, bs'[j].cap)
    {
      assert bs'[i] == bs[i];
      if j <= n { assert bs'[j] == bs[j]; } else { assert i < n ==> bs[i].base + bs[i].cap <= bs[n].base; }
    }
  }

  /** A block that malloc placed clear of all the others. */
  lemma GrowKeeps(bs: seq<ArenaBlock>, bs': seq<ArenaBlock>, cur: nat, live: seq<Alloc>, marks: seq<Mark>, nb: ArenaBlock)
    requires Inv(bs, cur, live, marks) && cur + 1 == |bs|
    requires nb.cap > 0 && nb.used == 0 && nb.base == bs[cur].base + bs[cur].cap
    requires forall i :: 0 <= i < |bs| ==> Apart(bs[i].addr, bs[i].cap, nb.addr, nb.cap)
    requires bs' == bs + [nb]
    ensures Inv(bs', cur, live, marks)
  {
    GrownChained(bs, bs', nb);
    forall i | 0 <= i < |live| ensures InBlock(bs', live[i]) && EndPos(bs', live[i]) == EndPos(bs, live[i]) {
      assert InBlock(bs, live[i]);
    }
    NestedStays(bs, bs', live, live, marks, Position(bs, cur), Position(bs', cur));
  }

  // ---- where a push lands, in numbers

  /** `q` is the smallest multiple of `align` at or past `x`. */
  predicate NextMultiple(q: nat, x: nat, align: nat) {
    align > 0 && x <= q < x + align && q % align == 0
  }

  lemma NextMultipleUnique(p: nat, q: nat, x: nat, align: nat)
    requires NextMultiple(p, x, align) && NextMultiple(q, x, align)
    ensures p == q
  {
    ModInjective(p, q, align);
  }

  /** The bump pointer of a block. */
  function Top(b: ArenaBlock): nat {
    b.addr + b.used
  }

  lemma StartIsNext(b: ArenaBlock, align: nat)
    requires IsPowerOfTwo(align)
    ensures NextMultiple(Start(b, align), Top(b), align)
  {
    FoldIsModulo(Start(b, align), align);
  }

  /** Room is just this: the next aligned address leaves space for the size. */
  lemma RoomIff(b: ArenaBlock, size: nat, align: nat, q: nat)
    requires IsPowerOfTwo(align) && NextMultiple(q, Top(b), align)
    ensures q == Start(b, align) && (Room(b, size, align) <==> q + size <= b.addr + b.cap)
  {
    StartIsNext(b, align);
    NextMultipleUnique(q, Start(b, align), Top(b), align);
  }

  /** The last block is new, of the usual size or as large as it takes. */
  predicate FreshBlock(bs: seq<ArenaBlock>, blockSize: nat, size: nat, align: nat) {
    && |bs| >= 2
    && var n := |bs| - 1;
       bs[n].used == 0 && bs[n].cap == Max(blockSize, size + align) && bs[n].base == bs[n - 1].base + bs[n - 1].cap
  }

  lemma FreshHasRoom(bs: seq<ArenaBlock>, blockSize: nat, size: nat, align: nat)
    requires IsPowerOfTwo(align) && FreshBlock(bs, blockSize, size, align)
    ensures Room(bs[|bs| - 1], size, align)
  {
  }

  /** The search has come from block `from` to block `cur`: none before has room, and a block behind the old ones is new. */
  predicate Passed(was: seq<ArenaBlock>, from: nat, bs: seq<ArenaBlock>, cur: nat, blockSize: nat, size: nat, align: nat)
    requires IsPowerOfTwo(align)
  {
    && from <= cur <= |was| && was <= bs && |bs| == Max(|was|, cur + 1)
    && (forall i :: from <= i < cur ==> !Room(was[i], size, align))
    && (cur == |was| ==> FreshBlock(bs, blockSize, size, align))
  }

  lemma PassedNext(was: seq<ArenaBlock>, from: nat, bs: seq<ArenaBlock>, cur: nat, bs': seq<ArenaBlock>,
                   blockSize: nat, size: nat, align: nat)
    requires IsPowerOfTwo(align) && Passed(was, from, bs, cur, blockSize, size, align)
    requires cur < |bs| && !Room(bs[cur], size, align) && bs <= bs' && |bs'| == Max(|bs|, cur + 2)
    requires cur + 1 == |bs| ==> FreshBlock(bs', blockSize, size, align)
    ensures cur < |was| && Passed(was, from, bs', cur + 1, blockSize, size, align)
  {
    if cur == |was| { FreshHasRoom(bs, blockSize, size, align); }
  }

  /**
   A push landed at `p` in block `cur`: every block passed over is too full for it, and `p` is
   the next aligned address of its block, or the first of a new one behind the last.
   */
  predicate Landed(was: seq<ArenaBlock>, from: nat, bs: seq<ArenaBlock>, cur: nat, blockSize: nat,
                   size: nat, align: nat, p: nat) {
    && from <= cur <= |was| && SamePlace(was, bs) && |bs| == Max(|was|, cur + 1)
    && (forall i, q: nat :: from <= i < cur && NextMultiple(q, Top(was[i]), align) ==>
          q + size > was[i].addr + was[i].cap)
    && NextMultiple(p, if cur < |was| then Top(was[cur]) else bs[cur].addr, align)
    && p + size <= bs[cur].addr + bs[cur].cap
    && (cur == |was| > 0 ==> bs[cur].cap == Max(blockSize, size + align)
                             && bs[cur].base == bs[cur - 1].base + bs[cur - 1].cap)
  }

  lemma LandedAfter(was: seq<ArenaBlock>, from: nat, mid: seq<ArenaBlock>, bs: seq<ArenaBlock>, cur: nat,
                    blockSize: nat, size: nat, align: nat, p: nat)
    requires IsPowerOfTwo(align) && Passed(was, from, mid, cur, blockSize, size, align)
    requires SamePlace(mid, bs) && |bs| == |mid| && p + size <= bs[cur].addr + bs[cur].cap
    requires NextMultiple(p, Top(mid[cur]), align)
    ensures Landed(was, from, bs, cur, blockSize, size, align, p)
  {
    PassedOver(was, from, cur, size, align);
  }

  lemma PassedOver(bs: seq<ArenaBlock>, from: nat, to: nat, size: nat, align: nat)
    requires IsPowerOfTwo(align) && to <= |bs| && forall i :: from <= i < to ==> !Room(bs[i], size, align)
    ensures forall i, q: nat :: from <= i < to && NextMultiple(q, Top(bs[i]), align) ==> q + size > bs[i].addr + bs[i].cap
  {
    forall i, q: nat | from <= i < to && NextMultiple(q, Top(bs[i]), align)
      ensures q + size > bs[i].addr + bs[i].cap
    {
      RoomIff(bs[i], size, align, q);
    }
  }

  /** So a push that fits the current block stays there, whatever lies behind. */
  lemma FitsHere(was: seq<ArenaBlock>, from: nat, bs: seq<ArenaBlock>, cur: nat, blockSize: nat,
                 size: nat, align: nat, p: nat, q: nat)
    requires Landed(was, from, bs, cur, blockSize, size, align, p) && from < |was|
    requires NextMultiple(q, Top(was[from]), align)
    ensures q + size <= was[from].addr + was[from].cap <==> cur == from
    ensures cur == from ==> p == q && |bs| == |was|
  {
    if cur == from { NextMultipleUnique(p, q, Top(was[from]), align); }
  }

  // ---- the rewind

  /** The block arena_pop_to settles on: the first that reaches `pos`, or the last. */
  predicate Target(bs: seq<ArenaBlock>, k: nat, pos: nat) {
    && k < |bs|
    && (forall i :: 0 <= i < k ==> pos > bs[i].base + bs[i].cap)
    && (k + 1 < |bs| ==> pos <= bs[k].base + bs[k].cap)
  }

  function Popped(bs: seq<ArenaBlock>, k: nat, pos: nat): (bs': seq<ArenaBlock>)
    requires k < |bs| && bs[k].base <= pos
    ensures |bs'| == |bs|
    ensures forall i :: 0 <= i < |bs| ==>
      bs'[i] == if i < k then bs[i] else bs[i].(used := if i == k then pos - bs[k].base else 0)
  {
    seq(|bs|, i requires 0 <= i < |bs| =>
      if i < k then bs[i] else bs[i].(used := if i == k then pos - bs[k].base else 0))
  }

  /** Where the last block ends. */
  function Extent(bs: seq<ArenaBlock>): nat
    requires |bs| > 0
  {
    bs[|bs| - 1].base + bs[|bs| - 1].cap
  }

  lemma TargetReaches(bs: seq<ArenaBlock>, k: nat, pos: nat)
    requires Chained(bs) && pos <= Extent(bs) && Target(bs, k, pos)
    ensures bs[k].base <= pos <= bs[k].base + bs[k].cap
  {
    if k > 0 {
      assert bs[k - 1].base + bs[k - 1].cap == bs[k].base;
    }
  }

  /** A position past the last block leaves the target over-full; any other one does not. */
  lemma PopFitsIff(bs: seq<ArenaBlock>, k: nat, pos: nat)
    requires Chained(bs) && Target(bs, k, pos)
    ensures bs[k].base <= pos && (Popped(bs, k, pos)[k].used <= bs[k].cap <==> pos <= Extent(bs))
  {
    if k > 0 { assert bs[k - 1].base + bs[k - 1].cap == bs[k].base; }
    if pos <= Extent(bs) { TargetReaches(bs, k, pos); }
  }

  lemma PoppedChained(bs: seq<ArenaBlock>, k: nat, pos: nat)
    requires Chained(bs) && k < |bs| && bs[k].base <= pos <= bs[k].base + bs[k].cap
    ensures Chained(Popped(bs, k, pos)) && Reset(Popped(bs, k, pos), k)
  {
    var bs' := Popped(bs, k, pos);
    assert SamePlace(bs, bs');
  }

  /** An allocation that ends by `pos` survives, even an empty one at the start of a block past the target. */
  lemma PoppedOne(bs: seq<ArenaBlock>, k: nat, pos: nat, a: Alloc)
    requires Chained(bs) && k < |bs| && bs[k].base <= pos <= bs[k].base + bs[k].cap
    requires InBlock(bs, a) && EndPos(bs, a) <= pos
    ensures InBlock(Popped(bs, k, pos), a) && EndPos(Popped(bs, k, pos), a) == EndPos(bs, a)
  {
    assert k < a.block ==> bs[k].base + bs[k].cap <= bs[a.block].base;
  }

  /**
   Rewinding to the innermost temporary: its position is back exactly, and all
   that was live when it was opened still lies in place. At a block boundary the
   current block may become the one before, filled to its end.
   */
  lemma PopKeeps(bs: seq<ArenaBlock>, cur: nat, live: seq<Alloc>, marks: seq<Mark>, k: nat, pos: nat, keep: nat)
    requires Inv(bs, cur, live, marks) && pos <= Extent(bs) && Target(bs, k, pos)
    requires Below(bs, live, keep, pos)
    requires forall m :: 0 <= m < |marks| ==> marks[m].pos <= pos && marks[m].count <= keep
    ensures bs[k].base <= pos && Inv(Popped(bs, k, pos), k, live[..keep], marks)
    ensures Position(Popped(bs, k, pos), k) == pos
  {
    TargetReaches(bs, k, pos);
    var bs', kept := Popped(bs, k, pos), live[..keep];
    PoppedChained(bs, k, pos);
    forall i | 0 <= i < keep
      ensures InBlock(bs', kept[i]) && EndPos(bs', kept[i]) == EndPos(bs, kept[i])
    {
      PoppedOne(bs, k, pos, live[i]);
    }
    NestedAfter(bs, bs', live, kept, marks, pos);
  }

  lemma NestedAfter(bs: seq<ArenaBlock>, bs': seq<ArenaBlock>, live: seq<Alloc>, kept: seq<Alloc>, marks: seq<Mark>, pos: nat)
    requires kept <= live
    requires forall i :: 0 <= i < |kept| ==> InBlock(bs, kept[i]) && InBlock(bs', kept[i])
    requires forall i :: 0 <= i < |kept| ==> EndPos(bs', kept[i]) == EndPos(bs, kept[i])
    requires forall m :: 0 <= m < |marks| ==> marks[m].pos <= pos && marks[m].count <= |kept|
    requires forall m :: 0 <= m < |marks| ==> Below(bs, live, marks[m].count, marks[m].pos)
    requires forall m, n :: 0 <= m < n < |marks| ==> marks[m].pos <= marks[n].pos && marks[m].count <= marks[n].count
    ensures Nested(bs', kept, marks, pos)
  {
    forall m | 0 <= m < |marks|
      ensures Below(bs', kept, marks[m].count, marks[m].pos)
    {
      assert Below(bs, live, marks[m].count, marks[m].pos);
    }
  }

  /** malloc always has somewhere to put a block. */
  lemma RoomBeyond(bs: seq<ArenaBlock>, n: nat) returns (top: nat)
    requires n <= |bs|
    ensures forall i :: 0 <= i < n ==> bs[i].addr + bs[i].cap <= top
  {
    if n == 0 {
      top := 0;
    } else {
      top := RoomBeyond(bs, n - 1);
      if top < bs[n - 1].addr + bs[n - 1].cap {
        top := bs[n - 1].addr + bs[n - 1].cap;
      }
    }
  }

  /** A script of pushes and properly nested temporaries. */
  datatype Op = Push(size: nat, align: nat) | Scope(body: seq<Op>)

  predicate WellFormed(ops: seq<Op>) {
    forall op :: op in ops ==> match op
      case Push(_, align) => IsPowerOfTwo(align)
      case Scope(body) => WellFormed(body)
  }

  function Max(a: nat, b: nat): nat {
    if a > b then a else b
  }

  class Arena {
    var blocks: seq<ArenaBlock>
    var cur: nat
    const blockSize: nat
    ghost var live: seq<Alloc>
    ghost var marks: seq<Mark>

    ghost predicate Valid()
      reads this
    {
      blockSize > 0 && Inv(blocks, cur, live, marks)
    }

    /** arena_alloc_sized; `memory` is malloc's answer. */
    constructor (size: nat, memory: nat)
      ensures Valid() && Pos() == 0 && live == [] && marks == []
      ensures blockSize == (if size == 0 then 65536 else size) && cur == 0
      ensures blocks == [ArenaBlock(memory, blockSize, 0, 0)]
    {
      blockSize := if size == 0 then DEFAULT_BLOCK else size;
      blocks := [ArenaBlock(memory, if size == 0 then DEFAULT_BLOCK else size, 0, 0)];
      cur, live, marks := 0, [], [];
    }

    /** arena_pos. */
    function Pos(): nat
      requires cur < |blocks|
      reads this
    {
      blocks[cur].base + blocks[cur].used
    }

    /** arena_block_new behind the last block. */
    method Grow(cap: nat)
      requires Valid() && cur + 1 == |blocks| && cap > 0
      modifies this
      ensures Valid() && cur == old(cur) && live == old(live) && marks == old(marks)
      ensures |blocks| == cur + 2 && blocks[..cur + 1] == old(blocks)
      ensures blocks[cur + 1].cap == cap && blocks[cur + 1].used == 0
      ensures blocks[cur + 1].base == blocks[cur].base + blocks[cur].cap
    {
      ghost var top := RoomBeyond(blocks, |blocks|);
      assert forall i :: 0 <= i < |blocks| ==> Apart(blocks[i].addr, blocks[i].cap, top, cap);
      var addr: nat :| forall i :: 0 <= i < |blocks| ==> Apart(blocks[i].addr, blocks[i].cap, addr, cap);
      var nb := ArenaBlock(addr, cap, 0, blocks[cur].base + blocks[cur].cap);
      GrowKeeps(blocks, blocks + [nb], cur, live, marks, nb);
      blocks := blocks + [nb];
    }

    /** The end of one round of arena_push's loop: on to the next block, new if there is none. */
    method NextBlock(size: nat, align: nat)
      requires Valid() && IsPowerOfTwo(align)
      modifies this
      ensures Valid() && live == old(live) && marks == old(marks)
      ensures cur == old(cur) + 1 && Pos() >= old(Pos())
      ensures old(blocks) <= blocks && |blocks| == if cur < |old(blocks)| then |old(blocks)| else cur + 1
      ensures cur == |old(blocks)| ==> FreshBlock(blocks, blockSize, size, align)
    {
      if cur + 1 == |blocks| {
        Grow(Max(blockSize, size + align));
      }
      NextKeeps(blocks, cur, live, marks);
      cur := cur + 1;
    }

    /** The bump itself. */
    method Bump(size: nat, align: nat) returns (p: nat)
      requires Valid() && IsPowerOfTwo(align) && Room(blocks[cur], size, align)
      modifies this
      ensures Valid() && cur == old(cur) && marks == old(marks) && live == old(live) + [Alloc(cur, p, size, align)]
      ensures blocks == Bumped(old(blocks), cur, size, align) && Pos() >= old(Pos()) + size
      ensures SamePlace(old(blocks), blocks) && |blocks| == |old(blocks)|
      ensures NextMultiple(p, Top(old(blocks)[cur]), align) && p + size <= blocks[cur].addr + blocks[cur].cap
      ensures Pos() == blocks[cur].base + (p - blocks[cur].addr) + size
    {
      StartIsNext(blocks[cur], align);
      p := Start(blocks[cur], align);
      RoomIff(blocks[cur], size, align, p);
      BumpKeeps(blocks, cur, live, marks, size, align);
      live := live + [Alloc(cur, p, size, align)];
      blocks := Bumped(blocks, cur, size, align);
    }

    /**
     arena_push: the first block from the current one on that has room behind its next aligned
     address, else a new one behind the last, of the usual size or as large as it takes.
     */
    method Push(size: nat, align: nat) returns (p: nat)
      requires Valid() && IsPowerOfTwo(align)
      modifies this
      ensures Valid() && marks == old(marks) && live == old(live) + [Alloc(cur, p, size, align)]
      ensures Landed(old(blocks), old(cur), blocks, cur, blockSize, size, align, p)
      ensures Pos() == blocks[cur].base + (p - blocks[cur].addr) + size >= old(Pos()) + size
    {
      ghost var was, from := blocks, cur;
      FindRoom(size, align);
      ghost var mid := blocks;
      p := Bump(size, align);
      LandedAfter(was, from, mid, blocks, cur, blockSize, size, align, p);
    }

    /** The loop of arena_push, up to the block that has room. */
    method FindRoom(size: nat, align: nat)
      requires Valid() && IsPowerOfTwo(align)
      modifies this
      ensures Valid() && live == old(live) && marks == old(marks) && Room(blocks[cur], size, align)
      ensures Pos() >= old(Pos()) && Passed(old(blocks), old(cur), blocks, cur, blockSize, size, align)
    {
      ghost var was, from := blocks, cur;
      while !Room(blocks[cur], size, align)
        invariant Valid() && live == old(live) && marks == old(marks) && Pos() >= old(Pos())
        invariant Passed(was, from, blocks, cur, blockSize, size, align)
        decreases |was| - cur
      {
        ghost var bs, k := blocks, cur;
        NextBlock(size, align);
        PassedNext(was, from, bs, k, blocks, blockSize, size, align);
      }
    }

    /** The search of arena_pop_to. */
    method FindTarget(pos: nat) returns (k: nat)
      requires Valid()
      ensures Target(blocks, k, pos)
    {
      k := 0;
      while k + 1 < |blocks| && pos > blocks[k].base + blocks[k].cap
        invariant k < |blocks|
        invariant forall i :: 0 <= i < k ==> pos > blocks[i].base + blocks[i].cap
      {
        k := k + 1;
      }
    }

    /**
     arena_pop_to, to any position; `keep` counts the allocations below it. The arena is in
     order afterwards exactly if the position lies inside the blocks.
     */
    method PopTo(pos: nat, ghost keep: nat)
      requires Valid() && Below(blocks, live, keep, pos)
      requires forall m :: 0 <= m < |marks| ==> marks[m].pos <= pos && marks[m].count <= keep
      modifies this
      ensures Valid() <==> pos <= old(Extent(blocks))
      ensures cur < |blocks| && Pos() == pos && live == old(live)[..keep] && marks == old(marks)
      ensures |blocks| == |old(blocks)| && SamePlace(old(blocks), blocks)
    {
      var k := FindTarget(pos);
      PopFitsIff(blocks, k, pos);
      if pos <= Extent(blocks) { PopKeeps(blocks, cur, live, marks, k, pos, keep); }
      Rewind(k, pos);
      live := live[..keep];
    }

    /** Block `k` is cut back to `pos` and every later one reset. */
    method Rewind(k: nat, pos: nat)
      requires k < |blocks| && blocks[k].base <= pos
      modifies `blocks, `cur
      ensures blocks == Popped(old(blocks), k, pos) && cur == k
    {
      ghost var was := blocks;
      blocks := blocks[k := blocks[k].(used := pos - blocks[k].base)];
      cur := k;
      var n := k + 1;
      while n < |blocks|
        invariant k < n <= |blocks| == |was| && cur == k
        invariant forall i :: 0 <= i < n ==> blocks[i] == Popped(was, k, pos)[i]
        invariant forall i :: n <= i < |was| ==> blocks[i] == was[i]
      {
        blocks := blocks[n := blocks[n].(used := 0)];
        n := n + 1;
      }
    }

    /** arena_clear: every temporary is closed with it. */
    method Clear()
      requires Valid()
      modifies this
      ensures Valid() && Pos() == 0 && live == [] && marks == []
    {
      marks := [];
      PopTo(0, 0);
    }

    /** temp_begin. */
    method TempBegin() returns (pos: nat)
      requires Valid()
      modifies this`marks
      ensures Valid() && pos == Pos() && marks == old(marks) + [Mark(pos, |live|)]
    {
      pos := Pos();
      marks := marks + [Mark(pos, |live|)];
    }

    /** temp_end of the innermost open temporary. */
    method TempEnd(pos: nat)
      requires Valid() && marks != [] && marks[|marks| - 1].pos == pos
      modifies this
      ensures Valid() && Pos() == pos && marks == old(marks)[..|old(marks)| - 1]
      ensures live == old(live)[..old(marks)[|old(marks)| - 1].count]
      ensures |blocks| == |old(blocks)| && SamePlace(old(blocks), blocks)
    {
      ghost var m := marks[|marks| - 1];
      marks := marks[..|marks| - 1];
      PopTo(pos, m.count);
    }

    /** Any script: what was live stays live and in place, and the position never falls below where it began. */
    method Run(ops: seq<Op>)
      requires Valid() && WellFormed(ops)
      modifies this
      ensures Valid() && marks == old(marks) && old(live) <= live
      ensures Pos() >= old(Pos()) && SamePlace(old(blocks), blocks)
      decreases ops, 0
    {
      for i := 0 to |ops|
        invariant Valid() && marks == old(marks) && old(live) <= live
        invariant Pos() >= old(Pos()) && SamePlace(old(blocks), blocks)
      {
        assert ops[i] in ops;
        match ops[i]
        case Push(size, align) => var _ := Push(size, align);
        case Scope(body) => RunScoped(body);
      }
    }

    /** A whole temporary, whatever runs inside it, leaves position and live allocations as they were. */
    method RunScoped(body: seq<Op>)
      requires Valid() && WellFormed(body)
      modifies this
      ensures Valid() && marks == old(marks)
      ensures Pos() == old(Pos()) && live == old(live) && SamePlace(old(blocks), blocks)
      decreases body, 1
    {
      var pos := TempBegin();
      Run(body);
      TempEnd(pos);
    }
  }
}
