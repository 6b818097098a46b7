/**
 ring_alloc.h in its own form: a control block over a byte array, updated in
 place. Each method runs one side's steps of the machine without interruption,
 so everything proved of the machine's runs holds of calls on this object.
 */
module RingAllocator {
  import opened Bytes
  import opened RingLayout
  import opened RingMachine
  import Theorems = RingTheorems

  datatype Peeked = Empty | Oldest(at: nat, size: nat, tag: nat)

  class Ring {
    const buf: array<byte>
    var head: nat
    var tailCache: nat
    var rsvHdr: nat
    var rsvMax: nat
    var rsvActive: bool
    var tail: nat
    var headCache: nat

    /** The machine state between calls: both threads at rest, or a reservation outstanding. */
    ghost function View(): State
      reads this, buf
    {
      State(buf[..], head, tail, tailCache, headCache, if rsvActive then PReserved(rsvHdr, rsvMax) else PIdle, CIdle)
    }

    ghost predicate Valid()
      reads this, buf
    {
      Inv(View())
    }

    ghost function Contents(): seq<Block>
      requires Valid()
      reads this, buf
    {
      Live(View())
    }

    constructor (mem: array<byte>)
      requires GoodCapacity(mem.Length)
      ensures Valid() && buf == mem && !rsvActive && Contents() == []
    {
      buf := mem;
      head, tail, tailCache, headCache := 0, 0, 0, 0;
      rsvHdr, rsvMax, rsvActive := 0, 0, false;
      new;
      InitInv(mem[..]);
    }

    /** ra_init: refuses exactly the capacities the ring cannot work with. */
    static method Init(mem: array<byte>) returns (r: Ring?)
      requires mem.Length < SKIP
      ensures r == null <==> !GoodCapacity(mem.Length)
      ensures r != null ==> r.Valid() && r.buf == mem && !r.rsvActive && r.Contents() == []
    {
      r := null;
      if mem.Length >= 32 && IsPowerOfTwo(mem.Length) {
        r := new Ring(mem);
      }
    }

    method WriteHeader(off: nat, sizeFlags: nat, tag: nat)
      requires Sized(buf[..]) && off % 16 == 0
      modifies buf
      ensures buf[..] == Poke(old(buf[..]), off, HeaderBytes(sizeFlags, tag))
    {
      FoldAligned(off, buf.Length);
      ghost var was := buf[..];
      var p, bs := Fold(off, buf.Length), HeaderBytes(sizeFlags, tag);
      for i := 0 to 16
        invariant forall k :: 0 <= k < buf.Length ==> buf[k] == if p <= k < p + i then bs[k - p] else was[k]
      {
        buf[p + i] := bs[i];
      }
      assert buf[..] == Put(was, p, bs);
    }

    method ReadHeader(off: nat) returns (hd: Header)
      requires Sized(buf[..]) && off % 16 == 0
      ensures hd == HeaderAt(buf[..], off)
    {
      FoldAligned(off, buf.Length);
      FoldShift(off, 8, buf.Length);
      var p := Fold(off, buf.Length);
      hd := Header(FromLittleEndian(buf[p..p + 8]), FromLittleEndian(buf[p + 8..p + 16]));
      SpanIsSlice(buf[..], off, 8);
      SpanIsSlice(buf[..], off + 8, 8);
      assert buf[..][p..p + 8] == buf[p..p + 8] && buf[..][p + 8..p + 16] == buf[p + 8..p + 16];
      HeaderIsWords(buf[..], off, buf.Length);
    }

    /** The cached-tail test of ra_reserve: the shared tail is read only when the cache says full. */
    method FreeFor(totalMin: nat) returns (freeBytes: int)
      modifies this`tailCache
      ensures tailCache == old(if Free(buf.Length, head, tailCache) < totalMin then tail else tailCache)
      ensures freeBytes == Free(buf.Length, head, tailCache)
    {
      freeBytes := buf.Length - (head - tailCache);
      if freeBytes < totalMin {
        tailCache := tail;
        freeBytes := buf.Length - (head - tailCache);
      }
    }

    /** ra_reserve: a span of at least `minSize` contiguous bytes, and how much of it may be used. */
    method Reserve(minSize: nat) returns (ok: bool, at: nat, max: nat)
      requires Valid() && !rsvActive
      modifies this, buf
      ensures View() == Theorems.Reserve(old(View()), minSize)
      ensures Valid() && Contents() == old(Contents()) && ok == rsvActive
      ensures ok <==> Theorems.Fits(buf.Length, old(head) % buf.Length, buf.Length - (old(head) - old(tail)), minSize)
      ensures ok ==> minSize <= max == rsvMax && max % 16 == 0
                     && at == rsvHdr % buf.Length + 16 && at + max <= buf.Length
      ensures ok ==> 16 + max == Theorems.Min(buf.Length - rsvHdr % buf.Length, tailCache + buf.Length - rsvHdr)
    {
      ghost var was := View();
      ok, at, max := Carve(minSize);
      Theorems.ReserveSucceedsIff(was, minSize);
      Theorems.ReserveKeepsInv(was, minSize);
      if ok {
        Theorems.ReserveSpan(was, minSize);
        Theorems.ReservationIsContiguous(View());
        FoldIsModulo(rsvHdr, buf.Length);
      }
    }

    /** The body of ra_reserve. */
    method Carve(minSize: nat) returns (ok: bool, at: nat, max: nat)
      requires Valid() && !rsvActive
      modifies this, buf
      ensures View() == Theorems.Reserve(old(View()), minSize) && ok == rsvActive
      ensures ok ==> max == rsvMax && at == Pos(buf[..], rsvHdr) + HDR
    {
      ghost var was := View();
      ok, at, max := false, 0, 0;
      var cap := buf.Length;
      if minSize > cap { return; }
      var need, toEnd := Pad(minSize), cap - Fold(head, cap);
      var skip := if toEnd < HDR + need then toEnd else 0;
      var freeBytes := FreeFor(skip + HDR + need);
      Theorems.ReserveOutcome(was, minSize, View());
      if freeBytes >= skip + HDR + need {
        max := Stage(minSize, skip, freeBytes);
        ok, at := true, Fold(rsvHdr, cap) + HDR;
      }
    }

    /** The tail of ra_reserve, once the space is known to be there. */
    method Stage(minSize: nat, skip: nat, freeBytes: nat) returns (max: nat)
      requires Sized(buf[..]) && tailCache <= head <= tailCache + buf.Length && head % 16 == 0 && tailCache % 16 == 0
      requires !rsvActive && skip == SkipFor(buf[..], head, minSize)
      requires TotalFor(buf[..], head, minSize) <= freeBytes == Free(buf.Length, head, tailCache)
      modifies this`rsvHdr, this`rsvMax, this`rsvActive, buf
      ensures View() == Do(old(View()).(prod := PStage(minSize)), ReserveStage)
      ensures rsvActive && max == rsvMax
    {
      ghost var was := View().(prod := PStage(minSize));
      MaxDataFits(buf[..], head, tailCache, minSize);
      var cap, hdrOff := buf.Length, head;
      var toEnd := cap - Fold(head, cap);
      if skip > 0 {
        FoldAligned(head, cap);
        WriteHeader(hdrOff, SKIP + (skip - HDR), 0);
        hdrOff := hdrOff + skip;
        toEnd := cap;
      }
      var roomEnd, freeData := toEnd - HDR, freeBytes - skip - HDR;
      max := if roomEnd < freeData then roomEnd else freeData;
      StageMeans(was, skip, max, buf[..]);
      rsvHdr, rsvMax, rsvActive := hdrOff, max, true;
    }

    /** ra_commit: the first `size` reserved bytes become the newest block. */
    method Commit(size: nat, tag: nat)
      requires Valid() && rsvActive && size <= rsvMax && tag < U64_LIMIT
      modifies this, buf
      ensures Valid() && !rsvActive
      ensures Contents() == old(Contents()) + [Block(Span(old(buf[..]), old(rsvHdr) + HDR, size), tag)]
    {
      Theorems.CommitAppends(View(), size, tag);
      WriteHeader(rsvHdr, size, tag);
      head := rsvHdr + HDR + Pad(size);
      rsvActive, rsvMax := false, 0;
    }

    method Abort()
      requires Valid() && rsvActive
      modifies this
      ensures Valid() && !rsvActive && Contents() == old(Contents())
    {
      ProducerQuiet(View(), RingMachine.Abort);
      rsvActive, rsvMax := false, 0;
    }

    /** ra_alloc: reserve and commit exactly `size` bytes, or leave the queue as it was. */
    method Alloc(size: nat, tag: nat) returns (ok: bool)
      requires Valid() && !rsvActive && tag < U64_LIMIT
      modifies this, buf
      ensures Valid() && !rsvActive
      ensures ok <==> Theorems.Fits(buf.Length, old(head) % buf.Length, buf.Length - (old(head) - old(tail)), size)
      ensures if ok then |Contents()| == |old(Contents())| + 1 && Contents()[..|old(Contents())|] == old(Contents())
                         && |Contents()[|old(Contents())|].data| == size && Contents()[|old(Contents())|].tag == tag
              else Contents() == old(Contents())
    {
      var at, max;
      ok, at, max := Reserve(size);
      if ok { Commit(size, tag); }
    }

    /** ra_peek: the oldest block in place, or Empty exactly when there is none. */
    method Peek() returns (b: Peeked)
      requires Valid()
      modifies this`headCache
      ensures Valid() && Contents() == old(Contents())
      ensures b.Empty? <==> Contents() == []
      ensures b.Oldest? ==> b.at + b.size <= buf.Length && b.at % 16 == 0
                            && Contents()[0] == Block(buf[b.at..b.at + b.size], b.tag)
    {
      if tail >= headCache {
        headCache := head;
        if tail == headCache { return Empty; }
      }
      b := ReadOldest();
    }

    /** The rest of ra_peek once it knows there is a block. */
    method ReadOldest() returns (b: Peeked)
      requires Valid() && tail < headCache
      ensures b.Oldest? && b.at + b.size <= buf.Length && b.at % 16 == 0
      ensures Contents() != [] && Contents()[0] == Block(buf[b.at..b.at + b.size], b.tag)
    {
      var at := tail;
      var hd := ReadHeader(at);
      if IsSkip(hd) {
        at := at + HDR + (hd.sizeFlags - SKIP);
        assert at < headCache;
        hd := ReadHeader(at);
        assert !IsSkip(hd);
      }
      var p := Fold(at, buf.Length) + HDR;
      OldestInPlace(buf[..], tail, head, at, hd, p);
      b := Oldest(p, hd.sizeFlags, hd.tag);
      assert buf[..][p..p + b.size] == buf[p..p + b.size];
    }

    /** ra_release: drops the oldest block; the caller knows there is one. */
    method Release()
      requires Valid() && Contents() != []
      modifies this`tail
      ensures Valid() && Contents() == old(Contents())[1..]
    {
      var at := tail;
      var hd := ReadHeader(at);
      if IsSkip(hd) {
        at := at + HDR + (hd.sizeFlags - SKIP);
        hd := ReadHeader(at);
        assert !IsSkip(hd);
      }
      ghost var moving := View().(cons := CStoreTail(at + HDR + Pad(hd.sizeFlags)));
      ReleaseDrops(moving);
      tail := at + HDR + Pad(hd.sizeFlags);
      assert View() == Do(moving, ReleaseStore);
    }
  }
}
