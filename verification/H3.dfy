/**
 HTTP/3 framing: QUIC varints (section 16 of RFC 9000), the frame walk shared by
 the control-stream text and the response parser (section 7.1 of RFC 9114), the
 control-stream builder, and the in-place compaction of DATA payloads.
 */
module H3 {
  import opened Bytes

  const TWO62: nat := 0x4000_0000_0000_0000

  const DATA: nat := 0x00
  const HEADERS: nat := 0x01
  const SETTINGS: nat := 0x04
  const PRIORITY_UPDATE: nat := 0xf0700
  const GREASE_SETTING: nat := 0x1f * 7 + 0x21
  const GREASE_FRAME: nat := 0x1f * 11 + 0x21

  // ---- varints

  /** v >> 8*n. */
  function High(v: nat, n: nat): nat {
    if n == 0 then v else High(v / 256, n - 1)
  }

  /** The low `n` bytes of `v`, most significant first: (U8)(v >> 8*(n-1)) down to (U8)v. */
  function Low(v: nat, n: nat): (bs: seq<byte>)
    ensures |bs| == n
  {
    if n == 0 then [] else Low(v / 256, n - 1) + [v % 256]
  }

  /** How many bytes follow the first. */
  function Extra(v: nat): (n: nat)
    ensures n == 0 || n == 1 || n == 3 || n == 7
  {
    if v < 0x40 then 0 else if v < 0x4000 then 1 else if v < 0x4000_0000 then 3 else 7
  }

  function Tag(n: nat): nat {
    if n == 0 then 0 else if n == 1 then 0x40 else if n == 3 then 0x80 else 0xc0
  }

  /**
   quic_varint_put: the length is in the top two bits of the first byte. A value of
   more than 62 bits has the tag bits or-ed over its own.
   */
  function VarintPut(v: nat): (bs: seq<byte>)
    ensures |bs| == 1 + Extra(v)
  {
    [Tag(Extra(v)) + High(v, Extra(v)) % 64] + Low(v, Extra(v))
  }

  datatype Varint = Varint(value: nat, consumed: nat)

  /** v = (v << 8) | p[i], over all of `bs`. */
  function Accumulate(v: nat, bs: seq<byte>): nat
    decreases |bs|
  {
    if bs == [] then v else Accumulate(v * 256 + bs[0], bs[1..])
  }

  function EncodedLength(first: byte): nat {
    if first < 64 then 1 else if first < 128 then 2 else if first < 192 then 4 else 8
  }

  /** quic_varint_get: consumed is 0 when the bytes do not hold a whole varint. */
  function Decoded(p: seq<byte>): (r: Varint)
    ensures r.consumed <= |p|
  {
    if p == [] || |p| < EncodedLength(p[0]) then Varint(0, 0)
    else Varint(Accumulate(p[0] % 64, p[1..EncodedLength(p[0])]), EncodedLength(p[0]))
  }

  /** `Decoded`, kept `|p|` calls deep so that proofs about streams do not unfold it. */
  function VarintGet(p: seq<byte>): (r: Varint)
    ensures r.consumed <= |p|
  {
    VarintGetFrom(p, |p|)
  }

  function VarintGetFrom(p: seq<byte>, depth: nat): (r: Varint)
    ensures r.consumed <= |p|
    decreases depth
  {
    if depth == 0 then Decoded(p) else VarintGetFrom(p, depth - 1)
  }

  lemma {:induction false} GetIsDecoded(p: seq<byte>, depth: nat)
    ensures VarintGetFrom(p, depth) == Decoded(p)
    decreases depth
  {
    if depth > 0 { GetIsDecoded(p, depth - 1); }
  }

  /** The loop of quic_varint_get. */
  method ReadVarint(p: seq<byte>) returns (r: Varint)
    ensures r == VarintGet(p)
  {
    GetIsDecoded(p, |p|);
    if |p| == 0 { return Varint(0, 0); }
    var n := EncodedLength(p[0]);
    if |p| < n { return Varint(0, 0); }
    var v: nat := p[0] % 64;
    for i := 1 to n
      invariant v == Accumulate(p[0] % 64, p[1..i])
    {
      AccumulateSnoc(p[0] % 64, p[1..i], p[i]);
      assert p[1..i + 1] == p[1..i] + [p[i]];
      v := v * 256 + p[i];
    }
    return Varint(v, n);
  }

  lemma {:induction false} AccumulateSnoc(v: nat, bs: seq<byte>, b: byte)
    ensures Accumulate(v, bs + [b]) == Accumulate(v, bs) * 256 + b
    decreases |bs|
  {
    if bs == [] {
      assert bs + [b] == [b];
    } else {
      assert (bs + [b])[1..] == bs[1..] + [b];
      AccumulateSnoc(v * 256 + bs[0], bs[1..], b);
    }
  }

  lemma {:induction false} AccumulateLow(v: nat, n: nat)
    ensures Accumulate(High(v, n), Low(v, n)) == v
    decreases n
  {
    if n > 0 {
      AccumulateLow(v / 256, n - 1);
      AccumulateSnoc(High(v / 256, n - 1), Low(v / 256, n - 1), v % 256);
    }
  }

  lemma {:induction false} HighAccumulate(a: nat, bs: seq<byte>)
    ensures High(Accumulate(a, bs), |bs|) == a
    decreases |bs|
  {
    if bs != [] {
      var n := |bs| - 1;
      HighAccumulate(a, bs[..n]);
      AccumulateSnoc(a, bs[..n], bs[n]);
      assert bs == bs[..n] + [bs[n]];
    }
  }

  /** What seven bytes under a six-bit head can hold, and what fits under each head. */
  lemma HighBounds(v: nat)
    ensures v < TWO62 ==> High(v, Extra(v)) < 64
    ensures v < TWO62 <==> High(v, 7) < 64
  {
    var a := v / 256;
    var b := a / 256;
    var c := b / 256;
    assert High(v, 1) == High(a, 0) == a;
    assert High(v, 3) == High(a, 2) == High(b, 1) == High(c, 0) == c;
    var d := c / 256;
    var e := d / 256;
    var f := e / 256;
    assert High(v, 7) == High(a, 6) == High(b, 5) == High(c, 4);
    assert High(c, 4) == High(d, 3) == High(e, 2) == High(f, 1) == High(f / 256, 0) == f / 256;
  }

  /** Reading back what was put, whatever follows it. */
  lemma VarintRoundTrip(v: nat, suffix: seq<byte>)
    requires v < TWO62
    ensures VarintGet(VarintPut(v) + suffix) == Varint(v, |VarintPut(v)|)
  {
    HighBounds(v);
    var e, p := VarintPut(v), VarintPut(v) + suffix;
    GetIsDecoded(p, |p|);
    var n := Extra(v);
    assert p[0] == e[0] == Tag(n) + High(v, n);
    assert p[1..1 + n] == e[1..] == Low(v, n);
    assert p[0] % 64 == High(v, n) && EncodedLength(p[0]) == 1 + n;
    AccumulateLow(v, n);
  }

  /** The limit is sharp: a value survives exactly when it fits in 62 bits. */
  lemma VarintExact(v: nat, suffix: seq<byte>)
    requires v < U64_LIMIT
    ensures VarintGet(VarintPut(v) + suffix).value == v <==> v < TWO62
  {
    if v < TWO62 {
      VarintRoundTrip(v, suffix);
    } else {
      var e, p := VarintPut(v), VarintPut(v) + suffix;
      GetIsDecoded(p, |p|);
      assert p[1..8] == e[1..] == Low(v, 7);
      HighAccumulate(e[0] % 64, Low(v, 7));
      HighBounds(Accumulate(e[0] % 64, Low(v, 7)));
    }
  }

  // ---- frames

  datatype Frame = Frame(kind: nat, payload: seq<byte>)

  predicate Encodable(f: Frame) {
    f.kind < TWO62 && |f.payload| < TWO62
  }

  function FrameBytes(f: Frame): seq<byte> {
    VarintPut(f.kind) + VarintPut(|f.payload|) + f.payload
  }

  function Encode(fs: seq<Frame>): seq<byte> {
    if fs == [] then [] else FrameBytes(fs[0]) + Encode(fs[1..])
  }

  /** One frame off the front, its payload cut to what is there; consumed 0 if there is none. */
  function FirstFrame(b: seq<byte>): (r: (Frame, nat))
    ensures r.1 <= |b|
  {
    var t := VarintGet(b);
    if t.consumed == 0 then (Frame(0, []), 0)
    else
      var l := VarintGet(b[t.consumed..]);
      if l.consumed == 0 then (Frame(0, []), 0)
      else
        var at := t.consumed + l.consumed;
        var plen := if l.value <= |b| - at then l.value else |b| - at;
        (Frame(t.value, b[at..at + plen]), at + plen)
  }

  /** `FirstFrame`, kept `|b|` calls deep so that proofs about whole streams do not unfold it. */
  function NextFrame(b: seq<byte>): (r: (Frame, nat))
    ensures r.1 <= |b|
  {
    NextFrameFrom(b, |b|)
  }

  function NextFrameFrom(b: seq<byte>, depth: nat): (r: (Frame, nat))
    ensures r.1 <= |b|
    decreases depth
  {
    if depth == 0 then FirstFrame(b) else NextFrameFrom(b, depth - 1)
  }

  lemma {:induction false} NextIsFirst(b: seq<byte>, depth: nat)
    ensures NextFrameFrom(b, depth) == FirstFrame(b)
    decreases depth
  {
    if depth > 0 { NextIsFirst(b, depth - 1); }
  }

  /** The frames of a stream, out of place. */
  function Parse(b: seq<byte>): seq<Frame>
    decreases |b|
  {
    var (f, n) := NextFrame(b);
    if n == 0 then [] else [f] + Parse(b[n..])
  }

  lemma ParseStep(b: seq<byte>, f: Frame, n: nat)
    requires 0 < n <= |b| && NextFrame(b) == (f, n)
    ensures Parse(b) == [f] + Parse(b[n..])
  {
  }

  /** The length field and the payload behind a frame's type. */
  lemma LengthRoundTrip(f: Frame, suffix: seq<byte>)
    requires Encodable(f)
    ensures var b, n := VarintPut(|f.payload|) + (f.payload + suffix), |VarintPut(|f.payload|)|;
      VarintGet(b) == Varint(|f.payload|, n) && b[n..n + |f.payload|] == f.payload
  {
    VarintRoundTrip(|f.payload|, f.payload + suffix);
  }

  lemma FirstFrameRoundTrip(f: Frame, suffix: seq<byte>)
    requires Encodable(f)
    ensures FirstFrame(FrameBytes(f) + suffix) == (f, |FrameBytes(f)|)
  {
    var kind, tail := VarintPut(f.kind), VarintPut(|f.payload|) + (f.payload + suffix);
    var b := FrameBytes(f) + suffix;
    assert b == kind + tail;
    VarintRoundTrip(f.kind, tail);
    LengthRoundTrip(f, suffix);
    assert b[|kind|..] == tail;
    var n := |VarintPut(|f.payload|)|;
    assert b[|kind| + n..|kind| + n + |f.payload|] == tail[n..n + |f.payload|];
  }

  lemma NextFrameRoundTrip(f: Frame, suffix: seq<byte>)
    requires Encodable(f)
    ensures NextFrame(FrameBytes(f) + suffix) == (f, |FrameBytes(f)|)
  {
    FirstFrameRoundTrip(f, suffix);
    NextIsFirst(FrameBytes(f) + suffix, |FrameBytes(f) + suffix|);
  }

  /** Parsing inverts encoding, for every list of frames. */
  lemma {:induction false} ParseEncode(fs: seq<Frame>)
    requires forall f :: f in fs ==> Encodable(f)
    ensures Parse(Encode(fs)) == fs
  {
    if fs != [] {
      NextFrameRoundTrip(fs[0], Encode(fs[1..]));
      var b := Encode(fs);
      assert b[|FrameBytes(fs[0])|..] == Encode(fs[1..]);
      ParseEncode(fs[1..]);
    }
  }

  // ---- the response: bodies and header blocks

  function BodyOf(f: Frame): seq<byte> {
    if f.kind == DATA then f.payload else []
  }

  function BlocksOf(f: Frame): seq<seq<byte>> {
    if f.kind == HEADERS then [f.payload] else []
  }

  /** The concatenation of the DATA payloads. */
  function Body(fs: seq<Frame>): seq<byte> {
    if fs == [] then [] else BodyOf(fs[0]) + Body(fs[1..])
  }

  /** The HEADERS payloads, in order. */
  function Blocks(fs: seq<Frame>): seq<seq<byte>> {
    if fs == [] then [] else BlocksOf(fs[0]) + Blocks(fs[1..])
  }

  /** The payloads of the frames of one type, in order. */
  function OfType(fs: seq<Frame>, kind: nat): seq<seq<byte>> {
    if fs == [] then []
    else (if fs[0].kind == kind then [fs[0].payload] else []) + OfType(fs[1..], kind)
  }

  function Flatten(ps: seq<seq<byte>>): seq<byte> {
    if ps == [] then [] else ps[0] + Flatten(ps[1..])
  }

  /** The body is what the frames of type 0 carry, the header blocks are those of type 1. */
  lemma {:induction false} BodyIsTypeZero(fs: seq<Frame>)
    ensures Body(fs) == Flatten(OfType(fs, 0x00)) && Blocks(fs) == OfType(fs, 0x01)
  {
    if fs != [] {
      BodyIsTypeZero(fs[1..]);
      var f, rest := fs[0], OfType(fs[1..], 0x00);
      if f.kind == 0x00 {
        assert ([f.payload] + rest)[1..] == rest;
      } else {
        assert [] + rest == rest && [] + Body(fs[1..]) == Body(fs[1..]);
      }
    }
  }

  /** What the first frame of a stream adds to the body, and to the blocks. */
  function NextBody(b: seq<byte>): seq<byte> {
    if NextFrame(b).1 == 0 then [] else BodyOf(NextFrame(b).0)
  }

  function NextBlocks(b: seq<byte>): seq<seq<byte>> {
    if NextFrame(b).1 == 0 then [] else BlocksOf(NextFrame(b).0)
  }

  /** memmove inside the receive buffer. */
  method MemoryMove(buf: array<byte>, dst: nat, src: nat, n: nat)
    requires dst <= src && src + n <= buf.Length
    modifies buf
    ensures buf[dst..dst + n] == old(buf[src..src + n])
    ensures buf[..dst] == old(buf[..dst]) && buf[src + n..] == old(buf[src + n..])
  {
    forall k | dst <= k < dst + n {
      buf[k] := buf[src + (k - dst)];
    }
  }

  /** `body` and `blocks` are what the frames come to before those still to be parsed from `rest`. */
  predicate Consumed(frames: seq<Frame>, rest: seq<byte>, going: bool, body: seq<byte>, blocks: seq<seq<byte>>) {
    var left := if going then Parse(rest) else [];
    Body(frames) == body + Body(left) && Blocks(frames) == blocks + Blocks(left)
  }

  lemma NothingConsumed(b: seq<byte>)
    ensures Consumed(Parse(b), b, true, [], [])
  {
  }

  lemma AllConsumed(frames: seq<Frame>, rest: seq<byte>, going: bool, body: seq<byte>, blocks: seq<seq<byte>>)
    requires Consumed(frames, rest, going, body, blocks) && (going ==> rest == [])
    ensures body == Body(frames) && blocks == Blocks(frames)
  {
    assert body + [] == body && blocks + [] == blocks;
  }

  /**
   h3_finish_response: the loop compacts DATA payloads to the front of the very
   buffer it is still parsing, yet body and header blocks are those of the bytes
   as they were received.
   */
  method FinishResponse(buf: array<byte>, len: nat) returns (bodyLen: nat, blocks: seq<seq<byte>>)
    requires len <= buf.Length
    modifies buf
    ensures bodyLen <= len
    ensures buf[..bodyLen] == Flatten(OfType(Parse(old(buf[..len])), 0x00))
    ensures blocks == OfType(Parse(old(buf[..len])), 0x01)
  {
    ghost var frames := Parse(buf[..len]);
    var p, going := 0, true;
    bodyLen, blocks := 0, [];
    assert buf[0..len] == buf[..len] && buf[..0] == [];
    NothingConsumed(buf[..len]);
    while p < len && going
      invariant bodyLen <= p <= len && Consumed(frames, buf[p..len], going, buf[..bodyLen], blocks)
      decreases len - p, going
    {
      ghost var b, body, seen := buf[p..len], buf[..bodyLen], blocks;
      var p', bodyLen', blocks' := Consume(buf, p, len, bodyLen, blocks);
      Advance(frames, b, body, seen, p' - p, buf[p'..len], buf[..bodyLen'], blocks');
      p, bodyLen, blocks, going := p', bodyLen', blocks', p' > p;
    }
    AllConsumed(frames, buf[p..len], going, buf[..bodyLen], blocks);
    BodyIsTypeZero(frames);
  }

  /** One frame of the loop: HEADERS go to the decoder, DATA joins the body, anything else is skipped. */
  method Consume(buf: array<byte>, p: nat, len: nat, bodyLen: nat, blocks: seq<seq<byte>>)
    returns (p': nat, bodyLen': nat, blocks': seq<seq<byte>>)
    requires bodyLen <= p <= len <= buf.Length
    modifies buf
    ensures bodyLen' <= p' <= len && p' == p + NextFrame(old(buf[p..len])).1
    ensures buf[p'..len] == old(buf[p..len])[p' - p..]
    ensures buf[..bodyLen'] == old(buf[..bodyLen]) + NextBody(old(buf[p..len]))
    ensures blocks' == blocks + NextBlocks(old(buf[p..len]))
  {
    var kind, at, _, plen := ReadHead(buf[p..len]);
    if at == 0 {
      p', bodyLen', blocks' := p, bodyLen, blocks;
    } else {
      p' := p + at + plen;
      ghost var b := buf[p..len];
      SubSlices(buf, p, len, at, plen);
      bodyLen', blocks' := Deliver(buf, kind, p + at, plen, len, bodyLen, blocks, b[at..at + plen], b[at + plen..]);
    }
  }

  /** What becomes of the frame's payload. */
  method Deliver(buf: array<byte>, kind: nat, at: nat, plen: nat, len: nat, bodyLen: nat, blocks: seq<seq<byte>>,
                 ghost payload: seq<byte>, ghost rest: seq<byte>)
    returns (bodyLen': nat, blocks': seq<seq<byte>>)
    requires bodyLen <= at && at + plen <= len <= buf.Length
    requires payload == buf[at..at + plen] && rest == buf[at + plen..len]
    modifies buf
    ensures bodyLen' <= at + plen && buf[at + plen..len] == rest
    ensures buf[..bodyLen'] == old(buf[..bodyLen]) + BodyOf(Frame(kind, payload))
    ensures blocks' == blocks + BlocksOf(Frame(kind, payload))
  {
    bodyLen', blocks' := bodyLen, blocks;
    if kind == HEADERS {
      blocks' := blocks + [buf[at..at + plen]];
    } else if kind == DATA {
      Take(buf, bodyLen, at, plen, len);
      bodyLen' := bodyLen + plen;
    }
  }

  lemma SubSlices(buf: array<byte>, p: nat, len: nat, at: nat, plen: nat)
    requires p <= len <= buf.Length && at + plen <= len - p
    ensures buf[p..len][at..at + plen] == buf[p + at..p + at + plen]
    ensures buf[p..len][at + plen..] == buf[p + at + plen..len]
  {
    var a, b := buf[p..len][at..at + plen], buf[p + at..p + at + plen];
    assert forall k :: 0 <= k < |a| ==> a[k] == b[k];
    var c, d := buf[p..len][at + plen..], buf[p + at + plen..len];
    assert forall k :: 0 <= k < |c| ==> c[k] == d[k];
  }

  /** The specification moves on by the same frame, or stops where no frame is left. */
  lemma Advance(frames: seq<Frame>, b: seq<byte>, body: seq<byte>, seen: seq<seq<byte>>,
                n: nat, b': seq<byte>, body': seq<byte>, seen': seq<seq<byte>>)
    requires Consumed(frames, b, true, body, seen) && NextFrame(b).1 == n <= |b| && b' == b[n..]
    requires body' == body + NextBody(b) && seen' == seen + NextBlocks(b)
    ensures Consumed(frames, b', n > 0, body', seen')
  {
    if n > 0 {
      var f, rest := NextFrame(b).0, Parse(b[n..]);
      ParseStep(b, f, n);
      ConsFacts(f, rest);
      Associate(body, BodyOf(f), Body(rest));
      Associate(seen, BlocksOf(f), Blocks(rest));
    } else {
      assert Parse(b) == [];
    }
  }

  lemma Associate<T>(a: seq<T>, b: seq<T>, c: seq<T>)
    ensures a + (b + c) == a + b + c
  {
  }

  lemma ConsFacts(f: Frame, fs: seq<Frame>)
    ensures Body([f] + fs) == BodyOf(f) + Body(fs) && Blocks([f] + fs) == BlocksOf(f) + Blocks(fs)
  {
    assert ([f] + fs)[1..] == fs;
  }

  /**
   Type and length field of the next frame; `at` is where its payload starts, 0 if
   the header is not all there; `plen` is the length cut to what is there.
   */
  method ReadHead(b: seq<byte>) returns (kind: nat, at: nat, flen: nat, plen: nat)
    ensures at + plen <= |b| && plen == if flen <= |b| - at then flen else |b| - at
    ensures if at == 0 then NextFrame(b).1 == 0 else NextFrame(b) == (Frame(kind, b[at..at + plen]), at + plen)
  {
    NextIsFirst(b, |b|);
    kind, at, flen, plen := 0, 0, 0, 0;
    var t := ReadVarint(b);
    if t.consumed > 0 {
      var l := ReadVarint(b[t.consumed..]);
      if l.consumed > 0 {
        kind, at, flen := t.value, t.consumed + l.consumed, l.value;
        plen := if flen <= |b| - at then flen else |b| - at;
      }
    }
  }

  /** One DATA payload joins the body; the bytes not yet parsed stay put. */
  method Take(buf: array<byte>, bodyLen: nat, at: nat, plen: nat, len: nat)
    requires bodyLen <= at && at + plen <= len <= buf.Length
    modifies buf
    ensures buf[..bodyLen + plen] == old(buf[..bodyLen] + buf[at..at + plen])
    ensures buf[at + plen..len] == old(buf[at + plen..len])
  {
    if bodyLen != at {
      MemoryMove(buf, bodyLen, at, plen);
    }
    assert buf[..bodyLen + plen] == buf[..bodyLen] + buf[bodyLen..bodyLen + plen];
    assert buf[at + plen..len] == buf[at + plen..][..len - (at + plen)];
    assert old(buf[at + plen..len]) == old(buf[at + plen..])[..len - (at + plen)];
  }

  // ---- the control stream

  datatype Setting = Setting(id: nat, value: nat)

  datatype Profile = Profile(settings: seq<Setting>, greaseSetting: bool, greaseFrame: bool, priorityUpdate: bool)

  predicate EncodableProfile(p: Profile) {
    && |p.settings| < 256
    && forall s :: s in p.settings ==> s.id < TWO62 && s.value < TWO62
  }

  function PairBytes(s: Setting): seq<byte> {
    VarintPut(s.id) + VarintPut(s.value)
  }

  function SettingsBytes(ss: seq<Setting>): (bs: seq<byte>)
    ensures |bs| <= 16 * |ss|
  {
    if ss == [] then [] else SettingsBytes(ss[..|ss| - 1]) + PairBytes(ss[|ss| - 1])
  }

  /** The settings as sent: the profile's, then the GREASE one. */
  function SentSettings(p: Profile): seq<Setting> {
    p.settings + if p.greaseSetting then [Setting(GREASE_SETTING, 0)] else []
  }

  /** The priority field value "u=1, i". */
  const PRIORITY: seq<byte> := [0x75, 0x3d, 0x31, 0x2c, 0x20, 0x69]

  /** build_h3_priority_update, as a frame. */
  function PriorityFrame(streamId: nat): (f: Frame)
    ensures Encodable(f)
  {
    Frame(PRIORITY_UPDATE, VarintPut(streamId) + PRIORITY)
  }

  /** The frames a control stream should carry, in order. */
  function ControlFrames(p: Profile, streamId: nat): seq<Frame> {
    [Frame(SETTINGS, SettingsBytes(SentSettings(p)))]
    + (if p.greaseFrame then [Frame(GREASE_FRAME, [])] else [])
    + (if p.priorityUpdate then [PriorityFrame(streamId)] else [])
  }

  lemma SettingsSnoc(ss: seq<Setting>, s: Setting)
    ensures SettingsBytes(ss + [s]) == SettingsBytes(ss) + PairBytes(s)
  {
    assert (ss + [s])[..|ss|] == ss;
  }

  method AppendPair(body: seq<byte>, s: Setting) returns (body': seq<byte>)
    ensures body' == body + PairBytes(s)
  {
    body' := body + VarintPut(s.id);
    body' := body' + VarintPut(s.value);
  }

  method AppendNext(ss: seq<Setting>, i: nat, body: seq<byte>) returns (body': seq<byte>)
    requires i < |ss| && body == SettingsBytes(ss[..i])
    ensures body' == SettingsBytes(ss[..i + 1])
  {
    body' := AppendPair(body, ss[i]);
    SettingsSnoc(ss[..i], ss[i]);
    assert ss[..i + 1] == ss[..i] + [ss[i]];
  }

  method AppendPairs(ss: seq<Setting>) returns (body: seq<byte>)
    ensures body == SettingsBytes(ss)
  {
    body := [];
    for i := 0 to |ss|
      invariant body == SettingsBytes(ss[..i])
    {
      body := AppendNext(ss, i, body);
    }
    assert ss[..|ss|] == ss;
  }

  /** The SETTINGS body: the profile's settings, then the GREASE one. */
  method BuildSettings(p: Profile) returns (body: seq<byte>)
    ensures body == SettingsBytes(SentSettings(p))
  {
    body := AppendPairs(p.settings);
    if p.greaseSetting {
      var grease := Setting(GREASE_SETTING, 0x00);
      SettingsSnoc(p.settings, grease);
      body := AppendPair(body, grease);
    } else {
      assert p.settings + [] == p.settings;
    }
  }

  /** build_h3_priority_update. */
  method BuildPriorityUpdate(streamId: nat) returns (out: seq<byte>)
    ensures out == FrameBytes(PriorityFrame(streamId))
  {
    var pu := VarintPut(streamId);
    pu := pu + PRIORITY;
    out := VarintPut(PRIORITY_UPDATE);
    out := out + VarintPut(|pu|);
    out := out + pu;
  }

  /** build_h3_control_stream. */
  method BuildControlStream(p: Profile, streamId: nat) returns (out: seq<byte>)
    ensures out == VarintPut(0) + Encode(ControlFrames(p, streamId))
  {
    out := VarintPut(0x00);
    var body := BuildSettings(p);
    out := AppendFrame(out, SETTINGS, body);
    var pu := BuildPriorityUpdate(streamId);
    out := AppendOptional(VarintPut(0), out, p, Frame(SETTINGS, body), GREASE_FRAME, pu, PriorityFrame(streamId));
  }

  /** The frames behind SETTINGS, each under its own switch. */
  method AppendOptional(ghost head: seq<byte>, out: seq<byte>, p: Profile, ghost settings: Frame, grease: nat,
                        pu: seq<byte>, ghost priority: Frame)
    returns (out': seq<byte>)
    requires out == head + FrameBytes(settings) && pu == FrameBytes(priority)
    ensures out' == head + Encode(
      [settings]
      + (if p.greaseFrame then [Frame(grease, [])] else [])
      + (if p.priorityUpdate then [priority] else []))
  {
    EncodeOne(settings);
    out' := out;
    ghost var fs := [settings];
    if p.greaseFrame {
      out' := AppendFrame(out', grease, []);
      AppendEncode(head, fs, Frame(grease, []));
    }
    ghost var fs' := fs + if p.greaseFrame then [Frame(grease, [])] else [];
    assert !p.greaseFrame ==> fs' == fs;
    if p.priorityUpdate {
      out' := out' + pu;
      AppendEncode(head, fs', priority);
    } else {
      assert fs' + [] == fs';
    }
  }

  lemma EncodeOne(f: Frame)
    ensures Encode([f]) == FrameBytes(f)
  {
  }

  method AppendFrame(out: seq<byte>, kind: nat, payload: seq<byte>) returns (out': seq<byte>)
    ensures out' == out + FrameBytes(Frame(kind, payload))
  {
    out' := out + VarintPut(kind);
    out' := out' + VarintPut(|payload|);
    out' := out' + payload;
  }

  lemma AppendEncode(head: seq<byte>, fs: seq<Frame>, f: Frame)
    ensures head + Encode(fs) + FrameBytes(f) == head + Encode(fs + [f])
  {
    EncodeSnoc(fs, f);
  }

  lemma {:induction false} EncodeSnoc(fs: seq<Frame>, f: Frame)
    ensures Encode(fs + [f]) == Encode(fs) + FrameBytes(f)
  {
    if fs == [] {
      assert fs + [f] == [f] && Encode([f]) == FrameBytes(f) + [];
    } else {
      assert (fs + [f])[1..] == fs[1..] + [f];
      EncodeSnoc(fs[1..], f);
    }
  }

  // ---- the walk of h3_text

  /** A SETTINGS payload, pair by pair, until a varint is not all there. */
  function ParsePairs(b: seq<byte>): seq<Setting>
    decreases |b|
  {
    var id := VarintGet(b);
    if id.consumed == 0 then []
    else
      var value := VarintGet(b[id.consumed..]);
      if value.consumed == 0 then []
      else [Setting(id.value, value.value)] + ParsePairs(b[id.consumed + value.consumed..])
  }

  /** What h3_text prints for a setting and for a frame. */
  datatype SettingText = GreaseSetting | Plain(id: nat, value: nat)
  datatype FrameText = Settings(items: seq<SettingText>) | GreaseFrame | Other(kind: nat)

  predicate IsReserved(v: nat) {
    v >= 0x21 && (v - 0x21) % 0x1f == 0
  }

  function SettingLabel(s: Setting): SettingText {
    if IsReserved(s.id) then GreaseSetting else Plain(s.id, s.value)
  }

  function SettingTexts(ss: seq<Setting>): seq<SettingText> {
    if ss == [] then [] else SettingTexts(ss[..|ss| - 1]) + [SettingLabel(ss[|ss| - 1])]
  }

  function TextOf(f: Frame): FrameText {
    if f.kind == SETTINGS then Settings(SettingTexts(ParsePairs(f.payload)))
    else if IsReserved(f.kind) then GreaseFrame
    else Other(f.kind)
  }

  function Texts(fs: seq<Frame>): seq<FrameText> {
    if fs == [] then [] else Texts(fs[..|fs| - 1]) + [TextOf(fs[|fs| - 1])]
  }

  lemma SettingTextsSnoc(ss: seq<Setting>, s: Setting)
    ensures SettingTexts(ss + [s]) == SettingTexts(ss) + [SettingLabel(s)]
  {
    assert (ss + [s])[..|ss|] == ss;
  }

  lemma TextsSnoc(fs: seq<Frame>, f: Frame)
    ensures Texts(fs + [f]) == Texts(fs) + [TextOf(f)]
  {
    assert (fs + [f])[..|fs|] == fs;
  }

  /** One pair off the front; consumed 0 if there is none. */
  method ReadPair(b: seq<byte>) returns (s: Setting, n: nat)
    ensures n <= |b| && ParsePairs(b) == if n == 0 then [] else [s] + ParsePairs(b[n..])
  {
    s, n := Setting(0, 0), 0;
    var id := ReadVarint(b);
    if id.consumed == 0 { return; }
    var value := ReadVarint(b[id.consumed..]);
    if value.consumed == 0 { return; }
    s, n := Setting(id.value, value.value), id.consumed + value.consumed;
  }

  /**
   A loop has taken `done` off the front of `all`, and `left` is still to come. Kept
   `|done|` calls deep, so that a loop's proof moves it only through the lemmas below.
   */
  ghost predicate Split<T>(all: seq<T>, done: seq<T>, left: seq<T>, depth: nat) {
    if depth == 0 then all == done + left else Split(all, done, left, depth - 1)
  }

  lemma {:induction false} SplitMeans<T>(all: seq<T>, done: seq<T>, left: seq<T>, depth: nat)
    ensures Split(all, done, left, depth) <==> all == done + left
  {
    if depth > 0 { SplitMeans(all, done, left, depth - 1); }
  }

  lemma SplitStep<T>(all: seq<T>, done: seq<T>, x: T, left: seq<T>)
    requires Split(all, done, [x] + left, |done|)
    ensures Split(all, done + [x], left, |done + [x]|)
  {
    SplitMeans(all, done, [x] + left, |done|);
    SplitMeans(all, done + [x], left, |done + [x]|);
  }

  lemma SplitEnd<T>(all: seq<T>, done: seq<T>, left: seq<T>)
    requires Split(all, done, left, |done|) && left == []
    ensures all == done
  {
    SplitMeans(all, done, left, |done|);
  }

  /** The inner loop of h3_text, over one SETTINGS payload. */
  method WalkSettings(payload: seq<byte>) returns (texts: seq<SettingText>)
    ensures texts == SettingTexts(ParsePairs(payload))
  {
    texts := [];
    var rest, going := payload, true;
    ghost var all := ParsePairs(payload);
    ghost var done: seq<Setting>, left := [], all;
    SplitMeans(all, done, left, |done|);
    while |rest| > 0 && going
      invariant texts == SettingTexts(done) && Split(all, done, left, |done|)
      invariant left == if going then ParsePairs(rest) else []
      decreases |rest|, going
    {
      var s, n := ReadPair(rest);
      if n == 0 {
        going, left := false, [];
      } else {
        rest := rest[n..];
        left := ParsePairs(rest);
        SplitStep(all, done, s, left);
        SettingTextsSnoc(done, s);
        texts := texts + [SettingLabel(s)];
        done := done + [s];
      }
    }
    EmptyParse();
    SplitEnd(all, done, left);
  }

  /** What is left of `d` behind an offset that may lie past its end. */
  function Beyond(d: seq<byte>, off: nat): seq<byte> {
    if off <= |d| then d[off..] else []
  }

  lemma BeyondStep(d: seq<byte>, off: nat, at: nat, flen: nat, plen: nat)
    requires off < |d| && at + plen <= |d| - off
    requires plen == if flen <= |d| - off - at then flen else |d| - off - at
    ensures Beyond(d, off + at + flen) == d[off..][at + plen..]
  {
  }

  /** `texts` are the labels of `fs`; kept `depth` calls deep like `Split`. */
  ghost predicate Labelled(texts: seq<FrameText>, fs: seq<Frame>, depth: nat) {
    if depth == 0 then texts == Texts(fs) else Labelled(texts, fs, depth - 1)
  }

  lemma {:induction false} LabelledMeans(texts: seq<FrameText>, fs: seq<Frame>, depth: nat)
    ensures Labelled(texts, fs, depth) <==> texts == Texts(fs)
  {
    if depth > 0 { LabelledMeans(texts, fs, depth - 1); }
  }

  method PushLabel(texts: seq<FrameText>, f: Frame, ghost fs: seq<Frame>) returns (texts': seq<FrameText>)
    requires Labelled(texts, fs, |fs|)
    ensures Labelled(texts', fs + [f], |fs + [f]|)
  {
    var text := FrameLabel(f);
    texts' := texts + [text];
    LabelledMeans(texts, fs, |fs|);
    TextsSnoc(fs, f);
    LabelledMeans(texts', fs + [f], |fs + [f]|);
  }

  /** The loop of h3_text after the stream type: the offset moves by the length field, past the end if the frame is cut. */
  method WalkControl(d: seq<byte>) returns (texts: seq<FrameText>)
    ensures texts == Texts(Parse(d[VarintGet(d).consumed..]))
  {
    var t := ReadVarint(d);
    var off, going := t.consumed, true;
    texts := [];
    ghost var all := Parse(d[off..]);
    ghost var done: seq<Frame>, left := [], all;
    SplitMeans(all, done, left, |done|);
    LabelledMeans(texts, done, |done|);
    while off < |d| && going
      invariant Labelled(texts, done, |done|) && Split(all, done, left, |done|)
      invariant left == if going then Parse(Beyond(d, off)) else []
      decreases |d| - off, going
    {
      var f, skip, more := ReadFrame(d, off);
      if !more {
        going, left := false, [];
      } else {
        off := off + skip;
        left := Parse(Beyond(d, off));
        SplitStep(all, done, f, left);
        texts := PushLabel(texts, f, done);
        done := done + [f];
      }
    }
    EmptyParse();
    SplitEnd(all, done, left);
    LabelledMeans(texts, done, |done|);
  }

  /** The frame at an offset, and how far its length field says to move on. */
  method ReadFrame(d: seq<byte>, off: nat) returns (f: Frame, skip: nat, more: bool)
    requires off < |d|
    ensures Parse(Beyond(d, off)) == if more then [f] + Parse(Beyond(d, off + skip)) else []
    ensures more ==> skip > 0
  {
    f, skip, more := Frame(0, []), 0, false;
    var rest := d[off..];
    var kind, at, flen, plen := ReadHead(rest);
    if at > 0 {
      f, skip, more := Frame(kind, rest[at..at + plen]), at + flen, true;
      ParseStep(rest, f, at + plen);
      BeyondStep(d, off, at, flen, plen);
    }
  }

  method FrameLabel(f: Frame) returns (text: FrameText)
    ensures text == TextOf(f)
  {
    if f.kind == SETTINGS {
      var items := WalkSettings(f.payload);
      return Settings(items);
    }
    return if IsReserved(f.kind) then GreaseFrame else Other(f.kind);
  }

  lemma EmptyParse()
    ensures Parse([]) == [] && ParsePairs([]) == []
  {
    NextIsFirst([], 0);
    GetIsDecoded([], 0);
  }

  // ---- round trips

  lemma {:induction false} PairsRoundTrip(ss: seq<Setting>, suffix: seq<byte>)
    requires forall s :: s in ss ==> s.id < TWO62 && s.value < TWO62
    ensures ParsePairs(SettingsBytes(ss) + suffix) == ss + ParsePairs(suffix)
    decreases |ss|
  {
    if ss == [] {
      assert [] + suffix == suffix;
    } else {
      var init, s := ss[..|ss| - 1], ss[|ss| - 1];
      var tail := PairBytes(s) + suffix;
      Associate(SettingsBytes(init), PairBytes(s), suffix);
      PairsRoundTrip(init, tail);
      PairRoundTrip(s, suffix);
      Associate(init, [s], ParsePairs(suffix));
      assert ss == init + [s];
    }
  }

  lemma PairRoundTrip(s: Setting, suffix: seq<byte>)
    requires s.id < TWO62 && s.value < TWO62
    ensures ParsePairs(PairBytes(s) + suffix) == [s] + ParsePairs(suffix)
  {
    var id, value := VarintPut(s.id), VarintPut(s.value);
    var b := PairBytes(s) + suffix;
    assert b == id + (value + suffix);
    VarintRoundTrip(s.id, value + suffix);
    assert b[|id|..] == value + suffix;
    VarintRoundTrip(s.value, suffix);
    assert b[|id| + |value|..] == suffix;
  }

  /**
   The control stream round trip: walking what the builder wrote recovers, in
   order, every setting, the GREASE setting and frame when enabled, and the
   PRIORITY_UPDATE with its stream id; and it uses up every byte.
   */
  lemma ControlRoundTrip(p: Profile, streamId: nat, out: seq<byte>)
    requires EncodableProfile(p) && streamId < TWO62
    requires out == VarintPut(0) + Encode(ControlFrames(p, streamId))
    ensures VarintGet(out).value == 0
    ensures Parse(out[VarintGet(out).consumed..]) == ControlFrames(p, streamId)
    ensures Encode(Parse(out[VarintGet(out).consumed..])) == out[VarintGet(out).consumed..]
    ensures ParsePairs(ControlFrames(p, streamId)[0].payload) == SentSettings(p)
    ensures var f := PriorityFrame(streamId);
      VarintGet(f.payload).value == streamId && f.payload[VarintGet(f.payload).consumed..] == PRIORITY
  {
    var fs := ControlFrames(p, streamId);
    VarintRoundTrip(0, Encode(fs));
    assert out[1..] == Encode(fs);
    ParseEncode(fs);
    var body := SettingsBytes(SentSettings(p));
    PairsRoundTrip(SentSettings(p), []);
    assert body + [] == body;
    VarintRoundTrip(streamId, PRIORITY);
  }

  /** The fingerprint text of a built stream, item by item. */
  lemma ControlText(p: Profile, streamId: nat, out: seq<byte>)
    requires EncodableProfile(p) && streamId < TWO62
    requires out == VarintPut(0) + Encode(ControlFrames(p, streamId))
    ensures Texts(Parse(out[VarintGet(out).consumed..])) ==
            [Settings(SettingTexts(SentSettings(p)))]
            + (if p.greaseFrame then [GreaseFrame] else [])
            + (if p.priorityUpdate then [Other(0xf0700)] else [])
  {
    ControlRoundTrip(p, streamId, out);
    ConstantTexts(streamId);
    OptionalTexts(p, Frame(SETTINGS, SettingsBytes(SentSettings(p))), Frame(GREASE_FRAME, []), PriorityFrame(streamId));
  }

  lemma ConstantTexts(streamId: nat)
    ensures TextOf(Frame(GREASE_FRAME, [])) == GreaseFrame
    ensures TextOf(PriorityFrame(streamId)) == Other(0xf0700)
  {
  }

  lemma OptionalTexts(p: Profile, a: Frame, b: Frame, c: Frame)
    ensures Texts([a] + (if p.greaseFrame then [b] else []) + (if p.priorityUpdate then [c] else [])) ==
            [TextOf(a)] + (if p.greaseFrame then [TextOf(b)] else []) + (if p.priorityUpdate then [TextOf(c)] else [])
  {
    var fs := [a] + if p.greaseFrame then [b] else [];
    assert [] + [a] == [a];
    TextsSnoc([], a);
    assert !p.greaseFrame ==> fs == [a];
    TextsSnoc([a], b);
    TextsSnoc(fs, c);
    assert fs + [] == fs;
  }
}
