/** HTTP/3 as numbers and bytes on the wire. */
module H3Wire {
  import opened Bytes
  import opened H3

  // ---- varints, against section 16 of RFC 9000

  /** The number a byte string spells, most significant byte first. */
  function BigEndian(bs: seq<byte>): nat {
    if bs == [] then 0 else BigEndian(bs[..|bs| - 1]) * 256 + bs[|bs| - 1]
  }

  lemma {:induction false} AccumulateIsBigEndian(v: nat, bs: seq<byte>)
    ensures Accumulate(v, bs) == v * Pow256(|bs|) + BigEndian(bs)
    decreases |bs|
  {
    if bs != [] {
      var n := |bs| - 1;
      AccumulateIsBigEndian(v, bs[..n]);
      AccumulateSnoc(v, bs[..n], bs[n]);
      assert bs == bs[..n] + [bs[n]];
      assert v * Pow256(n + 1) == v * Pow256(n) * 256;
    }
  }

  lemma {:induction false} FirstByte(first: byte, bs: seq<byte>)
    ensures BigEndian([first] + bs) == first * Pow256(|bs|) + BigEndian(bs)
    decreases |bs|
  {
    var all := [first] + bs;
    if bs == [] {
      assert all == [first] && BigEndian([]) == 0;
    } else {
      var n := |bs| - 1;
      FirstByte(first, bs[..n]);
      assert all[..|all| - 1] == [first] + bs[..n];
      assert first * Pow256(n + 1) == first * Pow256(n) * 256;
    }
  }

  lemma Powers()
    ensures Pow256(0) == 1 && Pow256(1) == 0x100 && Pow256(3) == 0x100_0000 && Pow256(7) == 0x100_0000_0000_0000
  {
    assert Pow256(2) == 0x1_0000;
    assert Pow256(4) == 0x1_0000_0000;
    assert Pow256(5) == 0x100_0000_0000;
    assert Pow256(6) == 0x1_0000_0000_0000;
  }

  /** A varint is the number itself, big-endian, in the shortest of four lengths, with the length in its top two bits. */
  lemma VarintIsBigEndian(v: nat)
    requires v < 0x4000_0000_0000_0000
    ensures var bs := VarintPut(v);
      if v < 0x40 then |bs| == 1 && BigEndian(bs) == v
      else if v < 0x4000 then |bs| == 2 && BigEndian(bs) == 0x4000 + v
      else if v < 0x4000_0000 then |bs| == 4 && BigEndian(bs) == 0x8000_0000 + v
      else |bs| == 8 && BigEndian(bs) == 0xc000_0000_0000_0000 + v
  {
    HighBounds(v);
    TaggedIs(v, Extra(v), Tag(Extra(v)));
    Powers();
  }

  /** A tag in front of the high part of a number adds to it what the tag spells. */
  lemma TaggedIs(v: nat, n: nat, tag: nat)
    requires tag + High(v, n) < 256
    ensures BigEndian([tag + High(v, n)] + Low(v, n)) == tag * Pow256(n) + v
  {
    AccumulateLow(v, n);
    TaggedFrom(v, High(v, n), Low(v, n), tag);
  }

  lemma TaggedFrom(v: nat, h: nat, bs: seq<byte>, tag: nat)
    requires tag + h < 256 && Accumulate(h, bs) == v
    ensures BigEndian([tag + h] + bs) == tag * Pow256(|bs|) + v
  {
    AccumulateIsBigEndian(h, bs);
    FirstByte(tag + h, bs);
    Distribute(tag, h, Pow256(|bs|), BigEndian(bs), v, BigEndian([tag + h] + bs));
  }

  lemma Distribute(tag: nat, h: nat, p: nat, low: nat, v: nat, all: nat)
    requires all == (tag + h) * p + low && v == h * p + low
    ensures all == tag * p + v
  {
    assert (tag + h) * p == tag * p + h * p;
  }

  /** Reading one: the top two bits give the length, the rest is the number; nothing is read if it is not all there. */
  lemma VarintReads(p: seq<byte>)
    ensures var r := VarintGet(p);
      if p == [] then r.consumed == 0
      else
        var n := if p[0] < 0x40 then 1 else if p[0] < 0x80 then 2 else if p[0] < 0xc0 then 4 else 8;
        if |p| < n then r.consumed == 0
        else r.consumed == n && r.value == BigEndian([p[0] % 64] + p[1..n])
  {
    GetIsDecoded(p, |p|);
    if p != [] && |p| >= EncodedLength(p[0]) {
      var n := EncodedLength(p[0]);
      AccumulateIsBigEndian(p[0] % 64, p[1..n]);
      FirstByte(p[0] % 64, p[1..n]);
    }
  }

  // ---- a response, byte by byte

  lemma ShortFrame(kind: byte, payload: seq<byte>)
    requires kind < 64 && |payload| < 64
    ensures FrameBytes(Frame(kind, payload)) == [kind, |payload|] + payload
  {
    assert VarintPut(kind) == [kind] + [] && VarintPut(|payload|) == [|payload|] + [];
  }

  /** A HEADERS frame, a frame nobody knows and two DATA frames: one block, and one body. */
  lemma ResponseOnTheWire(h: seq<byte>, x: seq<byte>, d: seq<byte>, e: seq<byte>, other: byte, bytes: seq<byte>)
    requires |h| < 64 && |x| < 64 && |d| < 64 && |e| < 64 && 1 < other < 64
    requires bytes == [0x01, |h|] + h + ([other, |x|] + x) + ([0x00, |d|] + d) + ([0x00, |e|] + e)
    ensures Flatten(OfType(Parse(bytes), 0x00)) == d + e && OfType(Parse(bytes), 0x01) == [h]
  {
    var fs := [Frame(1, h), Frame(other, x), Frame(0, d), Frame(0, e)];
    ShortFrame(1, h);
    ShortFrame(other, x);
    ShortFrame(0, d);
    ShortFrame(0, e);
    EncodeFour(fs[0], fs[1], fs[2], fs[3]);
    ParseEncode(fs);
    TypesOfFour(fs[0], fs[1], fs[2], fs[3]);
    FlattenTwo(d, e);
  }

  lemma FlattenTwo(d: seq<byte>, e: seq<byte>)
    ensures Flatten([d, e]) == d + e
  {
    assert [e][1..] == [] && e + [] == e;
    assert Flatten([e]) == e;
    assert [d, e][1..] == [e];
  }

  lemma EncodeFour(a: Frame, b: Frame, c: Frame, d: Frame)
    ensures Encode([a, b, c, d]) == FrameBytes(a) + FrameBytes(b) + FrameBytes(c) + FrameBytes(d)
  {
    EncodeSnoc([], a);
    EncodeSnoc([a], b);
    EncodeSnoc([a, b], c);
    EncodeSnoc([a, b, c], d);
    assert [] + [a] == [a] && [a] + [b] == [a, b] && [a, b] + [c] == [a, b, c] && [a, b, c] + [d] == [a, b, c, d];
  }

  lemma TypesOfFour(a: Frame, b: Frame, c: Frame, d: Frame)
    requires a.kind == 1 && b.kind > 1 && c.kind == 0 && d.kind == 0
    ensures OfType([a, b, c, d], 0) == [c.payload, d.payload] && OfType([a, b, c, d], 1) == [a.payload]
  {
    var fs := [a, b, c, d];
    assert fs[1..] == [b, c, d] && [b, c, d][1..] == [c, d] && [c, d][1..] == [d] && [d][1..] == [];
    assert OfType([d], 0) == [d.payload] && OfType([d], 1) == [];
    assert OfType([c, d], 0) == [c.payload, d.payload] && OfType([c, d], 1) == [];
    assert OfType([b, c, d], 0) == [c.payload, d.payload] && OfType([b, c, d], 1) == [];
  }

  // ---- the control stream, byte by byte

  /** SETTINGS first, with setting 250 at its end, then a frame of type 374, then PRIORITY_UPDATE with "u=1, i". */
  lemma ControlNumbers(p: Profile, streamId: nat)
    ensures SentSettings(p) == p.settings + (if p.greaseSetting then [Setting(250, 0)] else [])
    ensures ControlFrames(p, streamId) ==
            [Frame(4, SettingsBytes(SentSettings(p)))]
            + (if p.greaseFrame then [Frame(374, [])] else [])
            + (if p.priorityUpdate then [Frame(984832, VarintPut(streamId) + [0x75, 0x3d, 0x31, 0x2c, 0x20, 0x69])] else [])
    ensures (250 - 0x21) % 0x1f == 0 && (374 - 0x21) % 0x1f == 0
  {
  }

  /** Reserved numbers are those of the form 31 * n + 33; the text says GREASE for them and the numbers for all others. */
  lemma ReservedIff(v: nat, n: nat, x: nat)
    ensures IsReserved(31 * n + 33) && (IsReserved(v) ==> v >= 33 && v == 31 * ((v - 33) / 31) + 33)
    ensures SettingLabel(Setting(v, x)) == if IsReserved(v) then GreaseSetting else Plain(v, x)
    ensures v != 4 ==> TextOf(Frame(v, [])) == if IsReserved(v) then GreaseFrame else Other(v)
  {
    ModUnique(31 * n, n, 0, 31);
  }

  /** The whole of it for a profile without settings of its own. */
  lemma ControlOnTheWire(streamId: nat)
    requires streamId < 64
    ensures VarintPut(0) + Encode(ControlFrames(Profile([], false, true, true), streamId)) ==
            [0x00] + [0x04, 0x00] + [0x41, 0x76, 0x00]
            + ([0x80, 0x0f, 0x07, 0x00, 0x07, streamId] + [0x75, 0x3d, 0x31, 0x2c, 0x20, 0x69])
  {
    var p := Profile([], false, true, true);
    ControlNumbers(p, streamId);
    ThreeFrames(streamId);
    var a, b, c := Frame(4, []), Frame(374, []), PriorityFrame(streamId);
    EncodeSnoc([], a);
    EncodeSnoc([a], b);
    EncodeSnoc([a, b], c);
    assert [] + [a] == [a] && [a] + [b] == [a, b] && [a, b] + [c] == [a, b, c];
    assert SettingsBytes([] + []) == [];
    assert ControlFrames(p, streamId) == [a, b, c];
  }

  lemma ThreeFrames(streamId: nat)
    requires streamId < 64
    ensures VarintPut(0) == [0x00] && FrameBytes(Frame(4, [])) == [0x04, 0x00]
    ensures FrameBytes(Frame(374, [])) == [0x41, 0x76, 0x00]
    ensures FrameBytes(PriorityFrame(streamId)) ==
            [0x80, 0x0f, 0x07, 0x00, 0x07, streamId] + [0x75, 0x3d, 0x31, 0x2c, 0x20, 0x69]
  {
    ShortFrame(4, []);
    assert VarintPut(0) == [0x00] + [] && VarintPut(7) == [0x07] + [] && VarintPut(streamId) == [streamId] + [];
    TwoBytes(374);
    FourBytes(984832);
  }

  lemma TwoBytes(v: nat)
    requires 0x40 <= v < 0x4000
    ensures VarintPut(v) == [0x40 + v / 256, v % 256]
  {
    assert High(v, 1) == High(v / 256, 0) && Low(v, 1) == Low(v / 256, 0) + [v % 256];
  }

  lemma FourBytes(v: nat)
    requires 0x4000 <= v < 0x4000_0000
    ensures VarintPut(v) == [0x80 + v / 256 / 256 / 256, v / 256 / 256 % 256, v / 256 % 256, v % 256]
  {
    var a, b, c := v / 256, v / 256 / 256, v / 256 / 256 / 256;
    assert High(v, 3) == High(a, 2) == High(b, 1) == High(c, 0) == c;
    assert Low(c, 0) == [];
    assert Low(b, 1) == [b % 256];
    assert Low(a, 2) == [b % 256, a % 256];
    assert Low(v, 3) == [b % 256, a % 256, v % 256];
  }
}
