/** RTCP compound packets (RFC 3550 section 6): the strict validator, the tolerant parser and the
    builder of `src/media/rtcp.rs`. A BYE reason is kept as raw bytes. */
module RtcpWire {
  import opened Words

  const SR := 200
  const RR := 201
  const SDES := 202
  const BYE := 203

  datatype ReportBlock = ReportBlock(
    ssrc: u32,
    fractionLost: u8,
    cumulativeLost: int,
    highestSeq: u32,
    jitter: u32,
    lastSr: u32,
    delaySinceLastSr: u32)

  datatype RtcpPacket =
    | SenderReport(ssrc: u32, ntp: u64, rtpTimestamp: u32, packetCount: u32, octetCount: u32, blocks: seq<ReportBlock>)
    | ReceiverReport(ssrc: u32, blocks: seq<ReportBlock>)
    | Bye(ssrcs: seq<u32>, reason: Option<seq<u8>>)

  function U32At(d: seq<u8>, i: nat): u32
    requires i + 4 <= |d|
  {
    FromBe32(d[i], d[i + 1], d[i + 2], d[i + 3])
  }

  /** A signed 24-bit field. */
  function Signed24(a: u8, b: u8, c: u8): int {
    var x := a * TWO16 + b * 0x100 + c;
    if a >= 0x80 then x - TWO24 else x
  }

  function BlockAt(d: seq<u8>, i: nat): ReportBlock
    requires i + 24 <= |d|
  {
    ReportBlock(U32At(d, i), d[i + 4], Signed24(d[i + 5], d[i + 6], d[i + 7]),
                U32At(d, i + 8), U32At(d, i + 12), U32At(d, i + 16), U32At(d, i + 20))
  }

  // ---- framing, shared by validator and parser ----

  function PacketSize(d: seq<u8>): (n: nat)
    requires |d| >= 4
    ensures n >= 4
  {
    (FromBe16(d[2], d[3]) + 1) * 4
  }

  predicate Padded(d: seq<u8>)
    requires |d| >= 4
  {
    d[0] / 32 % 2 != 0
  }

  function Count(d: seq<u8>): nat
    requires |d| >= 4
  {
    d[0] % 32
  }

  // ---- what a valid datagram is ----

  /** The end of one SDES item list that starts at `offset`: past its zero byte, rounded up to a word. */
  function ItemsEnd(d: seq<u8>, offset: nat): Option<nat>
    decreases |d| - offset
  {
    if offset >= |d| then None
    else if d[offset] == 0 then Some((offset + 4) / 4 * 4)
    else if offset + 2 > |d| then None
    else
      var next := offset + 2 + d[offset + 1];
      if next > |d| then None else ItemsEnd(d, next)
  }

  /** The end of `count` SDES chunks. */
  function ChunksEnd(d: seq<u8>, offset: nat, count: nat): Option<nat>
    decreases count
  {
    if count == 0 then Some(offset)
    else if offset + 4 > |d| then None
    else match ItemsEnd(d, offset + 4)
      case None => None
      case Some(next) => ChunksEnd(d, next, count - 1)
  }

  /** The fields that the packet type declares fit its content, padding removed. */
  predicate BodyOk(kind: u8, count: nat, content: seq<u8>) {
    if kind == SR then |content| >= 28 + count * 24
    else if kind == RR then |content| >= 8 + count * 24
    else if kind == BYE then
      var end := 4 + count * 4;
      count > 0 && |content| >= end && (|content| > end ==> end + 1 + content[end] <= |content|)
    else if kind == SDES then ChunksEnd(content, 4, count) == Some(|content|)
    else if 204 <= kind <= 206 then |content| >= 12
    else if kind == 207 then |content| >= 8
    else true
  }

  predicate PaddingOk(d: seq<u8>)
    requires |d| >= 4 && PacketSize(d) <= |d|
  {
    Padded(d) ==> PacketSize(d) == |d| && 0 < d[PacketSize(d) - 1] <= PacketSize(d) - 4
  }

  function StrictContent(d: seq<u8>): seq<u8>
    requires |d| >= 4 && PacketSize(d) <= |d| && PaddingOk(d)
  {
    d[..if Padded(d) then PacketSize(d) - d[PacketSize(d) - 1] else PacketSize(d)]
  }

  /** The first packet of `d` is well formed. */
  predicate FirstOk(d: seq<u8>) {
    && |d| >= 4 && d[0] / 64 == 2 && 192 <= d[1] <= 223
    && PacketSize(d) <= |d| && PaddingOk(d)
    && BodyOk(d[1], Count(d), StrictContent(d))
  }

  predicate AllOk(d: seq<u8>)
    decreases |d|
  {
    d == [] || (FirstOk(d) && AllOk(d[PacketSize(d)..]))
  }

  predicate Valid(d: seq<u8>) {
    d != [] && AllOk(d)
  }

  /** `valid_compound`. */
  method ValidCompound(datagram: seq<u8>) returns (ok: bool)
    ensures ok <==> Valid(datagram)
  {
    if datagram == [] { return false; }
    var data := datagram;
    while data != []
      invariant AllOk(datagram) <==> AllOk(data)
      decreases |data|
    {
      if |data| < 4 || data[0] / 64 != 2 || !(192 <= data[1] <= 223) { return false; }
      var size := PacketSize(data);
      if size > |data| { return false; }
      var content := data[..size];
      if Padded(data) {
        var padding := data[size - 1];
        if size != |data| || padding == 0 || padding > size - 4 { return false; }
        content := content[..size - padding];
      }
      assert content == StrictContent(data);
      var count := Count(data);
      if data[1] == SDES {
        var sdes := ValidSdes(content, count);
        if !sdes { return false; }
      } else if !BodyOk(data[1], count, content) { return false; }
      data := data[size..];
    }
    ok := true;
  }

  /** The SDES arm of `valid_compound`. */
  method ValidSdes(content: seq<u8>, count: nat) returns (ok: bool)
    ensures ok <==> ChunksEnd(content, 4, count) == Some(|content|)
  {
    var offset: nat := 4;
    for i := 0 to count
      invariant ChunksEnd(content, 4, count) == ChunksEnd(content, offset, count - i)
    {
      if offset + 4 > |content| { return false; }
      offset := offset + 4;
      ghost var items := ItemsEnd(content, offset);
      while offset < |content| && content[offset] != 0
        invariant ItemsEnd(content, offset) == items
        decreases |content| - offset
      {
        if offset + 2 > |content| { return false; }
        offset := offset + 2 + content[offset + 1];
        if offset > |content| { return false; }
      }
      if offset >= |content| { return false; }
      offset := (offset + 4) / 4 * 4;
    }
    ok := offset == |content|;
  }

  // ---- the tolerant parser ----

  /** `parse_report_blocks`: as many of the declared blocks as there is data for. */
  function TolerantBlocks(d: seq<u8>, count: nat): seq<ReportBlock>
    decreases count
  {
    if count == 0 || |d| < 24 then [] else [BlockAt(d, 0)] + TolerantBlocks(d[24..], count - 1)
  }

  function TolerantSsrcs(d: seq<u8>, count: nat): (r: seq<u32>)
    ensures 4 * |r| <= |d|
    decreases count
  {
    if count == 0 || |d| < 4 then [] else [U32At(d, 0)] + TolerantSsrcs(d[4..], count - 1)
  }

  function TolerantContent(packet: seq<u8>): seq<u8>
    requires |packet| >= 4
  {
    var pad := packet[|packet| - 1];
    if Padded(packet) && 0 < pad <= |packet| then packet[..|packet| - pad] else packet
  }

  function TolerantReason(rest: seq<u8>): Option<seq<u8>> {
    if rest == [] then None
    else
      var len := rest[0];
      if len > 0 && 1 + len <= |rest| then Some(rest[1..1 + len]) else None
  }

  /** What one packet contributes: a report, a BYE, or nothing. */
  function TolerantDecode(kind: u8, count: nat, content: seq<u8>): seq<RtcpPacket> {
    if kind == SR && |content| >= 28 then
      [SenderReport(U32At(content, 4), U32At(content, 8) * TWO32 + U32At(content, 12), U32At(content, 16),
                    U32At(content, 20), U32At(content, 24), TolerantBlocks(content[28..], count))]
    else if kind == RR && |content| >= 8 then
      [ReceiverReport(U32At(content, 4), TolerantBlocks(content[8..], count))]
    else if kind == BYE then
      var body := if |content| < 4 then [] else content[4..];
      var ssrcs := TolerantSsrcs(body, count);
      [Bye(ssrcs, TolerantReason(body[4 * |ssrcs|..]))]
    else []
  }

  /** `parse_rtcp`: the packets found, and the bytes it did not consume. */
  function TolerantParse(d: seq<u8>): (seq<RtcpPacket>, seq<u8>)
    decreases |d|
  {
    if |d| < 4 || d[0] / 64 != 2 || PacketSize(d) > |d| then ([], d)
    else
      var (later, rest) := TolerantParse(d[PacketSize(d)..]);
      (TolerantDecode(d[1], Count(d), TolerantContent(d[..PacketSize(d)])) + later, rest)
  }

  /** The loop of `parse_rtcp`. */
  method ParseRtcp(data: seq<u8>) returns (packets: seq<RtcpPacket>)
    ensures packets == TolerantParse(data).0
  {
    hide TolerantDecode, TolerantContent, TolerantParse, PacketSize, Count;
    packets := [];
    var offset := 0;
    assert data[0..] == data;
    while offset + 4 <= |data|
      invariant offset <= |data|
      invariant packets + TolerantParse(data[offset..]).0 == TolerantParse(data).0
    {
      var rest := data[offset..];
      TolerantStep(rest);
      if rest[0] / 64 != 2 { break; }
      var size := PacketSize(rest);
      if offset + size > |data| { break; }
      var found := Decode(rest[1], Count(rest), TolerantContent(data[offset..offset + size]));
      assert rest[..size] == data[offset..offset + size] && rest[size..] == data[offset + size..];
      packets := packets + found;
      offset := offset + size;
    }
    if offset + 4 > |data| { TolerantStep(data[offset..]); }
  }

  /** One turn of the parser: stop, or take the packet in front. */
  lemma {:induction false} TolerantStep(d: seq<u8>)
    ensures |d| < 4 || d[0] / 64 != 2 || PacketSize(d) > |d| ==> TolerantParse(d).0 == []
    ensures |d| >= 4 && d[0] / 64 == 2 && PacketSize(d) <= |d| ==>
              TolerantParse(d).0
              == TolerantDecode(d[1], Count(d), TolerantContent(d[..PacketSize(d)])) + TolerantParse(d[PacketSize(d)..]).0
  {
    hide TolerantDecode, TolerantContent;
  }

  method Decode(kind: u8, count: nat, content: seq<u8>) returns (found: seq<RtcpPacket>)
    ensures found == TolerantDecode(kind, count, content)
  {
    if kind == SR && |content| >= 28 {
      var blocks := ParseReportBlocks(content[28..], count);
      found := [SenderReport(U32At(content, 4), U32At(content, 8) * TWO32 + U32At(content, 12), U32At(content, 16),
                             U32At(content, 20), U32At(content, 24), blocks)];
    } else if kind == RR && |content| >= 8 {
      var blocks := ParseReportBlocks(content[8..], count);
      found := [ReceiverReport(U32At(content, 4), blocks)];
    } else if kind == BYE {
      var bye := ParseBye(content, count);
      found := [bye];
    } else {
      found := [];
    }
  }

  /** The BYE arm: SSRCs while there is data, then an optional length-prefixed reason. */
  method ParseBye(content: seq<u8>, count: nat) returns (bye: RtcpPacket)
    ensures [bye] == TolerantDecode(BYE, count, content)
  {
    hide TolerantSsrcs;
    var body := if |content| < 4 then [] else content[4..];
    var ssrcs := ParseSsrcs(body, count);
    var off := 4 * |ssrcs|;
    var reason: Option<seq<u8>> := None;
    ghost var rest := body[off..];
    if off < |body| {
      var len := body[off];
      off := off + 1;
      if len > 0 && off + len <= |body| {
        reason := Some(body[off..off + len]);
        assert rest[1..1 + len] == body[off..off + len];
      }
    }
    bye := Bye(ssrcs, reason);
  }

  method ParseSsrcs(body: seq<u8>, count: nat) returns (ssrcs: seq<u32>)
    ensures ssrcs == TolerantSsrcs(body, count)
  {
    ssrcs := [];
    var off := 0;
    assert body[0..] == body;
    for i := 0 to count
      invariant off == 4 * |ssrcs| <= |body|
      invariant ssrcs + TolerantSsrcs(body[off..], count - i) == TolerantSsrcs(body, count)
    {
      if off + 4 > |body| { break; }
      var rest := body[off..];
      assert U32At(body, off) == U32At(rest, 0) && rest[4..] == body[off + 4..];
      ssrcs := ssrcs + [U32At(body, off)];
      off := off + 4;
    }
  }

  method ParseReportBlocks(data: seq<u8>, count: nat) returns (blocks: seq<ReportBlock>)
    ensures blocks == TolerantBlocks(data, count)
  {
    blocks := [];
    var off := 0;
    assert data[0..] == data;
    for i := 0 to count
      invariant off <= |data|
      invariant blocks + TolerantBlocks(data[off..], count - i) == TolerantBlocks(data, count)
    {
      if off + 24 > |data| { break; }
      var rest := data[off..];
      assert BlockAt(data, off) == BlockAt(rest, 0) && rest[24..] == data[off + 24..];
      blocks := blocks + [BlockAt(data, off)];
      off := off + 24;
    }
  }

  // ---- agreement on valid input ----

  /** Exactly the declared number of report blocks. */
  function DeclaredBlocks(content: seq<u8>, base: nat, count: nat): seq<ReportBlock>
    requires base + count * 24 <= |content|
  {
    seq(count, i requires 0 <= i < count => BlockAt(content, base + 24 * i))
  }

  function DeclaredSsrcs(content: seq<u8>, count: nat): seq<u32>
    requires 4 + count * 4 <= |content|
  {
    seq(count, i requires 0 <= i < count => U32At(content, 4 + 4 * i))
  }

  /** One well-formed packet, read by its declared counts with no tolerance at all. */
  function StrictDecode(kind: u8, count: nat, content: seq<u8>): seq<RtcpPacket>
    requires BodyOk(kind, count, content)
  {
    if kind == SR then
      [SenderReport(U32At(content, 4), U32At(content, 8) * TWO32 + U32At(content, 12), U32At(content, 16),
                    U32At(content, 20), U32At(content, 24), DeclaredBlocks(content, 28, count))]
    else if kind == RR then
      [ReceiverReport(U32At(content, 4), DeclaredBlocks(content, 8, count))]
    else if kind == BYE then
      var end := 4 + count * 4;
      [Bye(DeclaredSsrcs(content, count),
           if |content| > end && content[end] > 0 then Some(content[end + 1..end + 1 + content[end]]) else None)]
    else []
  }

  /** One entry per SR, RR or BYE, in datagram order. */
  function StrictParse(d: seq<u8>): seq<RtcpPacket>
    requires AllOk(d)
    decreases |d|
  {
    if d == [] then []
    else StrictDecode(d[1], Count(d), StrictContent(d)) + StrictParse(d[PacketSize(d)..])
  }

  lemma {:induction false} BlockInSlice(content: seq<u8>, base: nat)
    requires base + 24 <= |content|
    ensures BlockAt(content[base..], 0) == BlockAt(content, base) && content[base..][24..] == content[base + 24..]
  {
  }

  lemma {:induction false} DeclaredBlocksStep(content: seq<u8>, base: nat, count: nat)
    requires count > 0 && base + count * 24 <= |content|
    ensures DeclaredBlocks(content, base, count) == [BlockAt(content, base)] + DeclaredBlocks(content, base + 24, count - 1)
  {
    hide BlockAt;
  }

  lemma {:induction false} BlocksAgree(content: seq<u8>, base: nat, count: nat)
    requires base + count * 24 <= |content|
    ensures TolerantBlocks(content[base..], count) == DeclaredBlocks(content, base, count)
    decreases count
  {
    if count > 0 {
      hide BlockAt;
      BlockInSlice(content, base);
      DeclaredBlocksStep(content, base, count);
      BlocksAgree(content, base + 24, count - 1);
    }
  }

  lemma {:induction false} SsrcsAgree(d: seq<u8>, count: nat, k: nat)
    requires count * 4 <= |d|
    ensures |TolerantSsrcs(d, count)| == count
    ensures k < count ==> TolerantSsrcs(d, count)[k] == U32At(d, 4 * k)
    decreases count
  {
    if count > 0 { SsrcsAgree(d[4..], count - 1, if k == 0 then 0 else k - 1); }
  }

  lemma {:induction false} DecodersAgree(kind: u8, count: nat, content: seq<u8>)
    requires |content| >= 4 && BodyOk(kind, count, content)
    ensures TolerantDecode(kind, count, content) == StrictDecode(kind, count, content)
  {
    if kind == SR {
      BlocksAgree(content, 28, count);
    } else if kind == RR {
      BlocksAgree(content, 8, count);
    } else if kind == BYE {
      var body, end := content[4..], 4 + count * 4;
      hide FromBe32;
      SsrcsAgree(body, count, 0);
      forall k | 0 <= k < count ensures TolerantSsrcs(body, count)[k] == DeclaredSsrcs(content, count)[k] {
        SsrcsAgree(body, count, k);
      }
      assert TolerantSsrcs(body, count) == DeclaredSsrcs(content, count);
      assert body[4 * count..] == content[end..];
      if |content| > end { assert content[end..][1..1 + content[end]] == content[end + 1..end + 1 + content[end]]; }
    }
  }

  /** Every datagram the validator accepts is consumed to its last byte by the tolerant parser, which
      yields exactly the strict reading. */
  lemma {:induction false} ValidIsParsedWhole(d: seq<u8>)
    requires AllOk(d)
    ensures TolerantParse(d) == (StrictParse(d), [])
    decreases |d|
  {
    if d != [] {
      var packet := d[..PacketSize(d)];
      assert TolerantContent(packet) == StrictContent(d);
      DecodersAgree(d[1], Count(d), StrictContent(d));
      ValidIsParsedWhole(d[PacketSize(d)..]);
    }
  }

  // ---- the builder ----

  datatype Report = Report(
    ssrc: u32, ntp: u64, rtpTimestamp: u32, packetCount: u32, octetCount: u32,
    remoteSsrc: u32, fractionLost: u8, lost: u32, highestSeq: u32, jitter: u32, lastSr: u32, delaySinceLastSr: u32)

  function SenderInfo(r: Report): (d: seq<u8>)
    ensures |d| == 28
  {
    [0x81, SR] + ToBe16(12) + ToBe32(r.ssrc) + ToBe64(r.ntp) + ToBe32(r.rtpTimestamp)
    + ToBe32(r.packetCount) + ToBe32(r.octetCount)
  }

  /** The loss is cut to 24 bits. */
  function BlockBytes(r: Report): (d: seq<u8>)
    ensures |d| == 24
  {
    var lost := r.lost % TWO24;
    ToBe32(r.remoteSsrc) + [r.fractionLost, lost / TWO16, lost / 0x100 % 0x100, lost % 0x100]
    + ToBe32(r.highestSeq) + ToBe32(r.jitter) + ToBe32(r.lastSr) + ToBe32(r.delaySinceLastSr)
  }

  /** The bytes `build_sr_rr` pushes: one SR with one report block. */
  function BuildSrRr(r: Report): seq<u8> {
    SenderInfo(r) + BlockBytes(r)
  }

  /** How the receiver of the report reads a loss counter. */
  function LossOnWire(lost: u32): int {
    var x := lost % TWO24;
    if x >= TWO24 / 2 then x - TWO24 else x
  }

  lemma {:induction false} SenderInfoFields(r: Report)
    ensures var d := SenderInfo(r);
            && d[0] == 0x81 && d[1] == SR && PacketSize(d) == 52
            && U32At(d, 4) == r.ssrc && U32At(d, 8) * TWO32 + U32At(d, 12) == r.ntp && U32At(d, 16) == r.rtpTimestamp
            && U32At(d, 20) == r.packetCount && U32At(d, 24) == r.octetCount
  {
    hide FromBe32, ToBe32, ToBe64;
    var d := SenderInfo(r);
    assert d[2..4] == ToBe16(12) && d[4..8] == ToBe32(r.ssrc) && d[8..16] == ToBe64(r.ntp);
    assert d[16..20] == ToBe32(r.rtpTimestamp) && d[20..24] == ToBe32(r.packetCount) && d[24..28] == ToBe32(r.octetCount);
    SliceIsField(d, 4, r.ssrc); SliceIsField(d, 16, r.rtpTimestamp);
    SliceIsField(d, 20, r.packetCount); SliceIsField(d, 24, r.octetCount);
    assert forall i :: 0 <= i < 8 ==> d[8 + i] == d[8..16][i];
  }

  lemma {:induction false} BlockFields(r: Report)
    ensures BlockAt(BlockBytes(r), 0)
         == ReportBlock(r.remoteSsrc, r.fractionLost, LossOnWire(r.lost), r.highestSeq, r.jitter, r.lastSr, r.delaySinceLastSr)
  {
    hide FromBe32, ToBe32;
    var d := BlockBytes(r);
    assert d[0..4] == ToBe32(r.remoteSsrc) && d[8..12] == ToBe32(r.highestSeq) && d[12..16] == ToBe32(r.jitter);
    assert d[16..20] == ToBe32(r.lastSr) && d[20..24] == ToBe32(r.delaySinceLastSr);
    SliceIsField(d, 0, r.remoteSsrc); SliceIsField(d, 8, r.highestSeq); SliceIsField(d, 12, r.jitter);
    SliceIsField(d, 16, r.lastSr); SliceIsField(d, 20, r.delaySinceLastSr);
  }

  /** Whatever is built is valid and parses back to its fields. */
  lemma {:induction false} BuiltReportParses(r: Report)
    ensures Valid(BuildSrRr(r))
    ensures TolerantParse(BuildSrRr(r)).0 ==
      [SenderReport(r.ssrc, r.ntp, r.rtpTimestamp, r.packetCount, r.octetCount,
                    [ReportBlock(r.remoteSsrc, r.fractionLost, LossOnWire(r.lost), r.highestSeq, r.jitter, r.lastSr, r.delaySinceLastSr)])]
  {
    hide SenderInfo, BlockBytes, FromBe32, FromBe16, LossOnWire;
    SenderInfoFields(r);
    BlockFields(r);
    var d := BuildSrRr(r);
    assert d[28..] == BlockBytes(r) && BlockAt(d, 28) == BlockAt(BlockBytes(r), 0);
    assert StrictContent(d) == d && d[52..] == [];
    assert DeclaredBlocks(d, 28, 1) == [BlockAt(d, 28)];
    ValidIsParsedWhole(d);
  }

  lemma {:induction false} SliceIsField(d: seq<u8>, i: nat, x: u32)
    requires i + 4 <= |d| && d[i..i + 4] == ToBe32(x)
    ensures U32At(d, i) == x
  {
    assert d[i] == d[i..i + 4][0] && d[i + 1] == d[i..i + 4][1] && d[i + 2] == d[i..i + 4][2] && d[i + 3] == d[i..i + 4][3];
  }

  /** The loss counter survives the 24-bit field exactly when it is below 2^23. */
  lemma {:induction false} LossSurvivesExactly(lost: u32)
    ensures LossOnWire(lost) == lost <==> lost < TWO24 / 2
  {
  }
}
