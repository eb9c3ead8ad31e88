/** RTP headers (RFC 3550 section 5.1): `src/media/rtp.rs` and `rtp_header_len` of `src/media/srtp.rs`. */
module Rtp {
  import opened Words

  datatype RtpHeader = RtpHeader(
    version: u8,
    padding: bool,
    extension: bool,
    csrcCount: u8,
    marker: bool,
    payloadType: u8,
    sequenceNumber: u16,
    timestamp: u32,
    ssrc: u32,
    headerLen: nat)

  function Sequence(p: seq<u8>): u16
    requires |p| >= 12
  {
    FromBe16(p[2], p[3])
  }

  function Ssrc(p: seq<u8>): u32
    requires |p| >= 12
  {
    FromBe32(p[8], p[9], p[10], p[11])
  }

  /** `RtpHeader::parse`. */
  function Parse(d: seq<u8>): Option<RtpHeader> {
    if |d| < 12 then None
    else if d[0] / 64 != 2 then None
    else
      var extension := d[0] / 16 % 2 != 0;
      var fixed := 12 + d[0] % 16 * 4;
      if extension && |d| < fixed + 4 then None
      else
        var headerLen := if extension then fixed + 4 + FromBe16(d[fixed + 2], d[fixed + 3]) * 4 else fixed;
        if |d| < headerLen then None
        else Some(RtpHeader(
                    d[0] / 64, d[0] / 32 % 2 != 0, extension, d[0] % 16,
                    d[1] / 128 != 0, d[1] % 128, Sequence(d),
                    FromBe32(d[4], d[5], d[6], d[7]), Ssrc(d), headerLen))
  }

  /** `RtpHeader::payload`: what follows the header, without the declared padding. */
  function Payload(h: RtpHeader, d: seq<u8>): seq<u8>
    requires Parse(d) == Some(h)
  {
    var payload := d[h.headerLen..];
    if h.padding && payload != [] then
      var pad := payload[|payload| - 1];
      if 0 < pad <= |payload| then payload[..|payload| - pad] else payload
    else payload
  }

  /** `RtpHeader::build`. */
  function Build(payloadType: u8, sequence: u16, timestamp: u32, ssrc: u32, marker: bool, payload: seq<u8>): seq<u8> {
    [0x80, (if marker then 0x80 else 0) + payloadType % 128]
    + ToBe16(sequence) + ToBe32(timestamp) + ToBe32(ssrc) + payload
  }

  /** `rtp_header_len`: fixed header, CSRC list and header extension. */
  function HeaderLen(p: seq<u8>): (r: Option<nat>)
    ensures r.Some? ==> 12 <= r.value <= |p|
  {
    if |p| < 12 then None
    else
      var len := 12 + p[0] % 16 * 4;
      if |p| < len then None
      else if p[0] / 16 % 2 != 0 then
        if |p| < len + 4 then None
        else
          var extended := FromBe16(p[len + 2], p[len + 3]) * 4 + 4 + len;
          if |p| < extended then None else Some(extended)
      else Some(len)
  }

  /** The SRTP header scan and the RTP parser delimit the same header on every version-2 packet. */
  lemma {:induction false} HeaderLenAgreesWithParse(d: seq<u8>)
    ensures Parse(d).Some? <==> HeaderLen(d).Some? && d[0] / 64 == 2
    ensures Parse(d).Some? ==> HeaderLen(d) == Some(Parse(d).value.headerLen)
  {
  }

  /** The header scan depends only on the bytes of the header it delimits: a payload
      replaced by other bytes (ciphertext, or a longer tail) moves nothing. */
  lemma {:induction false} HeaderLenReadsOnlyHeader(p: seq<u8>, q: seq<u8>)
    requires HeaderLen(p).Some? && HeaderLen(p).value <= |q|
    requires q[..HeaderLen(p).value] == p[..HeaderLen(p).value]
    ensures HeaderLen(q) == HeaderLen(p)
    ensures Sequence(q) == Sequence(p) && Ssrc(q) == Ssrc(p)
  {
    hide FromBe16, FromBe32;
    var n := HeaderLen(p).value;
    var len := 12 + p[0] % 16 * 4;
    assert forall i :: 0 <= i < n ==> q[..n][i] == q[i] && p[..n][i] == p[i];
    assert q[0] == p[0] && q[2] == p[2] && q[3] == p[3];
    assert q[8] == p[8] && q[9] == p[9] && q[10] == p[10] && q[11] == p[11];
    if p[0] / 16 % 2 != 0 { assert q[len + 2] == p[len + 2] && q[len + 3] == p[len + 3]; }
  }

  /** A built packet parses back to its fields, and its payload is returned whole. */
  lemma {:induction false} BuildParses(payloadType: u8, sequence: u16, timestamp: u32, ssrc: u32, marker: bool,
                        payload: seq<u8>)
    ensures var d := Build(payloadType, sequence, timestamp, ssrc, marker, payload);
            && Parse(d) == Some(RtpHeader(2, false, false, 0, marker, payloadType % 128, sequence, timestamp, ssrc, 12))
            && Payload(Parse(d).value, d) == payload
  {
    hide FromBe16, FromBe32, ToBe16, ToBe32;
    var d := Build(payloadType, sequence, timestamp, ssrc, marker, payload);
    assert d[2..4] == ToBe16(sequence) && d[4..8] == ToBe32(timestamp) && d[8..12] == ToBe32(ssrc);
    assert d[2] == d[2..4][0] && d[3] == d[2..4][1];
    assert d[4] == d[4..8][0] && d[5] == d[4..8][1] && d[6] == d[4..8][2] && d[7] == d[4..8][3];
    assert d[8] == d[8..12][0] && d[9] == d[8..12][1] && d[10] == d[8..12][2] && d[11] == d[8..12][3];
    assert d[12..] == payload;
  }
}
