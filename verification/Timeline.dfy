/** Rendering a recorded channel, from `src/bin/pcap2audio.rs`: decoded packets are laid on one
    timeline, with silence between them. */
module Timeline {
  import opened Arithmetic
  import opened Words
  import opened Epochs

  const MAX_DURATION_SECS := 3600
  const SECOND := 1_000_000_000

  /** What decoding and resampling make of a packet; `NoDecoder` if none can be made for its codec. */
  datatype Decoded = NoDecoder | Undecodable | TooLong | Pcm(samples: seq<int>)

  /** `decode(h)` is the outcome for the last packet of `h`, the packets before it in its epoch
      having been through the same decoder and resampler. */
  datatype Render = Render(decode: seq<RtpPacket> -> Decoded, origin: nat, rate: pos, budget: nat) {
    function Maximum(): nat {
      Min(rate * MAX_DURATION_SECS, budget)
    }
  }

  /** The nearest sample to a capture time; nothing is before the origin. */
  function Position(c: Render, capture: nat): nat {
    (2 * Max(capture - c.origin, 0) * c.rate + SECOND) / (2 * SECOND)
  }

  function ClockRate(codec: Codec): pos {
    match codec
    case Pcmu => 8000
    case G722 => 8000
    case Opus => 48000
    case L16(rate) => rate
  }

  /** RTP time since the first packet of the epoch. */
  function Ticks(p: RtpPacket, firstTimestamp: u32): nat {
    (p.timestamp - firstTimestamp) % TWO32
  }

  /** RTP ticks as samples, rounded down. */
  function Scaled(ticks: nat, rate: pos, clock: pos): nat {
    ticks * rate / clock
  }

  /** Where a packet belongs: by RTP time from the epoch's anchor, unless that is missing or more
      than two seconds away from capture time. */
  function Target(c: Render, p: RtpPacket, firstTimestamp: u32, anchor: nat): nat {
    var ticks := Ticks(p, firstTimestamp);
    var byCapture := Position(c, p.capture);
    var byRtp :=
      if ticks != 0 && ticks <= TWO31 then Scaled(ticks, c.rate, ClockRate(p.codec)) + Position(c, anchor) else byCapture;
    if byRtp - byCapture > c.rate * 2 || byCapture - byRtp > c.rate * 2 then byCapture else byRtp
  }

  function Earliest(e: seq<RtpPacket>): nat
    requires e != []
  {
    if |e| == 1 then e[0].capture else Min(Earliest(e[..|e| - 1]), e[|e| - 1].capture)
  }

  // ---- the timeline as a fold ----

  datatype Placement = Placement(packet: RtpPacket, target: nat, start: nat, pcm: seq<int>) {
    function End(): nat {
      start + |pcm|
    }
  }

  datatype Track = Track(samples: seq<int>, placed: seq<Placement>)

  function Zeros(n: nat): seq<int> {
    seq(n, i => 0)
  }

  /** The packet `e[k]` of an epoch in decoding order. */
  function PlaceOne(c: Render, t: Track, e: seq<RtpPacket>, k: nat): Result<Track, string>
    requires k < |e|
  {
    match c.decode(e[..k + 1])
    case NoDecoder => Err("decoder")
    case Undecodable => Ok(t)
    case TooLong => Err("decoded packet exceeds 120 ms")
    case Pcm(out) =>
      var target := Target(c, e[k], e[0].timestamp, Earliest(e));
      var start := Max(target, |t.samples|);
      if start + |out| > c.Maximum() then Err("capture duration exceeds one hour")
      else
        Ok(Track(t.samples + Zeros(start - |t.samples|) + out, t.placed + [Placement(e[k], target, start, out)]))
  }

  function PlaceEpoch(c: Render, t: Track, e: seq<RtpPacket>, k: nat): Result<Track, string>
    requires k <= |e|
    decreases |e| - k
  {
    if k == |e| then Ok(t)
    else
      match PlaceOne(c, t, e, k)
      case Err(m) => Err(m)
      case Ok(u) => PlaceEpoch(c, u, e, k + 1)
  }

  function PlaceEpochs(c: Render, t: Track, epochs: seq<seq<RtpPacket>>): Result<Track, string>
    decreases |epochs|
  {
    if epochs == [] then Ok(t)
    else
      match PlaceEpoch(c, t, Reordered(epochs[0]), 0)
      case Err(m) => Err(m)
      case Ok(u) => PlaceEpochs(c, u, epochs[1..])
  }

  function Lead(c: Render, first: Option<nat>): nat {
    Position(c, if first.None? then c.origin else first.value)
  }

  function Channel(c: Render, packets: seq<RtpPacket>, first: Option<nat>): Result<Track, string> {
    if Lead(c, first) > c.Maximum() then Err("capture duration exceeds one hour")
    else PlaceEpochs(c, Track(Zeros(Lead(c, first)), []), EpochsOf(packets))
  }

  // ---- bytes ----

  function Le(v: int): seq<u8> {
    [v % 256, (v / 256) % 256]
  }

  function LeBytes(samples: seq<int>): (b: seq<u8>)
    ensures |b| == 2 * |samples|
  {
    if samples == [] then [] else LeBytes(samples[..|samples| - 1]) + Le(samples[|samples| - 1])
  }

  lemma {:induction false} LeBytesAppend(a: seq<int>, b: seq<int>)
    ensures LeBytes(a + b) == LeBytes(a) + LeBytes(b)
  {
    if b == [] {
      assert a + b == a;
    } else {
      hide Le;
      var rest, last := b[..|b| - 1], b[|b| - 1];
      LeBytesAppend(a, rest);
      assert (a + b)[..|a + b| - 1] == a + rest;
      assert (LeBytes(a) + LeBytes(rest)) + Le(last) == LeBytes(a) + (LeBytes(rest) + Le(last));
    }
  }

  lemma {:induction false} SilenceIsZeroBytes(n: nat)
    ensures LeBytes(Zeros(n)) == Zeros(2 * n)
  {
    if n > 0 {
      SilenceIsZeroBytes(n - 1);
      assert Zeros(n)[..n - 1] == Zeros(n - 1);
    }
  }

  /** Silence goes out in blocks of at most 8192 bytes. */
  method WriteSilence(written: seq<u8>, samples: nat) returns (out: seq<u8>)
    ensures out == written + LeBytes(Zeros(samples))
  {
    out := written;
    var bytes := samples * 2;
    while bytes > 0
      invariant 0 <= bytes <= samples * 2
      invariant out == written + Zeros(samples * 2 - bytes)
    {
      var count := Min(bytes, 8192);
      out := out + Zeros(count);
      bytes := bytes - count;
    }
    SilenceIsZeroBytes(samples);
  }

  // ---- the renderer ----

  method WriteSamples(written: seq<u8>, samples: seq<int>) returns (out: seq<u8>)
    ensures out == written + LeBytes(samples)
  {
    out := written;
    for i := 0 to |samples|
      invariant out == written + LeBytes(samples[..i])
    {
      assert samples[..i + 1][..i] == samples[..i];
      out := out + Le(samples[i]);
    }
    assert samples[..|samples|] == samples;
  }

  method RenderPacket(c: Render, bytes: seq<u8>, written: nat, e: seq<RtpPacket>, k: nat, ghost t: Track)
      returns (failed: bool, out: seq<u8>, end: nat)
    requires k < |e| && bytes == LeBytes(t.samples) && written == |t.samples|
    ensures failed <==> PlaceOne(c, t, e, k).Err?
    ensures !failed ==>
              var u := PlaceOne(c, t, e, k).value; out == LeBytes(u.samples) && end == |u.samples|
  {
    hide Target, Earliest, LeBytes;
    failed, out, end := false, bytes, written;
    match c.decode(e[..k + 1]) {
      case NoDecoder =>
        failed := true;
      case Undecodable =>
        return;
      case TooLong =>
        failed := true;
      case Pcm(pcm) =>
        var target := Target(c, e[k], e[0].timestamp, Earliest(e));
        var start := Max(target, written);
        if start + |pcm| > c.Maximum() {
          failed := true;
          return;
        }
        end := start + |pcm|;
        out := WriteSilence(bytes, start - written);
        out := WriteSamples(out, pcm);
        LeBytesAppend(t.samples, Zeros(start - written));
        LeBytesAppend(t.samples + Zeros(start - written), pcm);
    }
  }

  method RenderEpoch(c: Render, bytes: seq<u8>, written: nat, e: seq<RtpPacket>, ghost t: Track)
      returns (failed: bool, out: seq<u8>, end: nat)
    requires bytes == LeBytes(t.samples) && written == |t.samples|
    ensures failed <==> PlaceEpoch(c, t, e, 0).Err?
    ensures !failed ==>
              var u := PlaceEpoch(c, t, e, 0).value; out == LeBytes(u.samples) && end == |u.samples|
  {
    hide PlaceOne, LeBytes;
    failed, out, end := false, bytes, written;
    ghost var u := t;
    for k := 0 to |e|
      invariant out == LeBytes(u.samples) && end == |u.samples| && !failed
      invariant PlaceEpoch(c, u, e, k) == PlaceEpoch(c, t, e, 0)
    {
      failed, out, end := RenderPacket(c, out, end, e, k, u);
      if failed {
        return;
      }
      u := PlaceOne(c, u, e, k).value;
    }
  }

  /** The epochs of a channel, one after another, onto one timeline of bytes. */
  method DecodeChannel(c: Render, packets: seq<RtpPacket>, first: Option<nat>)
      returns (r: Result<nat, string>, bytes: seq<u8>)
    ensures r.Ok? <==> Channel(c, packets, first).Ok?
    ensures r.Ok? ==> bytes == LeBytes(Channel(c, packets, first).value.samples) && |bytes| == 2 * r.value
  {
    hide PlaceEpoch, LeBytes, StableOrder, Extended, Highest, Continues;
    bytes := [];
    var lead := Lead(c, first);
    if lead > c.Maximum() {
      return Err("capture duration exceeds one hour"), bytes;
    }
    bytes := WriteSilence([], lead);
    assert bytes == LeBytes(Zeros(lead));
    var written := lead;
    ghost var t := Track(Zeros(lead), []);
    var start := 0;
    while start < |packets|
      invariant start <= |packets|
      invariant bytes == LeBytes(t.samples) && written == |t.samples|
      invariant PlaceEpochs(c, t, EpochsOf(packets[start..])) == Channel(c, packets, first)
    {
      var keys := EpochKeys(packets[start..]);
      var end := start + |keys|;
      KeysOfEpoch(packets[start..], keys);
      var epoch := packets[start..end];
      var order := StableOrder(keys, |keys|);
      var sorted := seq(|keys|, k requires 0 <= k < |keys| => epoch[order[k]]);
      assert packets[start..][..|keys|] == epoch && packets[start..][|keys|..] == packets[end..];
      assert sorted == Reordered(epoch);
      var failed;
      failed, bytes, written := RenderEpoch(c, bytes, written, sorted, t);
      if failed {
        return Err("packet"), bytes;
      }
      t := PlaceEpoch(c, t, sorted, 0).value;
      start := end;
    }
    r := Ok(written);
  }

  lemma {:induction false} KeysOfEpoch(p: seq<RtpPacket>, keys: seq<int>)
    requires p != [] && 0 < |keys| <= |p|
    requires forall i | 0 <= i < |keys| :: keys[i] == Extended(p, i) && Continues(p, i)
    requires |keys| < |p| ==> !Continues(p, |keys|)
    ensures |keys| == EpochLength(p, 0) && keys == Keys(p[..|keys|])
    ensures EpochsOf(p) == [p[..|keys|]] + EpochsOf(p[|keys|..])
  {
    forall i | 0 <= i < |keys| ensures keys[i] == Extended(p[..|keys|], i) { PrefixContinues(p, |keys|, i); }
  }

  // ---- what a rendered channel looks like ----

  ghost function PreviousEnd(lead: nat, placed: seq<Placement>, k: nat): nat
    requires k <= |placed|
  {
    if k == 0 then lead else placed[k - 1].End()
  }

  /** Placement `k` follows the one before it, at its target if that is free, and its target is
      within two seconds of its capture time. */
  ghost predicate WellPlaced(c: Render, lead: nat, placed: seq<Placement>, k: nat)
    requires k < |placed|
  {
    var at := Position(c, placed[k].packet.capture);
    && placed[k].start == Max(PreviousEnd(lead, placed, k), placed[k].target)
    && at - c.rate * 2 <= placed[k].target <= at + c.rate * 2
  }

  /** Sample `i` belongs to placement `k`. */
  ghost predicate Covers(placed: seq<Placement>, k: nat, i: nat)
    requires k < |placed|
  {
    placed[k].start <= i < placed[k].End()
  }

  /** The samples are those of the placements, each in its own interval, and zeros elsewhere. */
  ghost predicate Faithful(t: Track) {
    && (forall k, i | 0 <= k < |t.placed| && 0 <= i < |t.samples| && Covers(t.placed, k, i) ::
          t.samples[i] == t.placed[k].pcm[i - t.placed[k].start])
    && (forall i | 0 <= i < |t.samples| && (forall k | 0 <= k < |t.placed| :: !Covers(t.placed, k, i)) ::
          t.samples[i] == 0)
  }

  ghost predicate Rendered(c: Render, lead: nat, t: Track) {
    && |t.samples| == PreviousEnd(lead, t.placed, |t.placed|) <= c.Maximum()
    && (forall k | 0 <= k < |t.placed| :: WellPlaced(c, lead, t.placed, k))
    && Faithful(t)
  }

  /** Intervals are disjoint and in decoding order, and nothing is past the end. */
  lemma {:induction false} PlacementsAreDisjoint(c: Render, lead: nat, placed: seq<Placement>, k: nat, l: nat)
    requires k < l <= |placed| && forall j | 0 <= j < |placed| :: WellPlaced(c, lead, placed, j)
    ensures placed[k].End() <= PreviousEnd(lead, placed, l) && (l < |placed| ==> placed[k].End() <= placed[l].start)
  {
    hide Position;
    if k + 1 < l {
      PlacementsAreDisjoint(c, lead, placed, k, l - 1);
      assert WellPlaced(c, lead, placed, l - 1);
    }
    assert l < |placed| ==> WellPlaced(c, lead, placed, l);
  }

  lemma {:induction false} TargetIsNear(c: Render, p: RtpPacket, firstTimestamp: u32, anchor: nat)
    ensures Position(c, p.capture) - c.rate * 2 <= Target(c, p, firstTimestamp, anchor) <= Position(c, p.capture) + c.rate * 2
  {
    hide Position, Scaled;
  }

  /** RTP time places the packet: it has moved on, and stays within two seconds of capture time. */
  ghost predicate ByRtp(c: Render, p: RtpPacket, firstTimestamp: u32, anchor: nat) {
    var at := Scaled(Ticks(p, firstTimestamp), c.rate, ClockRate(p.codec)) + Position(c, anchor);
    && 0 < Ticks(p, firstTimestamp) <= TWO31
    && at - c.rate * 2 <= Position(c, p.capture) <= at + c.rate * 2
  }

  /** Packets as far apart in RTP time as `samples` are laid exactly that far apart, across a wrap of
      the timestamp: contiguous audio stays contiguous. */
  lemma {:induction false} RtpSpacingIsKept(c: Render, p: RtpPacket, q: RtpPacket, firstTimestamp: u32, anchor: nat,
                        samples: nat)
    requires ByRtp(c, p, firstTimestamp, anchor) && ByRtp(c, q, firstTimestamp, anchor) && p.codec == q.codec
    requires Ticks(p, firstTimestamp) <= Ticks(q, firstTimestamp)
    requires (Ticks(q, firstTimestamp) - Ticks(p, firstTimestamp)) * c.rate == samples * ClockRate(p.codec)
    ensures Target(c, q, firstTimestamp, anchor) == Target(c, p, firstTimestamp, anchor) + samples
  {
    hide Position, ClockRate;
    ScaledSpacing(Ticks(p, firstTimestamp), Ticks(q, firstTimestamp), c.rate, ClockRate(p.codec), samples);
  }

  lemma {:induction false} ScaledSpacing(a: nat, b: nat, rate: pos, clock: pos, samples: nat)
    requires a <= b && (b - a) * rate == samples * clock
    ensures Scaled(b, rate, clock) == Scaled(a, rate, clock) + samples
  {
    var q, r := a * rate / clock, a * rate % clock;
    assert b * rate == a * rate + (b - a) * rate && (q + samples) * clock == q * clock + samples * clock;
    QuotientIs(b * rate, clock, q + samples, r);
  }

  /** Adding a placement at the end leaves the others where they were. */
  lemma {:induction false} AddKeepsFaithful(c: Render, lead: nat, t: Track, p: Placement)
    requires Rendered(c, lead, t) && p.start >= |t.samples|
    ensures Faithful(Track(t.samples + Zeros(p.start - |t.samples|) + p.pcm, t.placed + [p]))
  {
    hide WellPlaced;
    var u := Track(t.samples + Zeros(p.start - |t.samples|) + p.pcm, t.placed + [p]);
    var n := |t.placed|;
    forall k | 0 <= k < n ensures t.placed[k].End() <= |t.samples| {
      PlacementsAreDisjoint(c, lead, t.placed, k, n);
    }
    forall k, i | 0 <= k < |u.placed| && 0 <= i < |u.samples| && Covers(u.placed, k, i)
      ensures u.samples[i] == u.placed[k].pcm[i - u.placed[k].start]
    {
      if k < n {
        assert Covers(t.placed, k, i);
      }
    }
    forall i | 0 <= i < |u.samples| && (forall k | 0 <= k < |u.placed| :: !Covers(u.placed, k, i))
      ensures u.samples[i] == 0
    {
      assert !Covers(u.placed, n, i);
      if i < |t.samples| {
        forall k | 0 <= k < n ensures !Covers(t.placed, k, i) { assert !Covers(u.placed, k, i); }
      }
    }
  }

  lemma {:induction false} PlaceOneKeeps(c: Render, lead: nat, t: Track, e: seq<RtpPacket>, k: nat)
    requires k < |e| && Rendered(c, lead, t) && PlaceOne(c, t, e, k).Ok?
    ensures Rendered(c, lead, PlaceOne(c, t, e, k).value)
  {
    hide Faithful, Target, Position, Earliest;
    match c.decode(e[..k + 1]) {
      case Pcm(out) =>
        var target := Target(c, e[k], e[0].timestamp, Earliest(e));
        TargetIsNear(c, e[k], e[0].timestamp, Earliest(e));
        var p := Placement(e[k], target, Max(target, |t.samples|), out);
        AddKeepsFaithful(c, lead, t, p);
        var placed := t.placed + [p];
        forall j | 0 <= j < |placed| ensures WellPlaced(c, lead, placed, j) {
          assert j < |t.placed| ==> WellPlaced(c, lead, t.placed, j);
        }
      case _ =>
    }
  }

  lemma {:induction false} PlaceEpochKeeps(c: Render, lead: nat, t: Track, e: seq<RtpPacket>, k: nat)
    requires k <= |e| && Rendered(c, lead, t) && PlaceEpoch(c, t, e, k).Ok?
    ensures Rendered(c, lead, PlaceEpoch(c, t, e, k).value)
    decreases |e| - k
  {
    hide Rendered, PlaceOne;
    if k < |e| {
      PlaceOneKeeps(c, lead, t, e, k);
      PlaceEpochKeeps(c, lead, PlaceOne(c, t, e, k).value, e, k + 1);
    }
  }

  lemma {:induction false} PlaceEpochsKeeps(c: Render, lead: nat, t: Track, epochs: seq<seq<RtpPacket>>)
    requires Rendered(c, lead, t) && PlaceEpochs(c, t, epochs).Ok?
    ensures Rendered(c, lead, PlaceEpochs(c, t, epochs).value)
    decreases |epochs|
  {
    hide Rendered, PlaceEpoch;
    if epochs != [] {
      var e := Reordered(epochs[0]);
      PlaceEpochKeeps(c, lead, t, e, 0);
      PlaceEpochsKeeps(c, lead, PlaceEpoch(c, t, e, 0).value, epochs[1..]);
    }
  }

  /** Every rendered channel: within the hour and the budget, packets in disjoint intervals where
      they belong, zeros in every gap. */
  lemma {:induction false} ChannelIsRendered(c: Render, packets: seq<RtpPacket>, first: Option<nat>)
    requires Channel(c, packets, first).Ok?
    ensures Rendered(c, Lead(c, first), Channel(c, packets, first).value)
  {
    hide PlaceEpoch, Position, Lead;
    PlaceEpochsKeeps(c, Lead(c, first), Track(Zeros(Lead(c, first)), []), EpochsOf(packets));
  }

  // ---- nothing decodable is left out ----

  function Decodable(c: Render, e: seq<RtpPacket>, k: nat): seq<RtpPacket>
    requires k <= |e|
    decreases |e| - k
  {
    if k == |e| then []
    else (if c.decode(e[..k + 1]).Pcm? then [e[k]] else []) + Decodable(c, e, k + 1)
  }

  function AllDecodable(c: Render, epochs: seq<seq<RtpPacket>>): seq<RtpPacket> {
    if epochs == [] then [] else Decodable(c, Reordered(epochs[0]), 0) + AllDecodable(c, epochs[1..])
  }

  function Packets(placed: seq<Placement>): seq<RtpPacket> {
    seq(|placed|, k requires 0 <= k < |placed| => placed[k].packet)
  }

  lemma {:induction false} PlaceEpochPlacesAll(c: Render, t: Track, e: seq<RtpPacket>, k: nat)
    requires k <= |e| && PlaceEpoch(c, t, e, k).Ok?
    ensures Packets(PlaceEpoch(c, t, e, k).value.placed) == Packets(t.placed) + Decodable(c, e, k)
    decreases |e| - k
  {
    hide Target, Earliest;
    if k < |e| { PlaceEpochPlacesAll(c, PlaceOne(c, t, e, k).value, e, k + 1); }
  }

  lemma {:induction false} PlaceEpochsPlacesAll(c: Render, t: Track, epochs: seq<seq<RtpPacket>>)
    requires PlaceEpochs(c, t, epochs).Ok?
    ensures Packets(PlaceEpochs(c, t, epochs).value.placed) == Packets(t.placed) + AllDecodable(c, epochs)
    decreases |epochs|
  {
    hide PlaceEpoch, Decodable;
    if epochs != [] {
      var e := Reordered(epochs[0]);
      PlaceEpochPlacesAll(c, t, e, 0);
      PlaceEpochsPlacesAll(c, PlaceEpoch(c, t, e, 0).value, epochs[1..]);
    }
  }

  /** The placements are the decodable packets, all of them, epoch by epoch in sender order. */
  lemma {:induction false} ChannelPlacesAll(c: Render, packets: seq<RtpPacket>, first: Option<nat>)
    requires Channel(c, packets, first).Ok?
    ensures Packets(Channel(c, packets, first).value.placed) == AllDecodable(c, EpochsOf(packets))
  {
    PlaceEpochsPlacesAll(c, Track(Zeros(Lead(c, first)), []), EpochsOf(packets));
  }
}
