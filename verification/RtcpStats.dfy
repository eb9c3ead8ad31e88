/** Receiver statistics (RFC 3550 appendix A.3 and A.8): `RtcpStats` of `src/media/rtcp.rs`. The
    arrival time is a parameter; counters do not wrap. */
module RtcpStats {
  import opened Words

  datatype Packet = Packet(ssrc: u32, sequence: u16, timestamp: u32, clockRate: u32, now: nat)

  datatype Sample = Sample(arrival: nat, timestamp: u32, clockRate: u32)

  datatype Stats = Stats(
    packetsReceived: nat,
    jitter: nat,
    seqInitialized: bool,
    baseSeq: nat,
    extendedMaxSeq: nat,
    expectedPrior: nat,
    receivedPrior: nat,
    lastSample: Option<Sample>,
    currentSsrc: Option<u32>,
    lostAccumulated: nat)

  const Fresh := Stats(0, 0, false, 0, 0, 0, 0, None, None, 0)

  function ExpectedPackets(s: Stats): int {
    if !s.seqInitialized then 0 else s.extendedMaxSeq - s.baseSeq + 1
  }

  function CurrentGenLost(s: Stats): nat {
    Max(ExpectedPackets(s) - s.packetsReceived, 0)
  }

  function CumulativeLost(s: Stats): nat {
    s.lostAccumulated + CurrentGenLost(s)
  }

  // ---- recording a packet ----

  /** A packet of another SSRC folds the ending generation's loss and starts afresh. */
  function Rebaseline(s: Stats, ssrc: u32): Stats {
    if s.currentSsrc == Some(ssrc) then s
    else Fresh.(currentSsrc := Some(ssrc), baseSeq := s.baseSeq, extendedMaxSeq := s.extendedMaxSeq,
                lostAccumulated := s.lostAccumulated + if s.currentSsrc.Some? then CurrentGenLost(s) else 0)
  }

  /** The high-water mark: only a forward modular step below half a cycle advances it. */
  function Advance(max: nat, sequence: u16): nat {
    var delta := (sequence - max) % TWO16;
    if delta != 0 && delta < 0x8000 then max + delta else max
  }

  function CountPacket(s: Stats, sequence: u16): Stats {
    if !s.seqInitialized then
      s.(packetsReceived := s.packetsReceived + 1, baseSeq := sequence, extendedMaxSeq := sequence, seqInitialized := true)
    else
      s.(packetsReceived := s.packetsReceived + 1, extendedMaxSeq := Advance(s.extendedMaxSeq, sequence))
  }

  /** `|D|` in microseconds: arrival spacing against media spacing, the timestamp difference taken as
      a signed 32-bit number and its division truncated toward zero. */
  function Deviation(last: Sample, p: Packet): nat
    requires p.clockRate > 0
  {
    var raw := (p.timestamp - last.timestamp) % TWO32;
    var media := if raw < TWO31 then raw * 1_000_000 / p.clockRate else -((TWO32 - raw) * 1_000_000 / p.clockRate);
    var d := Max(p.now - last.arrival, 0) - media;
    Min(if d < 0 then -d else d, TWO32 - 1)
  }

  /** `J += (|D| - J) >> 4`, with an arithmetic shift. */
  function JitterStep(j: nat, d: nat): nat {
    Max(j + (d - j) / 16, 0)
  }

  function UpdateJitter(s: Stats, p: Packet): Stats {
    if p.clockRate == 0 then s
    else
      var jitter :=
        if s.lastSample.Some? && s.lastSample.value.clockRate == p.clockRate
        then JitterStep(s.jitter, Deviation(s.lastSample.value, p))
        else 0;
      s.(jitter := jitter, lastSample := Some(Sample(p.now, p.timestamp, p.clockRate)))
  }

  function Record(s: Stats, p: Packet): Stats {
    UpdateJitter(CountPacket(Rebaseline(s, p.ssrc), p.sequence), p)
  }

  /** `fraction_lost_and_update`. */
  function Report(s: Stats): (Stats, nat) {
    var expected := ExpectedPackets(s);
    var expectedInterval := expected - s.expectedPrior;
    var receivedInterval := s.packetsReceived - s.receivedPrior;
    var fraction :=
      if expectedInterval <= 0 || receivedInterval >= expectedInterval then 0
      else Min((expectedInterval - receivedInterval) * 256 / expectedInterval, 255);
    (s.(expectedPrior := Max(expected, 0), receivedPrior := s.packetsReceived), fraction)
  }

  class RtcpStats {
    var packetsReceived: nat
    var jitter: nat
    var seqInitialized: bool
    var baseSeq: nat
    var extendedMaxSeq: nat
    var expectedPrior: nat
    var receivedPrior: nat
    var lastSample: Option<Sample>
    var currentSsrc: Option<u32>
    var lostAccumulated: nat

    function View(): Stats
      reads this
    {
      Stats(packetsReceived, jitter, seqInitialized, baseSeq, extendedMaxSeq, expectedPrior, receivedPrior,
            lastSample, currentSsrc, lostAccumulated)
    }

    constructor ()
      ensures View() == Fresh
    {
      packetsReceived, jitter, seqInitialized, baseSeq, extendedMaxSeq := 0, 0, false, 0, 0;
      expectedPrior, receivedPrior, lastSample, currentSsrc, lostAccumulated := 0, 0, None, None, 0;
    }

    /** `record_received`. */
    method RecordReceived(p: Packet)
      modifies this
      ensures View() == Record(old(View()), p)
    {
      hide Rebaseline, CountPacket, UpdateJitter;
      StartGeneration(p.ssrc);
      TrackSequence(p.sequence);
      TrackJitter(p);
    }

    /** A packet of another SSRC ends the generation. */
    method StartGeneration(ssrc: u32)
      modifies this
      ensures View() == Rebaseline(old(View()), ssrc)
    {
      if currentSsrc != Some(ssrc) {
        if currentSsrc.Some? { lostAccumulated := lostAccumulated + CurrentGenLost(View()); }
        currentSsrc := Some(ssrc);
        seqInitialized := false;
        packetsReceived, expectedPrior, receivedPrior := 0, 0, 0;
        lastSample, jitter := None, 0;
      }
    }

    method TrackSequence(sequence: u16)
      modifies this
      ensures View() == CountPacket(old(View()), sequence)
    {
      packetsReceived := packetsReceived + 1;
      if !seqInitialized {
        baseSeq, extendedMaxSeq, seqInitialized := sequence, sequence, true;
      } else {
        var delta := (sequence - extendedMaxSeq) % TWO16;
        if delta != 0 && delta < 0x8000 { extendedMaxSeq := extendedMaxSeq + delta; }
      }
    }

    method TrackJitter(p: Packet)
      modifies this
      ensures View() == UpdateJitter(old(View()), p)
    {
      hide JitterStep, Deviation;
      if p.clockRate > 0 {
        if lastSample.Some? && lastSample.value.clockRate == p.clockRate {
          jitter := JitterStep(jitter, Deviation(lastSample.value, p));
        } else {
          jitter := 0;
        }
        lastSample := Some(Sample(p.now, p.timestamp, p.clockRate));
      }
    }

    method FractionLostAndUpdate() returns (fraction: nat)
      modifies this`expectedPrior, this`receivedPrior
      ensures View() == Report(old(View())).0 && fraction == Report(old(View())).1
    {
      var expected := ExpectedPackets(View());
      var expectedInterval := expected - expectedPrior;
      var receivedInterval := packetsReceived - receivedPrior;
      expectedPrior := if expected < 0 then 0 else expected;
      receivedPrior := packetsReceived;
      if expectedInterval <= 0 || receivedInterval >= expectedInterval { return 0; }
      var lostInterval := expectedInterval - receivedInterval;
      fraction := lostInterval * 256 / expectedInterval;
      if fraction > 255 { fraction := 255; }
    }
  }

  // ---- loss within one generation ----

  function RecordAll(s: Stats, packets: seq<Packet>): Stats {
    if packets == [] then s else Record(RecordAll(s, packets[..|packets| - 1]), packets[|packets| - 1])
  }

  /** The mark follows the true extended number `x` exactly when `x` is less than half a cycle ahead,
      or at most half a cycle behind once whole cycles are discounted. */
  lemma {:induction false} AdvanceIsExact(max: nat, x: int)
    ensures Advance(max, x % TWO16) == Max(max, x) <==> if x > max then x - max < 0x8000 else (max - x) % TWO16 <= 0x8000
  {
    assert (x % TWO16 - max) % TWO16 == (x - max) % TWO16;
    if x > max {
      assert x - max < TWO16 ==> (x - max) % TWO16 == x - max;
    } else {
      var k := (max - x) % TWO16;
      assert (x - max) % TWO16 == if k == 0 then 0 else TWO16 - k;
    }
  }

  ghost function Highest(xs: seq<int>): int
    requires xs != []
  {
    if |xs| == 1 then xs[0] else Max(Highest(xs[..|xs| - 1]), xs[|xs| - 1])
  }

  /** One SSRC; `xs` are the true extended numbers, the first in cycle 0, and each later one within
      half a cycle of the highest before it. */
  ghost predicate Stream(packets: seq<Packet>, xs: seq<int>)
    decreases |packets|
  {
    && |packets| == |xs|
    && (packets != [] ==>
          var n := |packets| - 1;
          && Stream(packets[..n], xs[..n])
          && packets[n].sequence == xs[n] % TWO16
          && (if n == 0 then 0 <= xs[0] < TWO16
              else packets[n].ssrc == packets[0].ssrc && -0x8000 <= xs[n] - Highest(xs[..n]) < 0x8000))
  }

  /** After any such trace the mark is the true maximum and the base is the first number. */
  lemma {:induction false} MarkIsTrueMaximum(packets: seq<Packet>, xs: seq<int>)
    requires Stream(packets, xs) && packets != []
    ensures var s := RecordAll(Fresh, packets);
            && s.seqInitialized && s.currentSsrc == Some(packets[0].ssrc) && s.packetsReceived == |packets|
            && s.baseSeq == xs[0] && s.extendedMaxSeq == Highest(xs) && s.lostAccumulated == 0
    decreases |packets|
  {
    hide UpdateJitter;
    var n := |packets| - 1;
    JitterOnly(CountPacket(Rebaseline(RecordAll(Fresh, packets[..n]), packets[n].ssrc), packets[n].sequence), packets[n]);
    if n > 0 {
      MarkIsTrueMaximum(packets[..n], xs[..n]);
      AdvanceIsExact(Highest(xs[..n]), xs[n]);
    }
  }

  lemma {:induction false} JitterOnly(s: Stats, p: Packet)
    ensures UpdateJitter(s, p) == s.(jitter := UpdateJitter(s, p).jitter, lastSample := UpdateJitter(s, p).lastSample)
  {
  }

  lemma {:induction false} HighestBounds(xs: seq<int>)
    requires xs != []
    ensures forall x :: x in xs ==> x <= Highest(xs)
  {
    if |xs| > 1 {
      HighestBounds(xs[..|xs| - 1]);
      assert xs == xs[..|xs| - 1] + [xs[|xs| - 1]];
    }
  }

  ghost function Range(lo: int, hi: int): (r: set<int>)
    ensures forall n :: n in r <==> lo <= n <= hi
    ensures |r| == Max(hi - lo + 1, 0)
    decreases hi - lo
  {
    if hi < lo then {} else Range(lo, hi - 1) + {hi}
  }

  lemma {:induction false} DistinctSize(xs: seq<int>)
    requires forall i, j :: 0 <= i < j < |xs| ==> xs[i] != xs[j]
    ensures |set x | x in xs| == |xs|
  {
    if xs != [] {
      var n := |xs| - 1;
      DistinctSize(xs[..n]);
      assert (set x | x in xs) == (set x | x in xs[..n]) + {xs[n]};
    } else {
      assert (set x | x in xs) == {};
    }
  }

  /** With no duplicates and nothing older than the first packet, the generation's loss is exactly the
      number of extended numbers between first and highest that never arrived. */
  lemma {:induction false} LossIsMissingCount(packets: seq<Packet>, xs: seq<int>)
    requires Stream(packets, xs) && packets != []
    requires forall i, j :: 0 <= i < j < |xs| ==> xs[i] != xs[j]
    requires forall x :: x in xs ==> xs[0] <= x
    ensures CurrentGenLost(RecordAll(Fresh, packets)) == |Range(xs[0], Highest(xs)) - (set x | x in xs)|
  {
    MarkIsTrueMaximum(packets, xs);
    HighestBounds(xs);
    var arrived := set x | x in xs;
    var range := Range(xs[0], Highest(xs));
    assert xs[0] in xs;
    DistinctSize(xs);
    assert arrived <= range;
    assert range == (range - arrived) + arrived;
  }

  // ---- loss over generations ----

  /** Maximal runs of equal SSRC, in order: those that have ended, and the current one. */
  function Generations(packets: seq<Packet>): (g: (seq<seq<Packet>>, seq<Packet>))
    ensures packets != [] ==> g.1 != [] && g.1[|g.1| - 1] == packets[|packets| - 1]
    ensures packets == [] ==> g == ([], [])
  {
    if packets == [] then ([], [])
    else
      var n := |packets| - 1;
      var (ended, current) := Generations(packets[..n]);
      if n == 0 || packets[n - 1].ssrc == packets[n].ssrc
      then (ended, current + [packets[n]])
      else (ended + [current], [packets[n]])
  }

  function TotalLost(generations: seq<seq<Packet>>): nat {
    if generations == [] then 0
    else TotalLost(generations[..|generations| - 1]) + CurrentGenLost(RecordAll(Fresh, generations[|generations| - 1]))
  }

  /** Two states that differ only in what earlier generations left behind. */
  predicate SameGeneration(s: Stats, t: Stats) {
    s == t.(lostAccumulated := s.lostAccumulated)
  }

  lemma {:induction false} RecordSameGeneration(s: Stats, t: Stats, p: Packet)
    requires SameGeneration(s, t) && s.currentSsrc == Some(p.ssrc)
    ensures SameGeneration(Record(s, p), Record(t, p)) && Record(s, p).lostAccumulated == s.lostAccumulated
    ensures CurrentGenLost(Record(s, p)) == CurrentGenLost(Record(t, p)) && Record(s, p).currentSsrc == Some(p.ssrc)
  {
  }

  lemma {:induction false} RecordNewGeneration(s: Stats, p: Packet)
    requires s.currentSsrc != Some(p.ssrc) && (s.currentSsrc.None? ==> s == Fresh)
    ensures SameGeneration(Record(s, p), Record(Fresh, p)) && Record(s, p).lostAccumulated == CumulativeLost(s)
    ensures CurrentGenLost(Record(s, p)) == CurrentGenLost(Record(Fresh, p)) && Record(s, p).currentSsrc == Some(p.ssrc)
    ensures CurrentGenLost(Fresh) == 0
  {
    hide UpdateJitter;
    var a, b := CountPacket(Rebaseline(s, p.ssrc), p.sequence), CountPacket(Rebaseline(Fresh, p.ssrc), p.sequence);
    assert SameGeneration(a, b) && a.currentSsrc == Some(p.ssrc);
    UpdateJitterSame(a, b, p);
  }

  lemma {:induction false} UpdateJitterSame(s: Stats, t: Stats, p: Packet)
    requires SameGeneration(s, t)
    ensures SameGeneration(UpdateJitter(s, p), UpdateJitter(t, p))
    ensures UpdateJitter(s, p).lostAccumulated == s.lostAccumulated && UpdateJitter(s, p).currentSsrc == s.currentSsrc
  {
    hide Deviation, JitterStep;
  }

  lemma {:induction false} RecordAllSnoc(packets: seq<Packet>, p: Packet)
    ensures RecordAll(Fresh, packets + [p]) == Record(RecordAll(Fresh, packets), p)
  {
    assert (packets + [p])[..|packets|] == packets;
  }

  lemma {:induction false} TotalLostSnoc(generations: seq<seq<Packet>>, g: seq<Packet>)
    ensures TotalLost(generations + [g]) == TotalLost(generations) + CurrentGenLost(RecordAll(Fresh, g))
  {
    assert (generations + [g])[..|generations|] == generations;
  }

  /** The state `s` of a leg, against its ended generations and its current one taken alone. */
  ghost predicate Splits(s: Stats, ended: seq<seq<Packet>>, current: seq<Packet>, ssrc: Option<u32>) {
    && CumulativeLost(s) == TotalLost(ended) + CurrentGenLost(RecordAll(Fresh, current))
    && SameGeneration(s, RecordAll(Fresh, current)) && s.lostAccumulated == TotalLost(ended)
    && s.currentSsrc == ssrc
  }

  lemma {:induction false} SplitContinues(s: Stats, ended: seq<seq<Packet>>, current: seq<Packet>, p: Packet)
    requires Splits(s, ended, current, Some(p.ssrc))
    ensures Splits(Record(s, p), ended, current + [p], Some(p.ssrc))
  {
    hide Record, CurrentGenLost, TotalLost, RecordAll;
    RecordSameGeneration(s, RecordAll(Fresh, current), p);
    RecordAllSnoc(current, p);
  }

  lemma {:induction false} RecordOne(s: Stats, p: Packet)
    ensures RecordAll(s, [p]) == Record(s, p)
  {
    hide Record;
    assert [p][..0] == [];
    assert RecordAll(s, []) == s;
  }

  lemma {:induction false} SplitStarts(s: Stats, ended: seq<seq<Packet>>, p: Packet)
    requires s.currentSsrc != Some(p.ssrc) && (s.currentSsrc.None? ==> s == Fresh) && CumulativeLost(s) == TotalLost(ended)
    ensures Splits(Record(s, p), ended, [p], Some(p.ssrc))
  {
    hide Record, CurrentGenLost, TotalLost, RecordAll;
    RecordNewGeneration(s, p);
    RecordOne(Fresh, p);
  }

  lemma {:induction false} SplitRestarts(s: Stats, ended: seq<seq<Packet>>, current: seq<Packet>, ssrc: u32, p: Packet)
    requires Splits(s, ended, current, Some(ssrc)) && ssrc != p.ssrc
    ensures Splits(Record(s, p), ended + [current], [p], Some(p.ssrc))
  {
    hide Record, CurrentGenLost, TotalLost, RecordAll;
    TotalLostSnoc(ended, current);
    SplitStarts(s, ended + [current], p);
  }

  lemma {:induction false} OneGeneration(packets: seq<Packet>)
    requires |packets| == 1
    ensures Generations(packets) == ([], packets) && RecordAll(Fresh, packets) == Record(Fresh, packets[0])
    ensures Splits(RecordAll(Fresh, packets), [], packets, Some(packets[0].ssrc))
  {
    hide Record, Splits, TotalLost, CumulativeLost;
    assert packets == [] + [packets[0]] && packets[..0] == [];
    FreshLostNothing();
    SplitStarts(Fresh, [], packets[0]);
  }

  lemma {:induction false} GenerationsStep(packets: seq<Packet>)
    requires |packets| > 1
    ensures var n := |packets| - 1;
            var (ended, current) := Generations(packets[..n]);
            && Generations(packets) == (if packets[n - 1].ssrc == packets[n].ssrc then (ended, current + [packets[n]])
                                        else (ended + [current], [packets[n]]))
            && RecordAll(Fresh, packets) == Record(RecordAll(Fresh, packets[..n]), packets[n])
  {
    hide Record;
  }

  /** Whole-leg loss is the sum of what each generation lost on its own. */
  lemma {:induction false} CumulativeIsSumOfGenerations(packets: seq<Packet>)
    requires packets != []
    ensures var (ended, current) := Generations(packets);
            Splits(RecordAll(Fresh, packets), ended, current, Some(packets[|packets| - 1].ssrc))
    decreases |packets|
  {
    hide Record, Splits, RecordAll, Generations;
    var n := |packets| - 1;
    var p := packets[n];
    if n == 0 {
      OneGeneration(packets);
    } else {
      GenerationsStep(packets);
      var (ended, current) := Generations(packets[..n]);
      CumulativeIsSumOfGenerations(packets[..n]);
      var s := RecordAll(Fresh, packets[..n]);
      if packets[n - 1].ssrc == p.ssrc {
        SplitContinues(s, ended, current, p);
      } else {
        SplitRestarts(s, ended, current, packets[n - 1].ssrc, p);
      }
    }
  }

  lemma {:induction false} FreshLostNothing()
    ensures CumulativeLost(Fresh) == TotalLost([])
  {
    hide Record, RecordAll;
  }

  // ---- fraction lost ----

  datatype Event = Received(packet: Packet) | Reported

  function EventAll(s: Stats, events: seq<Event>): Stats {
    if events == [] then s
    else
      var before := EventAll(s, events[..|events| - 1]);
      match events[|events| - 1]
      case Received(p) => Record(before, p)
      case Reported => Report(before).0
  }

  /** Expectation grows only by receiving: whatever is newly expected, something was newly received. */
  ghost predicate IntervalOk(s: Stats) {
    && (s.seqInitialized ==> s.baseSeq <= s.extendedMaxSeq && s.currentSsrc.Some?)
    && (!s.seqInitialized ==> s.packetsReceived == 0 && s.expectedPrior == 0)
    && s.expectedPrior <= ExpectedPackets(s) && s.receivedPrior <= s.packetsReceived
    && (s.expectedPrior < ExpectedPackets(s) ==> s.receivedPrior < s.packetsReceived)
  }

  lemma {:induction false} RecordKeepsInterval(s: Stats, p: Packet)
    requires IntervalOk(s)
    ensures IntervalOk(Record(s, p))
  {
    hide UpdateJitter;
    JitterOnly(CountPacket(Rebaseline(s, p.ssrc), p.sequence), p);
  }

  lemma {:induction false} IntervalsStayOk(events: seq<Event>)
    ensures IntervalOk(EventAll(Fresh, events))
    decreases |events|
  {
    if events != [] {
      var n := |events| - 1;
      IntervalsStayOk(events[..n]);
      if events[n].Received? { RecordKeepsInterval(EventAll(Fresh, events[..n]), events[n].packet); }
    }
  }

  /** In every reachable state a positive expected interval means fewer lost than expected, so the
      reported fraction is exactly the rounded-down 256ths and the cap at 255 never acts. */
  lemma {:induction false} FractionIsExact(events: seq<Event>)
    ensures var s := EventAll(Fresh, events);
            var expected, received := ExpectedPackets(s) - s.expectedPrior, s.packetsReceived - s.receivedPrior;
            var lost := Max(expected - received, 0);
            && (expected > 0 ==> lost < expected && Report(s).1 == lost * 256 / expected < 256)
            && (expected == 0 ==> Report(s).1 == 0)
  {
    hide EventAll;
    IntervalsStayOk(events);
    var s := EventAll(Fresh, events);
    var expected, received := ExpectedPackets(s) - s.expectedPrior, s.packetsReceived - s.receivedPrior;
    if expected > 0 { FloorBelow256(Max(expected - received, 0), expected); }
  }

  lemma {:induction false} FloorBelow256(lost: nat, expected: nat)
    requires lost < expected
    ensures lost * 256 / expected < 256
  {
    var q := lost * 256 / expected;
    assert q * expected <= lost * 256;
    assert (q - 256) * expected < 0;
  }

  // ---- jitter ----

  /** Each update lies between the old value and `|D|`, and falls strictly when `|D|` is smaller. */
  lemma {:induction false} JitterStepIsBetween(j: nat, d: nat)
    ensures j <= d ==> j <= JitterStep(j, d) <= d
    ensures d < j ==> d <= JitterStep(j, d) < j
    ensures JitterStep(j, d) == j <==> j <= d < j + 16
  {
  }

  /** Every deviation that the trace feeds into the jitter filter is at most `bound`. */
  ghost predicate DeviationsWithin(packets: seq<Packet>, bound: nat)
    decreases |packets|
  {
    packets != [] ==>
      var n := |packets| - 1;
      var s, p := Rebaseline(RecordAll(Fresh, packets[..n]), packets[n].ssrc), packets[n];
      && DeviationsWithin(packets[..n], bound)
      && (p.clockRate > 0 && s.lastSample.Some? && s.lastSample.value.clockRate == p.clockRate ==>
            Deviation(s.lastSample.value, p) <= bound)
  }

  lemma {:induction false} JitterIsWithin(packets: seq<Packet>, bound: nat)
    requires DeviationsWithin(packets, bound)
    ensures RecordAll(Fresh, packets).jitter <= bound
    decreases |packets|
  {
    if packets != [] {
      hide Deviation, JitterStep, CurrentGenLost, Advance;
      var n := |packets| - 1;
      JitterIsWithin(packets[..n], bound);
      var s, p := Rebaseline(RecordAll(Fresh, packets[..n]), packets[n].ssrc), packets[n];
      if p.clockRate > 0 && s.lastSample.Some? && s.lastSample.value.clockRate == p.clockRate {
        JitterStepIsBetween(s.jitter, Deviation(s.lastSample.value, p));
      }
    }
  }

  /** Jitter never exceeds the largest deviation of the current generation, however noisy the earlier
      ones were. */
  lemma {:induction false} JitterIsBounded(packets: seq<Packet>, bound: nat)
    requires DeviationsWithin(Generations(packets).1, bound)
    ensures RecordAll(Fresh, packets).jitter <= bound
  {
    hide Record, DeviationsWithin, CumulativeLost, CurrentGenLost, TotalLost;
    if packets != [] {
      CumulativeIsSumOfGenerations(packets);
      JitterIsWithin(Generations(packets).1, bound);
    }
  }

  /** `packets` continue the stream of `s` with a deviation of `d` each. */
  ghost predicate Steady(s: Stats, packets: seq<Packet>, d: nat)
    decreases |packets|
  {
    packets != [] ==>
      var n := |packets| - 1;
      var t, p := RecordAll(s, packets[..n]), packets[n];
      && Steady(s, packets[..n], d)
      && t.currentSsrc == Some(p.ssrc) && p.clockRate > 0
      && t.lastSample.Some? && t.lastSample.value.clockRate == p.clockRate && Deviation(t.lastSample.value, p) == d
  }

  lemma {:induction false} SteadyStep(s: Stats, p: Packet, d: nat)
    requires s.currentSsrc == Some(p.ssrc) && p.clockRate > 0
    requires s.lastSample.Some? && s.lastSample.value.clockRate == p.clockRate && Deviation(s.lastSample.value, p) == d
    ensures Record(s, p).jitter == JitterStep(s.jitter, d)
  {
    hide Deviation, JitterStep, Advance;
  }

  /** From above, a steady deviation is neared by at least one a packet; from below, until less than
      sixteen are missing. */
  lemma {:induction false} JitterApproaches(s: Stats, packets: seq<Packet>, d: nat)
    requires Steady(s, packets, d)
    ensures s.jitter >= d ==> d <= RecordAll(s, packets).jitter <= Max(d, s.jitter - |packets|)
    ensures s.jitter <= d ==> Min(d - 15, s.jitter + |packets|) <= RecordAll(s, packets).jitter <= d
    decreases |packets|
  {
    hide Record, Deviation;
    if packets != [] {
      var n := |packets| - 1;
      JitterApproaches(s, packets[..n], d);
      var t := RecordAll(s, packets[..n]);
      SteadyStep(t, packets[n], d);
      JitterStepIsBetween(t.jitter, d);
    }
  }

  /** A steady deviation below the current jitter is reached, and kept. */
  lemma {:induction false} JitterSettles(s: Stats, packets: seq<Packet>, d: nat)
    requires Steady(s, packets, d) && d <= s.jitter <= d + |packets|
    ensures RecordAll(s, packets).jitter == d
  {
    JitterApproaches(s, packets, d);
  }
}
