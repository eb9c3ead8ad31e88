/** A sender and a receiver that share session keys, joined by a channel that may lose, reorder
    and duplicate packets. Every packet carries its true extended sequence number `x`, which the
    wire never shows: only its low 16 bits travel. */
module SrtpEndToEnd {
  import opened Words
  import opened ReplayWindow
  import opened Srtp
  import opened SrtpContext
  import Rtp

  datatype Numbered = Numbered(packet: seq<u8>, ssrc: u32, x: nat)

  predicate IsShort(n: Numbered) {
    |n.packet| < 12
  }

  /** A packet that can be read at all carries its SSRC and the low 16 bits of its number. */
  ghost predicate Labelled(n: Numbered) {
    !IsShort(n) ==> n.x < TWO48 && n.ssrc == Rtp.Ssrc(n.packet) && Rtp.Sequence(n.packet) == n.x % TWO16
  }

  ghost predicate WellFormed(n: Numbered) {
    Rtp.HeaderLen(n.packet).Some? && Labelled(n)
  }

  // ---- the sender ----

  function ProtectAll(c: Crypto, k: SessionKeys, s: Context, packets: seq<Numbered>): (r: seq<Result<seq<u8>, Error>>)
    ensures |r| == |packets|
    decreases |packets|
  {
    if packets == [] then []
    else
      var (s', first) := ProtectStep(c, k, s, packets[0].packet);
      [first] + ProtectAll(c, k, s', packets[1..])
  }

  /** The index, hence the IV, that a `protect` call computes. */
  function IndexUsed(s: Context, p: seq<u8>): Option<u64> {
    if |p| < 12 then None
    else
      var index := SendStep(s, Rtp.Ssrc(p), Rtp.Sequence(p), Rtp.HeaderLen(p).Some?).1;
      if index.Ok? then Some(index.value) else None
  }

  function IndicesUsed(c: Crypto, k: SessionKeys, s: Context, packets: seq<Numbered>): (r: seq<Option<u64>>)
    ensures |r| == |packets|
    decreases |packets|
  {
    if packets == [] then []
    else
      var p := packets[0].packet;
      [IndexUsed(s, p)] + IndicesUsed(c, k, ProtectStep(c, k, s, p).0, packets[1..])
  }

  /** The last number on each SSRC. A packet that is too short to read has none. */
  ghost function NextLast(last: map<u32, nat>, n: Numbered): map<u32, nat> {
    if IsShort(n) then last else last[n.ssrc := n.x]
  }

  /** Each SSRC starts in rollover cycle 0 and then moves forward by 1 to 0x7FFF per packet. */
  ghost predicate Forward(last: map<u32, nat>, packets: seq<Numbered>)
    decreases |packets|
  {
    packets != [] ==>
      && (!IsShort(packets[0]) ==> Advances(last, packets[0]))
      && Forward(NextLast(last, packets[0]), packets[1..])
  }

  ghost predicate Advances(last: map<u32, nat>, n: Numbered) {
    if n.ssrc in last then last[n.ssrc] < n.x <= last[n.ssrc] + 0x7FFF else n.x < TWO16
  }

  predicate IsFull(s: Context) {
    |s.streams| >= MAX_SSRCS
  }

  /** The stream is at number `x`, or its key lifetime is used up. */
  predicate IsAt(s: Context, st: StreamState, x: nat) {
    st.protectedPackets >= s.lifetime || (st.initialized && HighestIndex(st) == x)
  }

  /** Every stream is at its last number or exhausted, and an SSRC that has no stream was refused one. */
  ghost predicate Tracks(s: Context, last: map<u32, nat>) {
    && s.streams.Keys <= last.Keys
    && forall ssrc :: ssrc in last ==> if ssrc in s.streams then IsAt(s, s.streams[ssrc], last[ssrc]) else IsFull(s)
  }

  lemma {:induction false} TracksStored(s: Context, last: map<u32, nat>, ssrc: u32, st: StreamState, x: nat)
    requires Tracks(s, last) && IsAt(s, st, x)
    ensures Tracks(s.(streams := s.streams[ssrc := st]), last[ssrc := x])
  {
    hide HighestIndex;
    var t := s.(streams := s.streams[ssrc := st]);
    assert t.streams.Keys == s.streams.Keys + {ssrc};
    assert |t.streams.Keys| >= |s.streams.Keys|;
  }

  lemma {:induction false} TracksRefused(s: Context, last: map<u32, nat>, ssrc: u32, x: nat)
    requires Tracks(s, last) && ssrc !in s.streams && IsFull(s)
    ensures Tracks(s, last[ssrc := x])
  {
    hide IsAt;
  }

  /** The stream that a packet is admitted to takes the packet's number. */
  lemma {:induction false} AdmittedStream(s: Context, last: map<u32, nat>, n: Numbered)
    requires Tracks(s, last) && Advances(last, n) && n.x < TWO48
    requires (n.ssrc in s.streams || !IsFull(s)) && Stream(s, n.ssrc).protectedPackets < s.lifetime
    ensures var st := UpdateRoc(Stream(s, n.ssrc), n.x % TWO16);
            st.initialized && HighestIndex(st) == n.x && IndexOf(st.roc, n.x % TWO16) == n.x
  {
    if n.ssrc in s.streams { ForwardStepTracks(Stream(s, n.ssrc), n.x); }
  }

  /** Whatever the answer, the sender keeps track; and an index is only ever the packet's own number. */
  lemma {:induction false} SendStepTracks(s: Context, last: map<u32, nat>, n: Numbered, headerOk: bool)
    requires Tracks(s, last) && Advances(last, n) && n.x < TWO48
    ensures var (t, r) := SendStep(s, n.ssrc, n.x % TWO16, headerOk);
            (r.Ok? ==> r == Ok(n.x)) && Tracks(t, last[n.ssrc := n.x])
  {
    hide Tracks, Advances, UpdateRoc, HighestIndex, IndexOf;
    var st := Stream(s, n.ssrc);
    if n.ssrc !in s.streams && IsFull(s) {
      TracksRefused(s, last, n.ssrc, n.x);
    } else if st.protectedPackets >= s.lifetime {
      TracksStored(s, last, n.ssrc, st, n.x);
    } else {
      AdmittedStream(s, last, n);
      var next := UpdateRoc(st, n.x % TWO16);
      if headerOk { next := next.(protectedPackets := st.protectedPackets + 1); }
      SameHighest(UpdateRoc(st, n.x % TWO16), next);
      TracksStored(s, last, n.ssrc, next, n.x);
    }
  }

  lemma {:induction false} SameHighest(st: StreamState, next: StreamState)
    requires next.roc == st.roc && next.highestSeq == st.highestSeq
    ensures HighestIndex(next) == HighestIndex(st)
  {
  }

  lemma {:induction false} ProtectStepSeals(c: Crypto, k: SessionKeys, s: Context, last: map<u32, nat>, n: Numbered)
    requires Tracks(s, last) && Labelled(n) && (!IsShort(n) ==> Advances(last, n))
    ensures var (t, r) := ProtectStep(c, k, s, n.packet);
            && Tracks(t, NextLast(last, n))
            && (r.Ok? ==> WellFormed(n) && r == Ok(Seal(c, k, n.packet, n.x)))
            && IndexUsed(s, n.packet) == if r.Ok? then Some(n.x) else None
  {
    hide Tracks, Advances, SendStep, Seal, Rtp.HeaderLen, Rtp.Ssrc, Rtp.Sequence;
    if !IsShort(n) { SendStepTracks(s, last, n, Rtp.HeaderLen(n.packet).Some?); }
  }

  /** Whatever was refused before it, a packet that a forward-moving sender puts on the wire is sealed
      at its true index. */
  lemma {:induction false} ProtectAllSeals(c: Crypto, k: SessionKeys, s: Context, last: map<u32, nat>,
                        packets: seq<Numbered>, i: nat)
    requires Tracks(s, last) && Forward(last, packets) && i < |packets|
    requires forall n :: n in packets ==> Labelled(n)
    ensures var r := ProtectAll(c, k, s, packets)[i];
            && (r.Ok? ==> WellFormed(packets[i]) && r == Ok(Seal(c, k, packets[i].packet, packets[i].x)))
            && IndicesUsed(c, k, s, packets)[i] == if r.Ok? then Some(packets[i].x) else None
    decreases |packets|
  {
    hide Tracks, Labelled, ProtectStep, IndexUsed, Seal, Advances, NextLast, WellFormed;
    assert packets[0] in packets;
    ProtectStepSeals(c, k, s, last, packets[0]);
    if i > 0 {
      ProtectAllSeals(c, k, ProtectStep(c, k, s, packets[0].packet).0, NextLast(last, packets[0]), packets[1..], i - 1);
    }
  }

  lemma {:induction false} LaterIsHigher(last: map<u32, nat>, packets: seq<Numbered>, ssrc: u32, j: nat)
    requires Forward(last, packets) && j < |packets| && ssrc in last
    requires !IsShort(packets[j]) && packets[j].ssrc == ssrc
    ensures last[ssrc] < packets[j].x
    decreases |packets|
  {
    if j > 0 { LaterIsHigher(NextLast(last, packets[0]), packets[1..], ssrc, j - 1); }
  }

  lemma {:induction false} PairsDistinct(last: map<u32, nat>, packets: seq<Numbered>, i: nat, j: nat)
    requires Forward(last, packets) && i < j < |packets| && !IsShort(packets[i]) && !IsShort(packets[j])
    ensures packets[i].ssrc != packets[j].ssrc || packets[i].x < packets[j].x
    decreases |packets|
  {
    var next := NextLast(last, packets[0]);
    if i == 0 {
      if packets[0].ssrc == packets[j].ssrc { LaterIsHigher(next, packets[1..], packets[0].ssrc, j - 1); }
    } else {
      PairsDistinct(next, packets[1..], i - 1, j - 1);
    }
  }

  lemma {:induction false} FreshTracks(lifetime: nat)
    ensures Tracks(Context(map[], lifetime), map[])
  {
  }

  /** No two packets of a run, on any mix of SSRCs, are encrypted under the same IV. Packets may be
      malformed, and the SSRC limit and the key lifetime may refuse any of them. */
  lemma {:induction false} IvsPairwiseDistinct(c: Crypto, k: SessionKeys, lifetime: nat, packets: seq<Numbered>,
                        i: nat, j: nat)
    requires Forward(map[], packets) && i < j < |packets|
    requires forall n :: n in packets ==> Labelled(n)
    ensures var used := IndicesUsed(c, k, Context(map[], lifetime), packets);
            used[i].Some? && used[j].Some? ==>
              Iv(k.cipherSalt, packets[i].ssrc, used[i].value) != Iv(k.cipherSalt, packets[j].ssrc, used[j].value)
  {
    hide Tracks, Forward, ProtectAll, IndicesUsed, Seal, Rtp.HeaderLen, Iv;
    FreshTracks(lifetime);
    ProtectAllSeals(c, k, Context(map[], lifetime), map[], packets, i);
    ProtectAllSeals(c, k, Context(map[], lifetime), map[], packets, j);
    var used := IndicesUsed(c, k, Context(map[], lifetime), packets);
    if used[i].Some? && used[j].Some? {
      PairsDistinct(map[], packets, i, j);
      if Iv(k.cipherSalt, packets[i].ssrc, packets[i].x) == Iv(k.cipherSalt, packets[j].ssrc, packets[j].x) {
        IvInjective(k.cipherSalt, packets[i].ssrc, packets[i].x, packets[j].ssrc, packets[j].x);
      }
    }
  }

  // ---- the receiver ----

  ghost function Highest(seen: set<nat>): (h: nat)
    requires seen != {}
    ensures h in seen && forall a :: a in seen ==> a <= h
  {
    var a :| a in seen;
    if seen == {a} then a
    else
      assert seen - {a} != {};
      var b := Highest(seen - {a});
      assert seen == seen - {a} + {a};
      if a < b then b else a
  }

  ghost function SeenOn(seen: map<u32, set<nat>>, ssrc: u32): set<nat> {
    if ssrc in seen then seen[ssrc] else {}
  }

  /** The receiver holds, per SSRC, exactly the set of extended numbers it has accepted. */
  ghost predicate Holds(s: Context, seen: map<u32, set<nat>>) {
    && s.streams.Keys == seen.Keys
    && forall ssrc :: ssrc in seen ==> seen[ssrc] != {} && StreamHolds(s.streams[ssrc], seen[ssrc])
  }

  ghost predicate StreamHolds(st: StreamState, seen: set<nat>) {
    && (st.initialized || st.roc == 0)
    && Represents(WindowOf(st), seen)
    && st.acceptedPackets == |seen|
  }

  /** What the channel must respect: the first packet of a stream to arrive is in cycle 0, and a
      later one is near the highest number accepted so far. */
  ghost predicate Reachable(seen: map<u32, set<nat>>, n: Numbered) {
    if SeenOn(seen, n.ssrc) == {} then n.x < TWO16 else Near(Highest(SeenOn(seen, n.ssrc)), n.x)
  }

  /** The ideal receiver: room for the SSRC, key lifetime left, and a new number at most 63 behind. */
  ghost predicate Admissible(seen: map<u32, set<nat>>, lifetime: nat, ssrc: u32, x: nat) {
    && (ssrc in seen || |seen| < MAX_SSRCS)
    && |SeenOn(seen, ssrc)| < lifetime
    && Accepts(SeenOn(seen, ssrc), x)
  }

  /** The receiver's estimate of a reachable packet is its true number. */
  lemma {:induction false} EstimateOfReachable(s: Context, seen: map<u32, set<nat>>, n: Numbered)
    requires Holds(s, seen) && n.x < TWO48 && Reachable(seen, n)
    ensures EstimateIndex(Stream(s, n.ssrc), n.x % TWO16) == n.x
    ensures EstimateRoc(Stream(s, n.ssrc), n.x % TWO16) == n.x / TWO16
  {
    var st := Stream(s, n.ssrc);
    if n.ssrc in seen {
      assert HighestIndex(st) == Highest(seen[n.ssrc]);
      EstimateIsExact(st, n.x);
    }
    IndexParts(EstimateRoc(st, n.x % TWO16), n.x % TWO16);
  }

  lemma {:induction false} CheckReplayIsIdeal(st: StreamState, seen: set<nat>, x: nat)
    requires StreamHolds(st, seen) && x < TWO48 && EstimateIndex(st, x % TWO16) == x
    ensures var r := CheckReplay(st, x % TWO16);
            && (r.Ok? <==> Accepts(seen, x))
            && (r.Ok? ==>
                  && r.value.1 == x
                  && StreamHolds(r.value.0.(acceptedPackets := r.value.0.acceptedPackets + 1), seen + {x}))
  {
    CheckReplayIsAdmit(st, x % TWO16);
    AdmitRefinesSet(WindowOf(st), seen, x);
    var r := CheckReplay(st, x % TWO16);
    if r.Ok? { assert WindowOf(r.value.0.(acceptedPackets := r.value.0.acceptedPackets + 1)) == WindowOf(r.value.0); }
  }

  lemma {:induction false} FreshHoldsNothing(x: nat)
    ensures StreamHolds(FreshStream, {}) && Accepts({}, x)
  {
  }

  lemma {:induction false} HoldsUpdated(s: Context, seen: map<u32, set<nat>>, ssrc: u32, st: StreamState, now: set<nat>)
    requires Holds(s, seen) && StreamHolds(st, now) && now != {}
    ensures Holds(s.(streams := s.streams[ssrc := st]), seen[ssrc := now])
  {
    hide StreamHolds;
  }

  /** The receiver's bookkeeping accepts a reachable number exactly when the ideal receiver does. */
  lemma {:induction false} ReceiveStepIsIdeal(s: Context, seen: map<u32, set<nat>>, n: Numbered)
    requires Holds(s, seen) && n.x < TWO48 && Reachable(seen, n) && s.lifetime >= 1
    ensures var (s', r) := ReceiveStep(s, n.ssrc, n.x % TWO16, true);
            && (r.Ok? <==> Admissible(seen, s.lifetime, n.ssrc, n.x))
            && (r.Ok? ==> r.value == n.x)
            && s'.lifetime == s.lifetime
            && Holds(s', IdealNext(seen, s.lifetime, n))
  {
    hide Holds, CheckReplay, Represents, WindowOf, Accepts, EstimateIndex, Reachable;
    var st, now := Stream(s, n.ssrc), SeenOn(seen, n.ssrc);
    EstimateOfReachable(s, seen, n);
    HoldsOnStream(s, seen, n.ssrc);
    FreshHoldsNothing(n.x);
    CheckReplayIsIdeal(st, now, n.x);
    var (s', r) := ReceiveStep(s, n.ssrc, n.x % TWO16, true);
    if r.Ok? {
      var st' := CheckReplay(st, n.x % TWO16).value.0;
      HoldsUpdated(s, seen, n.ssrc, st'.(acceptedPackets := st'.acceptedPackets + 1), now + {n.x});
    } else {
      assert n.ssrc in s.streams ==> s.streams[n.ssrc := st] == s.streams;
    }
  }

  lemma {:induction false} HoldsOnStream(s: Context, seen: map<u32, set<nat>>, ssrc: u32)
    requires Holds(s, seen)
    ensures StreamHolds(Stream(s, ssrc), SeenOn(seen, ssrc))
    ensures ssrc in s.streams <==> ssrc in seen
    ensures |s.streams| == |seen|
  {
    FreshHoldsNothing(0);
    hide Represents;
    assert |s.streams.Keys| == |seen.Keys|;
  }

  ghost predicate IsSealed(c: Crypto, k: SessionKeys, n: Numbered, w: seq<u8>) {
    WellFormed(n) && w == Seal(c, k, n.packet, n.x)
  }

  /** One delivery of a sealed packet: accepted exactly when the ideal receiver accepts it, and
      then returned byte for byte. */
  lemma {:induction false} UnprotectSealed(c: Crypto, k: SessionKeys, s: Context, seen: map<u32, set<nat>>,
                        n: Numbered, w: seq<u8>)
    requires Holds(s, seen) && IsSealed(c, k, n, w) && Reachable(seen, n) && s.lifetime >= 1
    ensures var (s', r) := UnprotectStep(c, k, s, w);
            && Received(r) == Handed(seen, s.lifetime, n)
            && s'.lifetime == s.lifetime
            && Holds(s', IdealNext(seen, s.lifetime, n))
  {
    SealUnseal(c, k, n.packet, n.x);
    EstimateOfReachable(s, seen, n);
    ReceiveStepIsIdeal(s, seen, n);
  }

  // ---- end to end ----

  function UnprotectAll(c: Crypto, k: SessionKeys, s: Context, wires: seq<seq<u8>>): (r: seq<Result<seq<u8>, Error>>)
    ensures |r| == |wires|
    decreases |wires|
  {
    if wires == [] then []
    else
      var (s', first) := UnprotectStep(c, k, s, wires[0]);
      [first] + UnprotectAll(c, k, s', wires[1..])
  }

  /** Every arrival is reachable given what the ideal receiver has accepted before it. */
  ghost predicate Channel(seen: map<u32, set<nat>>, lifetime: nat, arrivals: seq<Numbered>)
    decreases |arrivals|
  {
    arrivals != [] ==>
      && Reachable(seen, arrivals[0])
      && Channel(IdealNext(seen, lifetime, arrivals[0]), lifetime, arrivals[1..])
  }

  ghost function IdealNext(seen: map<u32, set<nat>>, lifetime: nat, n: Numbered): map<u32, set<nat>> {
    if Admissible(seen, lifetime, n.ssrc, n.x) then seen[n.ssrc := SeenOn(seen, n.ssrc) + {n.x}] else seen
  }

  /** The packet the ideal receiver hands up, or `None`. */
  ghost function Handed(seen: map<u32, set<nat>>, lifetime: nat, n: Numbered): Option<seq<u8>> {
    if Admissible(seen, lifetime, n.ssrc, n.x) then Some(n.packet) else None
  }

  function Received(r: Result<seq<u8>, Error>): Option<seq<u8>> {
    if r.Ok? then Some(r.value) else None
  }

  /** Per arrival, what the ideal receiver hands up. */
  ghost function IdealReceive(seen: map<u32, set<nat>>, lifetime: nat, arrivals: seq<Numbered>): (r: seq<Option<seq<u8>>>)
    ensures |r| == |arrivals|
    decreases |arrivals|
  {
    if arrivals == [] then []
    else
      [Handed(seen, lifetime, arrivals[0])]
      + IdealReceive(IdealNext(seen, lifetime, arrivals[0]), lifetime, arrivals[1..])
  }

  lemma {:induction false} UnprotectAllIsIdeal(
    c: Crypto, k: SessionKeys, s: Context, seen: map<u32, set<nat>>, arrivals: seq<Numbered>, wires: seq<seq<u8>>, i: nat)
    requires Holds(s, seen) && s.lifetime >= 1 && Channel(seen, s.lifetime, arrivals)
    requires |wires| == |arrivals| && i < |arrivals|
    requires forall j :: 0 <= j < |arrivals| ==> IsSealed(c, k, arrivals[j], wires[j])
    ensures Received(UnprotectAll(c, k, s, wires)[i]) == IdealReceive(seen, s.lifetime, arrivals)[i]
    decreases |arrivals|
  {
    hide UnprotectStep, IsSealed, Holds, Handed, IdealNext, Reachable;
    UnprotectSealed(c, k, s, seen, arrivals[0], wires[0]);
    if i > 0 {
      forall j | 0 <= j < |arrivals[1..]| ensures IsSealed(c, k, arrivals[1..][j], wires[1..][j]) {
        assert IsSealed(c, k, arrivals[j + 1], wires[j + 1]);
      }
      UnprotectAllIsIdeal(c, k, UnprotectStep(c, k, s, wires[0]).0, IdealNext(seen, s.lifetime, arrivals[0]),
                          arrivals[1..], wires[1..], i - 1);
    }
  }

  /** SRTP end to end. The sender protects `sent`, and may refuse some. The channel delivers what was
      protected, by position, in any order, any number of times or never, respecting `Channel`. The receiver's answers, one per
      delivery, are exactly the ideal receiver's: the original packet when its number is new and at
      most 63 behind the highest (and the SSRC and lifetime limits leave room), a rejection otherwise. */
  lemma {:induction false} EndToEnd(c: Crypto, k: SessionKeys, sendLifetime: nat, recvLifetime: nat,
                 sent: seq<Numbered>, deliveries: seq<nat>, arrivals: seq<Numbered>, wires: seq<seq<u8>>, i: nat)
    requires Forward(map[], sent) && recvLifetime >= 1
    requires forall n :: n in sent ==> Labelled(n)
    requires |deliveries| == |arrivals| == |wires| && i < |deliveries|
    requires forall j :: 0 <= j < |deliveries| ==>
               && deliveries[j] < |sent|
               && arrivals[j] == sent[deliveries[j]]
               && Ok(wires[j]) == ProtectAll(c, k, Context(map[], sendLifetime), sent)[deliveries[j]]
    requires Channel(map[], recvLifetime, arrivals)
    ensures Received(UnprotectAll(c, k, Context(map[], recvLifetime), wires)[i])
         == IdealReceive(map[], recvLifetime, arrivals)[i]
  {
    hide Tracks, Forward, ProtectAll, UnprotectAll, IndicesUsed, Seal, WellFormed, Labelled, Channel, IdealReceive;
    FreshTracks(sendLifetime);
    forall j | 0 <= j < |deliveries| ensures IsSealed(c, k, arrivals[j], wires[j]) {
      ProtectAllSeals(c, k, Context(map[], sendLifetime), map[], sent, deliveries[j]);
    }
    UnprotectAllIsIdeal(c, k, Context(map[], recvLifetime), map[], arrivals, wires, i);
  }
}
