/** SRTCP (RFC 3711 section 3.4): `SrtcpContext` of `src/media/srtp.rs`. */
module Srtcp {
  import opened Words
  import opened ReplayWindow
  import opened Srtp
  import opened SrtpContext
  import opened SrtpEndToEnd
  import opened MapSum

  const MAX_RTCP_PACKETS := TWO31

  datatype RecvState = RecvState(window: Window, acceptedPackets: nat)

  const FreshRecv := RecvState(Window(false, 0, 0), 0)

  datatype RtcpContext = RtcpContext(
    nextIndex: u32,
    recv: map<u32, RecvState>,
    send: map<u32, nat>,
    total: nat,
    lifetime: nat)

  function RtcpSsrc(p: seq<u8>): u32
    requires |p| >= 8
  {
    FromBe32(p[4], p[5], p[6], p[7])
  }

  // ---- packet transform ----

  /** `0x80000000 | index`: the encrypted flag and the index. */
  function Trailer(index: u32): (r: seq<u8>)
    ensures |r| == 4
    ensures index < TWO31 ==> FromBe32(r[0], r[1], r[2], r[3]) == TWO31 + index
  {
    ToBe32(if index < TWO31 then TWO31 + index else index)
  }

  function SealRtcp(c: Crypto, k: SessionKeys, p: seq<u8>, index: u32): (r: seq<u8>)
    requires |p| >= 8
    ensures |r| == |p| + 4 + TAG_LEN
  {
    var message := ApplyKeystream(c, k.cipherKey, Iv(k.cipherSalt, RtcpSsrc(p), index), p, 8) + Trailer(index);
    message + Tag(c, k.authKey, message)
  }

  function IndexWord(w: seq<u8>): u32
    requires |w| >= 22
  {
    var at := |w| - TAG_LEN - 4;
    FromBe32(w[at], w[at + 1], w[at + 2], w[at + 3])
  }

  function AuthenticRtcp(c: Crypto, k: SessionKeys, w: seq<u8>): bool
    requires |w| >= TAG_LEN
  {
    Tag(c, k.authKey, w[..|w| - TAG_LEN]) == w[|w| - TAG_LEN..]
  }

  function UnsealRtcp(c: Crypto, k: SessionKeys, w: seq<u8>): seq<u8>
    requires |w| >= 22
  {
    var output := w[..|w| - TAG_LEN - 4];
    if IndexWord(w) >= TWO31
    then ApplyKeystream(c, k.cipherKey, Iv(k.cipherSalt, RtcpSsrc(output), IndexWord(w) % TWO31), output, 8)
    else output
  }

  lemma {:induction false} SealUnsealRtcp(c: Crypto, k: SessionKeys, p: seq<u8>, index: u32)
    requires |p| >= 8 && index < TWO31
    ensures var w := SealRtcp(c, k, p, index);
            && RtcpSsrc(w) == RtcpSsrc(p)
            && IndexWord(w) == TWO31 + index
            && AuthenticRtcp(c, k, w)
            && UnsealRtcp(c, k, w) == p
  {
    hide Iv, Tag, Xor8, Trailer, FromBe32;
    var w := SealRtcp(c, k, p, index);
    var iv := Iv(k.cipherSalt, RtcpSsrc(p), index);
    var body := ApplyKeystream(c, k.cipherKey, iv, p, 8);
    var n, trailer := |p|, Trailer(index);
    assert w[..|w| - TAG_LEN] == body + trailer && w[..n] == body;
    assert w[n] == trailer[0] && w[n + 1] == trailer[1] && w[n + 2] == trailer[2] && w[n + 3] == trailer[3];
    forall i | 0 <= i < 8 ensures w[i] == p[i] { assert w[i] == body[..8][i]; }
    assert RtcpSsrc(body) == RtcpSsrc(p);
    ApplyKeystreamTwice(c, k.cipherKey, iv, p, 8);
  }

  // ---- bookkeeping ----

  function SendCount(s: RtcpContext, ssrc: u32): nat {
    if ssrc in s.send then s.send[ssrc] else 0
  }

  /** `protect_rtcp` without the bytes: the index to seal at, or a refusal. */
  function SendRtcp(s: RtcpContext, ssrc: u32): (RtcpContext, Result<u32, Error>) {
    if s.total >= MAX_RTCP_PACKETS then (s, Err(IndexExhausted))
    else if ssrc !in s.send && |s.send| >= MAX_SSRCS then (s, Err(TooManySsrcs))
    else
      var count := SendCount(s, ssrc);
      if count >= s.lifetime then (s.(send := s.send[ssrc := count]), Err(LifetimeExhausted))
      else
        (s.(nextIndex := (s.nextIndex + 1) % TWO31, send := s.send[ssrc := count + 1], total := s.total + 1),
         Ok(s.nextIndex))
  }

  function RecvStream(s: RtcpContext, ssrc: u32): RecvState {
    if ssrc in s.recv then s.recv[ssrc] else FreshRecv
  }

  /** `unprotect_rtcp` after authentication, without the bytes. */
  function ReceiveRtcp(s: RtcpContext, ssrc: u32, index: u32): (RtcpContext, Result<(), Error>) {
    if ssrc !in s.recv && |s.recv| >= MAX_SSRCS then (s, Err(TooManySsrcs))
    else
      var st := RecvStream(s, ssrc);
      if st.acceptedPackets >= s.lifetime then (s.(recv := s.recv[ssrc := st]), Err(LifetimeExhausted))
      else match Admit(st.window, index)
        case Err(refusal) => (s.(recv := s.recv[ssrc := st]), Err(Replay(refusal)))
        case Ok(w) => (s.(recv := s.recv[ssrc := RecvState(w, st.acceptedPackets + 1)]), Ok(()))
  }

  function ProtectRtcpStep(c: Crypto, k: SessionKeys, s: RtcpContext, p: seq<u8>): (RtcpContext, Result<seq<u8>, Error>) {
    if |p| < 8 then (s, Err(PacketTooShort))
    else
      var (s', index) := SendRtcp(s, RtcpSsrc(p));
      (s', if index.Ok? then Ok(SealRtcp(c, k, p, index.value)) else Err(index.error))
  }

  function UnprotectRtcpStep(c: Crypto, k: SessionKeys, s: RtcpContext, w: seq<u8>): (RtcpContext,
                        Result<seq<u8>, Error>) {
    if |w| < 22 then (s, Err(PacketTooShort))
    else if !AuthenticRtcp(c, k, w) then (s, Err(AuthMismatch))
    else
      var (s', r) := ReceiveRtcp(s, RtcpSsrc(w), IndexWord(w) % TWO31);
      (s', if r.Ok? then Ok(UnsealRtcp(c, k, w)) else Err(r.error))
  }

  // ---- the sender's indices ----

  /** The one global counter: the wire index is the number of packets protected so far, and the
      per-SSRC counts add up to it. */
  ghost predicate Counts(s: RtcpContext) {
    && s.total <= MAX_RTCP_PACKETS
    && s.nextIndex == s.total % TWO31 < TWO31
    && Sum(s.send) == s.total
  }

  lemma {:induction false} SendRtcpCounts(s: RtcpContext, ssrc: u32)
    requires Counts(s)
    ensures var (s', r) := SendRtcp(s, ssrc);
            && Counts(s')
            && (r.Ok? ==> r.value == s.total < TWO31)
            && s'.total == s.total + (if r.Ok? then 1 else 0)
            && (s.total == MAX_RTCP_PACKETS ==> r.Err?)
  {
    hide Sum;
    SumUpdate(s.send, ssrc, SendCount(s, ssrc) + 1);
    SumUpdate(s.send, ssrc, SendCount(s, ssrc));
  }

  function SendAll(s: RtcpContext, ssrcs: seq<u32>): (r: (RtcpContext, seq<Option<u32>>))
    ensures |r.1| == |ssrcs|
    decreases |ssrcs|
  {
    if ssrcs == [] then (s, [])
    else
      var (s', first) := SendRtcp(s, ssrcs[0]);
      var (end, rest) := SendAll(s', ssrcs[1..]);
      (end, [if first.Ok? then Some(first.value) else None] + rest)
  }

  function Successes(results: seq<Option<u32>>, n: nat): nat
    requires n <= |results|
  {
    if n == 0 then 0 else Successes(results, n - 1) + (if results[n - 1].Some? then 1 else 0)
  }

  /** For any interleaving of SSRCs, the k-th packet to be protected carries index k-1, and the
      totals keep adding up. */
  lemma {:induction false} SendAllNumbersConsecutively(s: RtcpContext, ssrcs: seq<u32>, i: nat)
    requires Counts(s) && i <= |ssrcs|
    ensures var (end, results) := SendAll(s, ssrcs);
            && Counts(end) && end.total == s.total + Successes(results, |results|)
            && (i < |ssrcs| && results[i].Some? ==> results[i].value == s.total + Successes(results, i) < TWO31)
    decreases |ssrcs|
  {
    if ssrcs != [] {
      hide SendRtcp, Counts;
      SendRtcpCounts(s, ssrcs[0]);
      var (s', first) := SendRtcp(s, ssrcs[0]);
      var results := SendAll(s, ssrcs).1;
      assert results[1..] == SendAll(s', ssrcs[1..]).1;
      SendAllNumbersConsecutively(s', ssrcs[1..], if i == 0 then 0 else i - 1);
      SuccessesTail(results, |results|);
      if i > 0 { SuccessesTail(results, i); }
    }
  }

  lemma {:induction false} SuccessesTail(results: seq<Option<u32>>, n: nat)
    requires 0 < n <= |results|
    ensures Successes(results, n) == (if results[0].Some? then 1 else 0) + Successes(results[1..], n - 1)
  {
    if n > 1 { SuccessesTail(results, n - 1); }
  }

  lemma {:induction false} SuccessesGrow(results: seq<Option<u32>>, i: nat, j: nat)
    requires i < j <= |results| && results[i].Some?
    ensures Successes(results, i) < Successes(results, j)
  {
    if i + 1 < j { SuccessesGrow(results, i, j - 1); }
  }

  /** No SRTCP index, hence no SRTCP IV, is used twice under one key: a returning SSRC included. */
  lemma {:induction false} SrtcpIvsPairwiseDistinct(salt: Salt, lifetime: nat, ssrcs: seq<u32>, i: nat, j: nat)
    requires i < j < |ssrcs|
    ensures var used := SendAll(Empty(lifetime), ssrcs).1;
            used[i].Some? && used[j].Some? ==>
              used[i].value < used[j].value && Iv(salt, ssrcs[i], used[i].value) != Iv(salt, ssrcs[j], used[j].value)
  {
    var s := Empty(lifetime);
    SendAllNumbersConsecutively(s, ssrcs, i);
    SendAllNumbersConsecutively(s, ssrcs, j);
    var used := SendAll(s, ssrcs).1;
    if used[i].Some? && used[j].Some? {
      SuccessesGrow(used, i, j);
      if Iv(salt, ssrcs[i], used[i].value) == Iv(salt, ssrcs[j], used[j].value) {
        IvInjective(salt, ssrcs[i], used[i].value, ssrcs[j], used[j].value);
      }
    }
  }

  // ---- end to end ----

  ghost predicate HoldsRtcp(s: RtcpContext, seen: map<u32, set<nat>>) {
    && s.recv.Keys == seen.Keys
    && forall ssrc :: ssrc in seen ==> RecvHolds(s.recv[ssrc], seen[ssrc])
  }

  ghost predicate RecvHolds(st: RecvState, seen: set<nat>) {
    Represents(st.window, seen) && st.acceptedPackets == |seen|
  }

  ghost predicate IsSealedRtcp(c: Crypto, k: SessionKeys, n: Numbered, w: seq<u8>) {
    |n.packet| >= 8 && n.ssrc == RtcpSsrc(n.packet) && n.x < TWO31 && w == SealRtcp(c, k, n.packet, n.x)
  }

  lemma {:induction false} ReceiveRtcpIsIdeal(s: RtcpContext, seen: map<u32, set<nat>>, n: Numbered)
    requires HoldsRtcp(s, seen) && n.x < TWO31 && s.lifetime >= 1
    ensures var (s', r) := ReceiveRtcp(s, n.ssrc, n.x);
            && (r.Ok? <==> Admissible(seen, s.lifetime, n.ssrc, n.x))
            && s'.lifetime == s.lifetime
            && HoldsRtcp(s', IdealNext(seen, s.lifetime, n))
  {
    hide HoldsRtcp, Represents, Admit;
    var st, now := RecvStream(s, n.ssrc), SeenOn(seen, n.ssrc);
    HoldsRtcpOnStream(s, seen, n.ssrc, n.x);
    AdmitRefinesSet(st.window, now, n.x);
    if ReceiveRtcp(s, n.ssrc, n.x).1.Ok? {
      HoldsRtcpUpdated(s, seen, n.ssrc, RecvState(Admit(st.window, n.x).value, st.acceptedPackets + 1), now + {n.x});
    } else {
      assert n.ssrc in s.recv ==> s.recv[n.ssrc := st] == s.recv;
    }
  }

  lemma {:induction false} HoldsRtcpOnStream(s: RtcpContext, seen: map<u32, set<nat>>, ssrc: u32, x: nat)
    requires HoldsRtcp(s, seen)
    ensures RecvHolds(RecvStream(s, ssrc), SeenOn(seen, ssrc)) && |s.recv| == |seen|
    ensures ssrc in s.recv <==> ssrc in seen
    ensures SeenOn(seen, ssrc) == {} ==> Accepts(SeenOn(seen, ssrc), x)
  {
    assert |s.recv.Keys| == |seen.Keys|;
  }

  lemma {:induction false} HoldsRtcpUpdated(s: RtcpContext, seen: map<u32, set<nat>>, ssrc: u32, st: RecvState,
                        now: set<nat>)
    requires HoldsRtcp(s, seen) && RecvHolds(st, now)
    ensures HoldsRtcp(s.(recv := s.recv[ssrc := st]), seen[ssrc := now])
  {
    hide RecvHolds;
  }

  /** A delivered SRTCP packet comes back byte for byte exactly when its index is new and at most
      63 behind. The index travels in full, so nothing is asked of the channel. */
  lemma {:induction false} UnprotectSealedRtcp(c: Crypto, k: SessionKeys, s: RtcpContext, seen: map<u32, set<nat>>,
                        n: Numbered, w: seq<u8>)
    requires HoldsRtcp(s, seen) && IsSealedRtcp(c, k, n, w) && s.lifetime >= 1
    ensures var (s', r) := UnprotectRtcpStep(c, k, s, w);
            && Received(r) == Handed(seen, s.lifetime, n)
            && s'.lifetime == s.lifetime
            && HoldsRtcp(s', IdealNext(seen, s.lifetime, n))
  {
    hide SealRtcp, UnsealRtcp, AuthenticRtcp, RtcpSsrc, IndexWord, ReceiveRtcp, HoldsRtcp, Admissible;
    SealUnsealRtcp(c, k, n.packet, n.x);
    ReceiveRtcpIsIdeal(s, seen, n);
  }

  function UnprotectRtcpAll(c: Crypto, k: SessionKeys, s: RtcpContext,
                        wires: seq<seq<u8>>): (r: seq<Result<seq<u8>, Error>>)
    ensures |r| == |wires|
    decreases |wires|
  {
    if wires == [] then []
    else
      var (s', first) := UnprotectRtcpStep(c, k, s, wires[0]);
      [first] + UnprotectRtcpAll(c, k, s', wires[1..])
  }

  lemma {:induction false} UnprotectRtcpAllIsIdeal(
    c: Crypto, k: SessionKeys, s: RtcpContext, seen: map<u32, set<nat>>, arrivals: seq<Numbered>, wires: seq<seq<u8>>, i: nat)
    requires HoldsRtcp(s, seen) && s.lifetime >= 1
    requires |wires| == |arrivals| && i < |arrivals|
    requires forall j :: 0 <= j < |arrivals| ==> IsSealedRtcp(c, k, arrivals[j], wires[j])
    ensures Received(UnprotectRtcpAll(c, k, s, wires)[i]) == IdealReceive(seen, s.lifetime, arrivals)[i]
    decreases |arrivals|
  {
    hide UnprotectRtcpStep, IsSealedRtcp, HoldsRtcp, Handed, IdealNext;
    UnprotectSealedRtcp(c, k, s, seen, arrivals[0], wires[0]);
    if i > 0 {
      forall j | 0 <= j < |arrivals[1..]| ensures IsSealedRtcp(c, k, arrivals[1..][j], wires[1..][j]) {
        assert IsSealedRtcp(c, k, arrivals[j + 1], wires[j + 1]);
      }
      UnprotectRtcpAllIsIdeal(c, k, UnprotectRtcpStep(c, k, s, wires[0]).0, IdealNext(seen, s.lifetime, arrivals[0]),
                              arrivals[1..], wires[1..], i - 1);
    }
  }

  function ProtectRtcpAll(c: Crypto, k: SessionKeys, s: RtcpContext,
                        packets: seq<seq<u8>>): (r: seq<Result<seq<u8>, Error>>)
    ensures |r| == |packets|
    decreases |packets|
  {
    if packets == [] then []
    else
      var (s', first) := ProtectRtcpStep(c, k, s, packets[0]);
      [first] + ProtectRtcpAll(c, k, s', packets[1..])
  }

  /** How many of the first `n` packets were protected. */
  function Protected(results: seq<Result<seq<u8>, Error>>, n: nat): nat
    requires n <= |results|
  {
    if n == 0 then 0 else Protected(results, n - 1) + (if results[n - 1].Ok? then 1 else 0)
  }

  lemma {:induction false} ProtectedTail(results: seq<Result<seq<u8>, Error>>, n: nat)
    requires 0 < n <= |results|
    ensures Protected(results, n) == (if results[0].Ok? then 1 else 0) + Protected(results[1..], n - 1)
  {
    if n > 1 { ProtectedTail(results, n - 1); }
  }

  lemma {:induction false} ProtectRtcpStepSeals(c: Crypto, k: SessionKeys, s: RtcpContext, p: seq<u8>)
    requires Counts(s)
    ensures var (s', r) := ProtectRtcpStep(c, k, s, p);
            && Counts(s') && s'.total == s.total + (if r.Ok? then 1 else 0)
            && (r.Ok? ==> |p| >= 8 && s.total < TWO31 && r == Ok(SealRtcp(c, k, p, s.total)))
  {
    hide SendRtcp, Counts, SealRtcp, RtcpSsrc;
    if |p| >= 8 { SendRtcpCounts(s, RtcpSsrc(p)); }
  }

  /** Whatever was refused before it, a protected packet is sealed at the number of those before it. */
  lemma {:induction false} ProtectRtcpAllSeals(c: Crypto, k: SessionKeys, s: RtcpContext, packets: seq<seq<u8>>, i: nat)
    requires Counts(s) && i < |packets| && ProtectRtcpAll(c, k, s, packets)[i].Ok?
    ensures var results := ProtectRtcpAll(c, k, s, packets);
            && |packets[i]| >= 8 && s.total + Protected(results, i) < TWO31
            && results[i] == Ok(SealRtcp(c, k, packets[i], s.total + Protected(results, i)))
    decreases |packets|
  {
    hide ProtectRtcpStep, Counts, SealRtcp;
    var results := ProtectRtcpAll(c, k, s, packets);
    var s' := ProtectRtcpStep(c, k, s, packets[0]).0;
    ProtectRtcpStepSeals(c, k, s, packets[0]);
    if i > 0 {
      assert results[1..] == ProtectRtcpAll(c, k, s', packets[1..]);
      ProtectRtcpAllSeals(c, k, s', packets[1..], i - 1);
      ProtectedTail(results, i);
    }
  }

  /** SRTCP end to end. The sender protects `sent`, on any mix of SSRCs, and may refuse some. The channel
      delivers what was protected, by position, in any order, any number of times or never. The answers are
      the ideal receiver's: the original packet when its index is new on its SSRC and at most 63 behind. */
  lemma {:induction false} RtcpEndToEnd(c: Crypto, k: SessionKeys, sendLifetime: nat, recvLifetime: nat,
                 sent: seq<seq<u8>>, deliveries: seq<nat>, arrivals: seq<Numbered>, wires: seq<seq<u8>>, i: nat)
    requires recvLifetime >= 1 && |deliveries| == |arrivals| == |wires| && i < |deliveries|
    requires var results := ProtectRtcpAll(c, k, Empty(sendLifetime), sent);
             forall j :: 0 <= j < |deliveries| ==>
               && deliveries[j] < |sent| && results[deliveries[j]] == Ok(wires[j]) && |sent[deliveries[j]]| >= 8
               && arrivals[j] == Numbered(sent[deliveries[j]], RtcpSsrc(sent[deliveries[j]]), Protected(results, deliveries[j]))
    ensures Received(UnprotectRtcpAll(c, k, Empty(recvLifetime), wires)[i]) == IdealReceive(map[], recvLifetime, arrivals)[i]
  {
    hide ProtectRtcpAll, UnprotectRtcpAll, SealRtcp, IdealReceive, RtcpSsrc, Protected;
    forall j | 0 <= j < |deliveries| ensures IsSealedRtcp(c, k, arrivals[j], wires[j]) {
      ProtectRtcpAllSeals(c, k, Empty(sendLifetime), sent, deliveries[j]);
    }
    UnprotectRtcpAllIsIdeal(c, k, Empty(recvLifetime), map[], arrivals, wires, i);
  }

  /** A context that has protected and accepted nothing. */
  function Empty(lifetime: nat): RtcpContext {
    RtcpContext(0, map[], map[], 0, lifetime)
  }

  /** The context object. */
  class SrtcpContext {
    const crypto: Crypto
    const keys: SessionKeys
    var srtcpIndex: u32
    var recvStreams: map<u32, RecvState>
    var sendStreams: map<u32, nat>
    var protectedTotal: nat
    var packetLifetime: nat

    function View(): RtcpContext
      reads this
    {
      RtcpContext(srtcpIndex, recvStreams, sendStreams, protectedTotal, packetLifetime)
    }

    constructor (crypto: Crypto, keys: SessionKeys, lifetime: nat)
      ensures this.crypto == crypto && this.keys == keys
      ensures View() == Empty(Min(lifetime, MAX_RTCP_PACKETS)) && Counts(View())
    {
      this.crypto, this.keys := crypto, keys;
      srtcpIndex, recvStreams, sendStreams, protectedTotal := 0, map[], map[], 0;
      packetLifetime := if lifetime < MAX_RTCP_PACKETS then lifetime else MAX_RTCP_PACKETS;
    }

    /** `from_sdes_key_with_lifetime`, with the labels after those of SRTP. */
    static method Open(crypto: Crypto, material: Option<seq<u8>>, lifetime: u64) returns (r: Result<SrtcpContext, Error>)
      ensures r.Ok? <==> 1 <= lifetime <= MAX_LIFETIME && material.Some? && |material.value| == 30
      ensures r.Ok? ==> fresh(r.value) && r.value.keys == DeriveKeys(crypto, material.value, 3) && r.value.crypto == crypto
                        && r.value.View() == Empty(Min(lifetime, MAX_RTCP_PACKETS)) && Counts(r.value.View())
      ensures r.Err? ==> r.error == if 1 <= lifetime <= MAX_LIFETIME then InvalidKey else InvalidLifetime
    {
      if lifetime == 0 || lifetime > MAX_LIFETIME { return Err(InvalidLifetime); }
      if material.None? || |material.value| != 30 { return Err(InvalidKey); }
      var key, salt := material.value[..16], material.value[16..];
      var keys := SessionKeys(Kdf(crypto, key, salt, 3, 16), Kdf(crypto, key, salt, 5, 14), Kdf(crypto, key, salt, 4, 20));
      var context := new SrtcpContext(crypto, keys, lifetime);
      r := Ok(context);
    }

    method ProtectRtcp(packet: seq<u8>) returns (r: Result<seq<u8>, Error>)
      requires Counts(View())
      modifies this`srtcpIndex, this`sendStreams, this`protectedTotal
      ensures Counts(View())
      ensures View() == ProtectRtcpStep(crypto, keys, old(View()), packet).0
      ensures r == ProtectRtcpStep(crypto, keys, old(View()), packet).1
    {
      if |packet| < 8 { return Err(PacketTooShort); }
      var index := TakeIndex(RtcpSsrc(packet));
      if index.Err? { return Err(index.error); }
      var output := SealBytes(packet, index.value);
      r := Ok(output);
    }

    /** The state changes of `protect_rtcp`, in source order. */
    method TakeIndex(ssrc: u32) returns (r: Result<u32, Error>)
      requires Counts(View())
      modifies this`srtcpIndex, this`sendStreams, this`protectedTotal
      ensures Counts(View())
      ensures View() == SendRtcp(old(View()), ssrc).0
      ensures r == SendRtcp(old(View()), ssrc).1
    {
      SendRtcpCounts(View(), ssrc);
      hide Counts;
      if protectedTotal >= MAX_RTCP_PACKETS { return Err(IndexExhausted); }
      if ssrc !in sendStreams && |sendStreams| >= MAX_SSRCS { return Err(TooManySsrcs); }
      ghost var count := SendCount(View(), ssrc);
      if ssrc !in sendStreams { sendStreams := sendStreams[ssrc := 0]; }
      assert sendStreams == old(sendStreams)[ssrc := count];
      if sendStreams[ssrc] >= packetLifetime { return Err(LifetimeExhausted); }
      r := Ok(srtcpIndex);
      srtcpIndex := (srtcpIndex + 1) % TWO31;
      sendStreams := sendStreams[ssrc := sendStreams[ssrc] + 1];
      protectedTotal := protectedTotal + 1;
      assert sendStreams == old(sendStreams)[ssrc := count + 1];
    }

    method SealBytes(packet: seq<u8>, index: u32) returns (output: seq<u8>)
      requires |packet| >= 8
      ensures output == SealRtcp(crypto, keys, packet, index)
    {
      output := packet;
      if |output| > 8 {
        var iv := ComputeIv(keys.cipherSalt, RtcpSsrc(packet), index);
        output := ApplyKeystream(crypto, keys.cipherKey, iv, output, 8);
      }
      assert output == ApplyKeystream(crypto, keys.cipherKey, Iv(keys.cipherSalt, RtcpSsrc(packet), index), packet, 8);
      output := output + Trailer(index);
      output := output + Tag(crypto, keys.authKey, output);
    }

    method UnprotectRtcp(packet: seq<u8>) returns (r: Result<seq<u8>, Error>)
      modifies this`recvStreams
      ensures View() == UnprotectRtcpStep(crypto, keys, old(View()), packet).0
      ensures r == UnprotectRtcpStep(crypto, keys, old(View()), packet).1
    {
      if |packet| < 22 { return Err(PacketTooShort); }
      if !AuthenticRtcp(crypto, keys, packet) { return Err(AuthMismatch); }
      var ssrc, index := RtcpSsrc(packet), IndexWord(packet) % TWO31;
      if ssrc !in recvStreams && |recvStreams| >= MAX_SSRCS { return Err(TooManySsrcs); }
      ghost var st := RecvStream(View(), ssrc);
      if ssrc !in recvStreams { recvStreams := recvStreams[ssrc := FreshRecv]; }
      assert recvStreams == old(recvStreams)[ssrc := st];
      if recvStreams[ssrc].acceptedPackets >= packetLifetime { return Err(LifetimeExhausted); }
      var admitted := Admit(recvStreams[ssrc].window, index);
      if admitted.Err? { return Err(Replay(admitted.error)); }
      recvStreams := recvStreams[ssrc := RecvState(admitted.value, recvStreams[ssrc].acceptedPackets + 1)];
      assert recvStreams == old(recvStreams)[ssrc := RecvState(admitted.value, st.acceptedPackets + 1)];
      r := Ok(UnsealRtcp(crypto, keys, packet));
    }
  }
}
