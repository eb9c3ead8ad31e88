/** `SrtpContext` of `src/media/srtp.rs`: session keys, initialisation vectors, the packet transforms
    of `protect` and `unprotect`, and the context object. */
module SrtpContext {
  import opened Words
  import opened ReplayWindow
  import opened Srtp
  import Rtp

  type Salt = s: seq<u8> | |s| == 14 witness [0, 0, 0, 0, 0, 0, 0, 0, 0, 0, 0, 0, 0, 0]

  datatype SessionKeys = SessionKeys(cipherKey: seq<u8>, cipherSalt: Salt, authKey: seq<u8>)

  // ---- initialisation vectors ----

  function IvPlain(ssrc: u32, index: u64): (r: seq<u8>)
    ensures |r| == 16
  {
    [0, 0, 0, 0] + ToBe32(ssrc) + ToBe64(index * TWO16 % TWO64)
  }

  /** `compute_iv` and `compute_srtcp_iv`: SSRC at bytes 4-7, index at bytes 8-13, salted. */
  function Iv(salt: Salt, ssrc: u32, index: u64): (r: seq<u8>)
    ensures |r| == 16
  {
    var plain := IvPlain(ssrc, index);
    seq<u8>(16, i requires 0 <= i < 16 => if i < 14 then Xor8(plain[i], salt[i]) else plain[i])
  }

  /** The source's loop over the salt. */
  method ComputeIv(salt: Salt, ssrc: u32, index: u64) returns (r: seq<u8>)
    ensures r == Iv(salt, ssrc, index)
  {
    var plain := IvPlain(ssrc, index);
    var iv := new u8[16](i requires 0 <= i < 16 => plain[i]);
    for i := 0 to 14
      invariant forall j :: 0 <= j < i ==> iv[j] == Xor8(plain[j], salt[j])
      invariant forall j :: i <= j < 16 ==> iv[j] == plain[j]
    {
      iv[i] := Xor8(iv[i], salt[i]);
    }
    r := iv[..];
  }

  /** Under one salt, distinct (SSRC, 48-bit index) pairs never share an IV. */
  lemma {:induction false} IvInjective(salt: Salt, ssrc1: u32, index1: u64, ssrc2: u32, index2: u64)
    requires index1 < TWO48 && index2 < TWO48
    requires Iv(salt, ssrc1, index1) == Iv(salt, ssrc2, index2)
    ensures ssrc1 == ssrc2 && index1 == index2
  {
    var p, q := IvPlain(ssrc1, index1), IvPlain(ssrc2, index2);
    forall i | 0 <= i < 16 ensures p[i] == q[i] {
      assert Iv(salt, ssrc1, index1)[i] == Iv(salt, ssrc2, index2)[i];
      if i < 14 {
        XorInvolutive(p[i], salt[i]);
        XorInvolutive(q[i], salt[i]);
      }
    }
    IvPlainInjective(ssrc1, index1, ssrc2, index2);
  }

  lemma {:induction false} IvPlainInjective(ssrc1: u32, index1: u64, ssrc2: u32, index2: u64)
    requires index1 < TWO48 && index2 < TWO48
    requires IvPlain(ssrc1, index1) == IvPlain(ssrc2, index2)
    ensures ssrc1 == ssrc2 && index1 == index2
  {
    IvPlainParts(ssrc1, index1);
    IvPlainParts(ssrc2, index2);
    ToBe32Injective(ssrc1, ssrc2);
    ToBe64Injective(index1 * TWO16, index2 * TWO16);
  }

  lemma {:induction false} IvPlainParts(ssrc: u32, index: u64)
    requires index < TWO48
    ensures IvPlain(ssrc, index)[4..8] == ToBe32(ssrc)
    ensures IvPlain(ssrc, index)[8..] == ToBe64(index * TWO16)
  {
    assert index * TWO16 % TWO64 == index * TWO16;
  }

  // ---- session keys ----

  /** The IV of one derivation: the label at byte 7, salted. */
  function KdfIv(salt: Salt, mark: u8): (r: seq<u8>)
    ensures |r| == 16
  {
    seq<u8>(16, i requires 0 <= i < 16 => if i < 14 then Xor8(if i == 7 then mark else 0, salt[i]) else 0)
  }

  /** `srtp_kdf`: the keystream over zeros. */
  function Kdf(c: Crypto, key: seq<u8>, salt: Salt, mark: u8, n: nat): (r: seq<u8>)
    ensures |r| == n
  {
    seq<u8>(n, i requires 0 <= i < n => c.keystream(key, KdfIv(salt, mark), i))
  }

  /** 16 bytes of master key and 14 of master salt give three session keys, at the labels from `mark` on. */
  function DeriveKeys(c: Crypto, material: seq<u8>, mark: u8): SessionKeys
    requires |material| == 30 && mark <= 3
  {
    SessionKeys(Kdf(c, material[..16], material[16..], mark, 16), Kdf(c, material[..16], material[16..], mark + 2, 14),
                Kdf(c, material[..16], material[16..], mark + 1, 20))
  }

  /** No two of the six session keys of a master key are cut from the same keystream. */
  lemma {:induction false} KdfIvsDiffer(salt: Salt, a: u8, b: u8)
    requires a != b
    ensures KdfIv(salt, a) != KdfIv(salt, b)
  {
    XorInvolutive(a, salt[7]);
    XorInvolutive(b, salt[7]);
    assert KdfIv(salt, a)[7] == Xor8(a, salt[7]) && KdfIv(salt, b)[7] == Xor8(b, salt[7]);
  }

  // ---- packet transforms ----

  /** XOR everything from byte `from` on with the keystream. */
  function ApplyKeystream(c: Crypto, key: seq<u8>, iv: seq<u8>, p: seq<u8>, from: nat): (r: seq<u8>)
    requires from <= |p|
    ensures |r| == |p| && r[..from] == p[..from]
  {
    p[..from] + seq<u8>(|p| - from, i requires 0 <= i < |p| - from => Xor8(p[from + i], c.keystream(key, iv, i)))
  }

  lemma {:induction false} ApplyKeystreamTwice(c: Crypto, key: seq<u8>, iv: seq<u8>, p: seq<u8>, from: nat)
    requires from <= |p|
    ensures ApplyKeystream(c, key, iv, ApplyKeystream(c, key, iv, p, from), from) == p
  {
    hide Xor;
    forall i | from <= i < |p| ensures Xor8(Xor8(p[i], c.keystream(key, iv, i - from)), c.keystream(key, iv, i - from)) == p[i] {
      XorInvolutive(p[i], c.keystream(key, iv, i - from));
    }
  }

  function Tag(c: Crypto, key: seq<u8>, message: seq<u8>): (r: seq<u8>)
    ensures |r| == TAG_LEN
  {
    seq<u8>(TAG_LEN, i requires 0 <= i < TAG_LEN => c.hmac(key, message, i))
  }

  /** What goes on the wire for packet `p` at extended index `x`. */
  function Seal(c: Crypto, k: SessionKeys, p: seq<u8>, x: nat): (r: seq<u8>)
    requires Rtp.HeaderLen(p).Some? && x < TWO48
    ensures |r| == |p| + TAG_LEN
  {
    var iv := Iv(k.cipherSalt, Rtp.Ssrc(p), x);
    var body := ApplyKeystream(c, k.cipherKey, iv, p, Rtp.HeaderLen(p).value);
    body + Tag(c, k.authKey, body + ToBe32(x / TWO16))
  }

  // ---- the context ----

  datatype Context = Context(streams: map<u32, StreamState>, lifetime: nat)

  function Stream(s: Context, ssrc: u32): StreamState {
    if ssrc in s.streams then s.streams[ssrc] else FreshStream
  }

  /** The stream bookkeeping of `protect`, which yields the extended index to seal at. */
  function SendStep(s: Context, ssrc: u32, sequence: u16, headerOk: bool): (r: (Context, Result<u64, Error>))
    ensures r.1.Ok? ==> headerOk && r.1.value < TWO48
  {
    if ssrc !in s.streams && |s.streams| >= MAX_SSRCS then (s, Err(TooManySsrcs))
    else
      var st := Stream(s, ssrc);
      if st.protectedPackets >= s.lifetime then (s.(streams := s.streams[ssrc := st]), Err(LifetimeExhausted))
      else
        var st' := UpdateRoc(st, sequence);
        if !headerOk then (s.(streams := s.streams[ssrc := st']), Err(HeaderTooShort))
        else
          (s.(streams := s.streams[ssrc := st'.(protectedPackets := st.protectedPackets + 1)]),
           Ok(IndexOf(st'.roc, sequence)))
  }

  /** The stream bookkeeping of `unprotect` once the tag has matched. */
  function ReceiveStep(s: Context, ssrc: u32, sequence: u16, headerOk: bool): (r: (Context, Result<u64, Error>))
    ensures r.1.Ok? ==> headerOk
  {
    if ssrc !in s.streams && |s.streams| >= MAX_SSRCS then (s, Err(TooManySsrcs))
    else
      var st := Stream(s, ssrc);
      if st.acceptedPackets >= s.lifetime then (s.(streams := s.streams[ssrc := st]), Err(LifetimeExhausted))
      else match CheckReplay(st, sequence)
        case Err(refusal) => (s.(streams := s.streams[ssrc := st]), Err(Replay(refusal)))
        case Ok((st', index)) =>
          if !headerOk then (s.(streams := s.streams[ssrc := st']), Err(HeaderTooShort))
          else (s.(streams := s.streams[ssrc := st'.(acceptedPackets := st'.acceptedPackets + 1)]), Ok(index))
  }

  function ProtectStep(c: Crypto, k: SessionKeys, s: Context, p: seq<u8>): (Context, Result<seq<u8>, Error>) {
    if |p| < 12 then (s, Err(PacketTooShort))
    else
      var (s', index) := SendStep(s, Rtp.Ssrc(p), Rtp.Sequence(p), Rtp.HeaderLen(p).Some?);
      (s', if index.Ok? then Ok(Seal(c, k, p, index.value)) else Err(index.error))
  }

  function Authentic(c: Crypto, k: SessionKeys, w: seq<u8>, roc: u32): bool
    requires |w| >= TAG_LEN
  {
    Tag(c, k.authKey, w[..|w| - TAG_LEN] + ToBe32(roc)) == w[|w| - TAG_LEN..]
  }

  /** Strip the tag and decrypt at extended index `x`. */
  function Unseal(c: Crypto, k: SessionKeys, w: seq<u8>, x: nat): seq<u8>
    requires |w| >= TAG_LEN && x < TWO64 && Rtp.HeaderLen(w[..|w| - TAG_LEN]).Some?
  {
    var body := w[..|w| - TAG_LEN];
    ApplyKeystream(c, k.cipherKey, Iv(k.cipherSalt, Rtp.Ssrc(body), x), body, Rtp.HeaderLen(body).value)
  }

  function UnprotectStep(c: Crypto, k: SessionKeys, s: Context, w: seq<u8>): (Context, Result<seq<u8>, Error>) {
    if |w| < 12 + TAG_LEN then (s, Err(PacketTooShort))
    else
      var ssrc, sequence := Rtp.Ssrc(w), Rtp.Sequence(w);
      if !Authentic(c, k, w, EstimateRoc(Stream(s, ssrc), sequence)) then (s, Err(AuthMismatch))
      else
        var (s', index) := ReceiveStep(s, ssrc, sequence, Rtp.HeaderLen(w[..|w| - TAG_LEN]).Some?);
        (s', if index.Ok? then Ok(Unseal(c, k, w, index.value)) else Err(index.error))
  }

  /** A sealed packet keeps its clear header and authenticates under its own cycle; unsealing
      at the same index gives the packet back. */
  lemma {:induction false} SealUnseal(c: Crypto, k: SessionKeys, p: seq<u8>, x: nat)
    requires Rtp.HeaderLen(p).Some? && x < TWO48
    ensures var w := Seal(c, k, p, x);
            && Rtp.Ssrc(w) == Rtp.Ssrc(p) && Rtp.Sequence(w) == Rtp.Sequence(p)
            && Rtp.HeaderLen(w[..|w| - TAG_LEN]) == Rtp.HeaderLen(p)
            && Authentic(c, k, w, x / TWO16)
            && Unseal(c, k, w, x) == p
  {
    var w, h := Seal(c, k, p, x), Rtp.HeaderLen(p).value;
    var iv := Iv(k.cipherSalt, Rtp.Ssrc(p), x);
    var body := ApplyKeystream(c, k.cipherKey, iv, p, h);
    assert w[..|w| - TAG_LEN] == body && w[|w| - TAG_LEN..] == Tag(c, k.authKey, body + ToBe32(x / TWO16));
    assert w[..h] == body[..h];
    Rtp.HeaderLenReadsOnlyHeader(p, w);
    Rtp.HeaderLenReadsOnlyHeader(p, body);
    ApplyKeystreamTwice(c, k.cipherKey, iv, p, h);
  }

  /** The context object: per-SSRC state in a map that each call updates in place. */
  class SrtpContext {
    const crypto: Crypto
    const keys: SessionKeys
    var streams: map<u32, StreamState>
    var packetLifetime: nat

    function View(): Context
      reads this
    {
      Context(streams, packetLifetime)
    }

    constructor (crypto: Crypto, keys: SessionKeys, lifetime: nat)
      ensures this.crypto == crypto && this.keys == keys
      ensures View() == Context(map[], lifetime)
    {
      this.crypto, this.keys := crypto, keys;
      streams, packetLifetime := map[], lifetime;
    }

    /** `from_sdes_key_with_lifetime`; `material` is what base64 decoding gave, if anything. */
    static method Open(crypto: Crypto, material: Option<seq<u8>>, lifetime: u64) returns (r: Result<SrtpContext, Error>)
      ensures r.Ok? <==> 1 <= lifetime <= MAX_LIFETIME && material.Some? && |material.value| == 30
      ensures r.Ok? ==> fresh(r.value) && r.value.keys == DeriveKeys(crypto, material.value, 0) && r.value.crypto == crypto
                        && r.value.View() == Context(map[], lifetime)
      ensures r.Err? ==> r.error == if 1 <= lifetime <= MAX_LIFETIME then InvalidKey else InvalidLifetime
    {
      if lifetime == 0 || lifetime > MAX_LIFETIME { return Err(InvalidLifetime); }
      if material.None? || |material.value| != 30 { return Err(InvalidKey); }
      var key, salt := material.value[..16], material.value[16..];
      var keys := SessionKeys(Kdf(crypto, key, salt, 0, 16), Kdf(crypto, key, salt, 2, 14), Kdf(crypto, key, salt, 1, 20));
      var context := new SrtpContext(crypto, keys, lifetime);
      r := Ok(context);
    }

    method Protect(packet: seq<u8>) returns (r: Result<seq<u8>, Error>)
      modifies this`streams
      ensures View() == ProtectStep(crypto, keys, old(View()), packet).0
      ensures r == ProtectStep(crypto, keys, old(View()), packet).1
    {
      hide SendStep, Iv, Tag, ToBe32, FromBe16, FromBe32, Rtp.HeaderLen, Xor8;
      if |packet| < 12 { return Err(PacketTooShort); }
      var sequence := Rtp.Sequence(packet);
      var headerLen := Rtp.HeaderLen(packet);
      var admitted := BeginProtect(Rtp.Ssrc(packet), sequence, headerLen.Some?);
      if admitted.Err? { return Err(admitted.error); }
      var iv := ComputeIv(keys.cipherSalt, Rtp.Ssrc(packet), admitted.value);
      var output := ApplyKeystream(crypto, keys.cipherKey, iv, packet, headerLen.value);
      r := Ok(output + Tag(crypto, keys.authKey, output + ToBe32(admitted.value / TWO16)));
    }

    /** The state changes of `protect`, in source order. */
    method BeginProtect(ssrc: u32, sequence: u16, headerOk: bool) returns (r: Result<u64, Error>)
      modifies this`streams
      ensures View() == SendStep(old(View()), ssrc, sequence, headerOk).0
      ensures r == SendStep(old(View()), ssrc, sequence, headerOk).1
    {
      if ssrc !in streams && |streams| >= MAX_SSRCS { return Err(TooManySsrcs); }
      ghost var st := Stream(View(), ssrc);
      if ssrc !in streams { streams := streams[ssrc := FreshStream]; }
      assert streams == old(streams)[ssrc := st];
      if streams[ssrc].protectedPackets >= packetLifetime { return Err(LifetimeExhausted); }
      streams := streams[ssrc := UpdateRoc(streams[ssrc], sequence)];
      assert streams == old(streams)[ssrc := UpdateRoc(st, sequence)];
      if !headerOk { return Err(HeaderTooShort); }
      r := Ok(IndexOf(streams[ssrc].roc, sequence));
      streams := streams[ssrc := streams[ssrc].(protectedPackets := streams[ssrc].protectedPackets + 1)];
      assert streams == old(streams)[ssrc := UpdateRoc(st, sequence).(protectedPackets := st.protectedPackets + 1)];
    }

    method Unprotect(packet: seq<u8>) returns (r: Result<seq<u8>, Error>)
      modifies this`streams
      ensures View() == UnprotectStep(crypto, keys, old(View()), packet).0
      ensures r == UnprotectStep(crypto, keys, old(View()), packet).1
    {
      hide ReceiveStep, Iv, Tag, ToBe32, FromBe16, FromBe32, Rtp.HeaderLen, Xor8;
      if |packet| < 12 + TAG_LEN { return Err(PacketTooShort); }
      var body := packet[..|packet| - TAG_LEN];
      var ssrc, sequence := Rtp.Ssrc(packet), Rtp.Sequence(packet);
      var roc := if ssrc in streams then EstimateRoc(streams[ssrc], sequence) else 0;
      if !Authentic(crypto, keys, packet, roc) { return Err(AuthMismatch); }
      var headerLen := Rtp.HeaderLen(body);
      var admitted := CommitUnprotect(ssrc, sequence, headerLen.Some?);
      if admitted.Err? { return Err(admitted.error); }
      var iv := ComputeIv(keys.cipherSalt, ssrc, admitted.value);
      r := Ok(ApplyKeystream(crypto, keys.cipherKey, iv, body, headerLen.value));
    }

    /** The state changes of `unprotect` after authentication, in source order. */
    method CommitUnprotect(ssrc: u32, sequence: u16, headerOk: bool) returns (r: Result<u64, Error>)
      modifies this`streams
      ensures View() == ReceiveStep(old(View()), ssrc, sequence, headerOk).0
      ensures r == ReceiveStep(old(View()), ssrc, sequence, headerOk).1
    {
      if ssrc !in streams && |streams| >= MAX_SSRCS { return Err(TooManySsrcs); }
      ghost var st := Stream(View(), ssrc);
      if ssrc !in streams { streams := streams[ssrc := FreshStream]; }
      assert streams == old(streams)[ssrc := st];
      if streams[ssrc].acceptedPackets >= packetLifetime { return Err(LifetimeExhausted); }
      var checked := CheckReplay(streams[ssrc], sequence);
      if checked.Err? { return Err(Replay(checked.error)); }
      var (st', index) := checked.value;
      streams := streams[ssrc := st'];
      assert streams == old(streams)[ssrc := st'];
      if !headerOk { return Err(HeaderTooShort); }
      streams := streams[ssrc := streams[ssrc].(acceptedPackets := streams[ssrc].acceptedPackets + 1)];
      assert streams == old(streams)[ssrc := st'.(acceptedPackets := st'.acceptedPackets + 1)];
      r := Ok(index);
    }

    /** `reset_sequence_state`: every stream starts over, none is dropped and no lifetime is renewed. */
    method ResetSequenceState()
      modifies this`streams
      ensures streams.Keys == old(streams.Keys) && packetLifetime == old(packetLifetime)
      ensures forall ssrc :: ssrc in streams ==> StartsOver(old(streams)[ssrc], streams[ssrc])
    {
      hide StartsOver, ResetSequence;
      var left := streams.Keys;
      while left != {}
        invariant streams.Keys == old(streams.Keys) && left <= streams.Keys
        invariant forall ssrc :: ssrc in left ==> streams[ssrc] == old(streams)[ssrc]
        invariant forall ssrc :: ssrc in streams && ssrc !in left ==> StartsOver(old(streams)[ssrc], streams[ssrc])
        decreases left
      {
        var ssrc :| ssrc in left;
        ResetStartsOver(streams[ssrc]);
        streams := streams[ssrc := ResetSequence(streams[ssrc])];
        left := left - {ssrc};
      }
    }
  }
}
