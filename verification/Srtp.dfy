/** SRTP for AES_CM_128_HMAC_SHA1_80 (RFC 3711): `src/media/srtp.rs`.
    AES counter mode and HMAC-SHA1 are arbitrary functions carried by `Crypto`. */
module Srtp {
  import opened Words
  import opened ReplayWindow

  const TAG_LEN := 10
  const MAX_SSRCS := 64
  const MAX_LIFETIME: u64 := TWO48

  /** Byte `i` of the keystream of (key, iv), and byte `i` of the MAC of (key, message). */
  datatype Crypto = Crypto(keystream: (seq<u8>, seq<u8>, nat) -> u8, hmac: (seq<u8>, seq<u8>, nat) -> u8)

  datatype Error =
    | PacketTooShort | TooManySsrcs | LifetimeExhausted | HeaderTooShort | AuthMismatch
    | InvalidLifetime | InvalidKey | IndexExhausted | Replay(refusal: Refusal)

  datatype StreamState = StreamState(
    roc: u32,
    highestSeq: u16,
    initialized: bool,
    replayWindow: u64,
    protectedPackets: nat,
    acceptedPackets: nat)

  const FreshStream := StreamState(0, 0, false, 0, 0, 0)

  function IndexOf(roc: u32, sequence: u16): u64 {
    roc * TWO16 + sequence
  }

  lemma {:induction false} IndexParts(roc: u32, sequence: u16)
    ensures IndexOf(roc, sequence) / TWO16 == roc && IndexOf(roc, sequence) % TWO16 == sequence
    ensures IndexOf(roc, sequence) < TWO48
  {
  }

  function HighestIndex(st: StreamState): u64 {
    IndexOf(st.roc, st.highestSeq)
  }

  function WindowOf(st: StreamState): Window {
    Window(st.initialized, HighestIndex(st), st.replayWindow)
  }

  /** `update_roc`: the sender's rollover counter. */
  function UpdateRoc(st: StreamState, sequence: u16): StreamState {
    if !st.initialized then
      st.(highestSeq := sequence, initialized := true, replayWindow := 1)
    else if sequence < 0x8000 && st.highestSeq > 0x8000 then
      st.(roc := (st.roc + 1) % TWO32, highestSeq := sequence)
    else if sequence > st.highestSeq then
      st.(highestSeq := sequence)
    else st
  }

  /** `estimate_roc`: the receiver's guess, without a state change. */
  function EstimateRoc(st: StreamState, sequence: u16): u32 {
    if !st.initialized then 0
    else if st.highestSeq < 0x8000 then
      if sequence > st.highestSeq + 0x8000 then (st.roc - 1) % TWO32 else st.roc
    else
      if sequence < st.highestSeq - 0x8000 then (st.roc + 1) % TWO32 else st.roc
  }

  function EstimateIndex(st: StreamState, sequence: u16): u64 {
    IndexOf(EstimateRoc(st, sequence), sequence)
  }

  /** `check_replay`: refuse, or commit the window and the rollover counter. */
  function CheckReplay(st: StreamState, sequence: u16): Result<(StreamState, u64), Refusal> {
    if !st.initialized then
      Ok((st.(highestSeq := sequence, initialized := true, replayWindow := 1), sequence))
    else
      var index := EstimateIndex(st, sequence);
      if index > HighestIndex(st) then
        var delta := index - HighestIndex(st);
        var bits: u64 := if delta < 64 then Or64(Shl64(st.replayWindow, delta), 1) else 1;
        Ok((st.(replayWindow := bits, highestSeq := sequence, roc := EstimateRoc(st, sequence)), index))
      else
        var delta := HighestIndex(st) - index;
        if delta >= 64 then Err(TooOld)
        else if And(st.replayWindow, Shl64(1, delta)) != 0 then Err(Duplicate)
        else Ok((st.(replayWindow := Or64(st.replayWindow, Shl64(1, delta))), index))
  }

  /** `reset_sequence_state`: packet counts survive, so a reset never renews a key's lifetime. */
  function ResetSequence(st: StreamState): StreamState {
    st.(roc := 0, highestSeq := 0, initialized := false, replayWindow := 0)
  }

  // ---- rollover arithmetic ----

  /** A step from a highest sequence number that the 16-bit comparison resolves: half a cycle either
      way. At distance exactly 2^15 the answer depends on which half of its cycle the highest is in. */
  predicate Resolved(highestSeq: u16, step: int) {
    if highestSeq < 0x8000 then -0x8000 < step <= 0x8000 else -0x8000 <= step < 0x8000
  }

  /** `x` is resolved from `h`. */
  predicate Near(h: int, x: int) {
    Resolved(h % TWO16, x - h)
  }

  lemma {:induction false} EstimatedCycle(st: StreamState, cycle: u32, low: u16)
    requires st.initialized
    ensures var step := IndexOf(cycle, low) - HighestIndex(st);
            EstimateRoc(st, low) == cycle <==>
              Resolved(st.highestSeq, step) || Resolved(st.highestSeq, step + TWO48) || Resolved(st.highestSeq, step - TWO48)
  {
  }

  /** The estimate is right exactly when the packet is near the highest index, counting
      indices modulo 2^48. */
  lemma {:induction false} EstimateIsExact(st: StreamState, x: nat)
    requires st.initialized && x < TWO48
    ensures EstimateIndex(st, x % TWO16) == x
       <==> var h := HighestIndex(st); Near(h, x) || Near(h, x + TWO48) || Near(h + TWO48, x)
  {
    hide EstimateRoc, Resolved;
    var h := HighestIndex(st);
    assert h % TWO16 == st.highestSeq && (h + TWO48) % TWO16 == st.highestSeq;
    EstimatedCycle(st, x / TWO16, x % TWO16);
  }

  /** How far ahead of a highest sequence number the wrap test still tells the cycle, and how far
      behind it. */
  function Ahead(highestSeq: u16): nat {
    if highestSeq <= 0x8000 then 0x10000 - highestSeq else 0x18000 - highestSeq
  }

  function Behind(highestSeq: u16): nat {
    if highestSeq <= 0x8000 then highestSeq else highestSeq - 0x8000
  }

  predicate Told(highestSeq: u16, step: int) {
    0 <= step + Behind(highestSeq) && step < Ahead(highestSeq)
  }

  /** The sender stamps packet `x` with index `x` exactly when its step from the highest index is told,
      counting indices modulo 2^48; a step forward then becomes the highest. */
  lemma {:induction false} UpdateRocIsExact(st: StreamState, x: nat)
    requires st.initialized && x < TWO48
    ensures var step := x - HighestIndex(st);
            IndexOf(UpdateRoc(st, x % TWO16).roc, x % TWO16) == x <==>
              Told(st.highestSeq, step) || Told(st.highestSeq, step + TWO48)
    ensures x > HighestIndex(st) ==>
              (HighestIndex(UpdateRoc(st, x % TWO16)) == x <==> x - HighestIndex(st) < Ahead(st.highestSeq))
  {
    assert x == x / TWO16 * TWO16 + x % TWO16;
  }

  /** Forward steps shorter than half a cycle keep the sender's index true. */
  lemma {:induction false} ForwardStepTracks(st: StreamState, x: nat)
    requires st.initialized && x < TWO48
    requires HighestIndex(st) < x <= HighestIndex(st) + 0x7FFF
    ensures HighestIndex(UpdateRoc(st, x % TWO16)) == x
    ensures UpdateRoc(st, x % TWO16).highestSeq == x % TWO16
  {
    UpdateRocIsExact(st, x);
    IndexParts(UpdateRoc(st, x % TWO16).roc, UpdateRoc(st, x % TWO16).highestSeq);
  }

  /** At the bound the promise fails: half a cycle forward from 0x8000 is not seen as a wrap. */
  lemma {:induction false} HalfCycleStepIsMissed()
    ensures var st := StreamState(0, 0x8000, true, 1, 0, 0);
            HighestIndex(st) + 0x8000 == TWO16 && HighestIndex(UpdateRoc(st, TWO16 % TWO16)) != TWO16
  {
    UpdateRocIsExact(StreamState(0, 0x8000, true, 1, 0, 0), TWO16);
  }

  // ---- replay protection ----

  /** `check_replay` is the shared window applied to the estimated index. */
  lemma {:induction false} CheckReplayIsAdmit(st: StreamState, sequence: u16)
    requires st.initialized || st.roc == 0
    ensures var r, a := CheckReplay(st, sequence), Admit(WindowOf(st), EstimateIndex(st, sequence));
            && (r.Ok? <==> a.Ok?)
            && (r.Ok? ==> r.value.0.initialized && WindowOf(r.value.0) == a.value && r.value.1 == EstimateIndex(st, sequence))
            && (r.Err? ==> r.error == a.error)
  {
  }

  /** Feed 16-bit sequence numbers one after another; `None` is a refusal. */
  function ReplayRun(st: StreamState, sequences: seq<u16>): (r: (StreamState, seq<Option<u64>>))
    ensures |r.1| == |sequences|
    decreases |sequences|
  {
    if sequences == [] then (st, [])
    else
      var first := CheckReplay(st, sequences[0]);
      var (end, rest) := ReplayRun(if first.Ok? then first.value.0 else st, sequences[1..]);
      (end, [if first.Ok? then Some(first.value.1) else None] + rest)
  }

  ghost function Returned(results: seq<Option<u64>>, n: nat): set<nat>
    requires n <= |results|
  {
    set i | 0 <= i < n && results[i].Some? :: results[i].value
  }

  /** For every 16-bit input sequence, including rollover past 2^48: the bitmap shows exactly
      the indices returned so far, and none is returned twice. */
  lemma {:induction false} ReplayRunRefinesSet(st: StreamState, seen: set<nat>, sequences: seq<u16>)
    requires st.initialized || st.roc == 0
    requires Represents(WindowOf(st), seen)
    ensures var (end, results) := ReplayRun(st, sequences);
            && Represents(WindowOf(end), seen + Returned(results, |results|))
            && (forall i :: 0 <= i < |results| && results[i].Some? ==> results[i].value !in seen)
            && (forall i, j :: 0 <= i < j < |results| && results[i].Some? && results[j].Some? ==>
                  results[i].value != results[j].value)
    decreases |sequences|
  {
    hide CheckReplay, Admit, Represents, WindowOf, EstimateIndex;
    var (end, results) := ReplayRun(st, sequences);
    if sequences == [] {
      assert seen + Returned(results, 0) == seen;
    } else {
      CheckReplayIsAdmit(st, sequences[0]);
      AdmitRefinesSet(WindowOf(st), seen, EstimateIndex(st, sequences[0]));
      var first := CheckReplay(st, sequences[0]);
      var st' := if first.Ok? then first.value.0 else st;
      var seen' := if first.Ok? then seen + {first.value.1} else seen;
      ReplayRunRefinesSet(st', seen', sequences[1..]);
      var rest := ReplayRun(st', sequences[1..]).1;
      assert results == [results[0]] + rest;
      assert forall i :: 0 < i < |results| ==> results[i] == rest[i - 1];
      ReturnedTail(results);
      assert seen' + Returned(rest, |rest|) == seen + Returned(results, |results|);
    }
  }

  lemma {:induction false} ReturnedTail(results: seq<Option<u64>>)
    requires results != []
    ensures Returned(results, |results|)
         == (if results[0].Some? then {results[0].value} else {}) + Returned(results[1..], |results| - 1)
  {
    var rest := results[1..];
    forall x | x in Returned(results, |results|)
      ensures x in (if results[0].Some? then {results[0].value} else {}) + Returned(rest, |rest|)
    {
      var i :| 0 <= i < |results| && results[i].Some? && results[i].value == x;
      if i > 0 { assert rest[i - 1] == results[i]; }
    }
    forall x | x in Returned(rest, |rest|) ensures x in Returned(results, |results|) {
      var i :| 0 <= i < |rest| && rest[i].Some? && rest[i].value == x;
      assert results[i + 1] == rest[i];
    }
  }

  /** `now` has seen nothing, takes any sequence number as one of cycle 0, and has the packet counts,
      hence the key lifetime, of `was`. */
  ghost predicate StartsOver(was: StreamState, now: StreamState) {
    && Represents(WindowOf(now), {})
    && (forall sequence: u16 :: CheckReplay(now, sequence).Ok? && CheckReplay(now, sequence).value.1 == sequence)
    && (forall sequence: u16 :: HighestIndex(UpdateRoc(now, sequence)) == sequence)
    && now.acceptedPackets == was.acceptedPackets && now.protectedPackets == was.protectedPackets
  }

  lemma {:induction false} ResetStartsOver(st: StreamState)
    ensures StartsOver(st, ResetSequence(st))
  {
  }
}
