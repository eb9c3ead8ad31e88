/** Sequence unwrapping and reordering of recorded packets, from `src/bin/pcap2audio.rs`: a
    channel's arrivals are cut into epochs and each epoch is put back into sender order. */
module Epochs {
  import opened Arithmetic
  import opened Words
  import opened Sequences

  const BEHIND := 512
  const AHEAD := 16384

  /** `epoch` counts the stream descriptors seen before the packet; `capture` is in nanoseconds. */
  datatype RtpPacket = RtpPacket(seqno: u16, timestamp: u32, ssrc: u32, epoch: nat, capture: nat, codec: Codec, payload: seq<u8>)

  datatype Codec = Pcmu | G722 | Opus | L16(rate: pos)

  /** The distance from `a` to `b` as a signed 16-bit number. */
  function SignedDelta(a: u16, b: u16): int {
    var d := (b - a) % TWO16;
    if d < 32768 then d else d - TWO16
  }

  // ---- the keys of one epoch ----

  /** The unwrapped number of arrival `i`: signed steps added up. */
  function Extended(p: seq<RtpPacket>, i: nat): int
    requires i < |p|
  {
    if i == 0 then p[0].seqno else Extended(p, i - 1) + SignedDelta(p[i - 1].seqno, p[i].seqno)
  }

  /** The highest unwrapped number up to arrival `i`. */
  function Highest(p: seq<RtpPacket>, i: nat): int
    requires i < |p|
  {
    if i == 0 then Extended(p, 0) else Max(Highest(p, i - 1), Extended(p, i))
  }

  /** Arrival `i` continues the epoch that starts at arrival 0. */
  predicate Continues(p: seq<RtpPacket>, i: nat)
    requires i < |p|
  {
    && p[i].epoch == p[0].epoch && p[i].ssrc == p[0].ssrc
    && (i > 0 ==> Highest(p, i - 1) - BEHIND <= Extended(p, i) <= Highest(p, i - 1) + AHEAD)
  }

  lemma {:induction false} NextNumber(p: seq<RtpPacket>, i: nat)
    requires i < |p|
    ensures Extended(p, i)
         == if i == 0 then p[0].seqno as int else Extended(p, i - 1) + SignedDelta(p[i - 1].seqno, p[i].seqno)
    ensures Highest(p, i) == if i == 0 then Extended(p, 0) else Max(Highest(p, i - 1), Extended(p, i))
  {
  }

  /** One pass over the arrivals gives the numbers of the longest epoch they start with. */
  method EpochKeys(p: seq<RtpPacket>) returns (keys: seq<int>)
    ensures |keys| <= |p| && (p != [] ==> keys != [])
    ensures forall i | 0 <= i < |keys| :: keys[i] == Extended(p, i) && Continues(p, i)
    ensures |keys| < |p| ==> !Continues(p, |keys|)
  {
    hide Extended, Highest, SignedDelta;
    keys := [];
    if p == [] {
      return;
    }
    var previous: Option<u16> := None;
    var extended: int := 0;
    var highest: int := p[0].seqno;
    for i := 0 to |p|
      invariant |keys| == i
      invariant forall j | 0 <= j < i :: keys[j] == Extended(p, j) && Continues(p, j)
      invariant if i == 0 then previous == None && highest == p[0].seqno
                else previous == Some(p[i - 1].seqno) && extended == Extended(p, i - 1) && highest == Highest(p, i - 1)
    {
      NextNumber(p, i);
      if p[i].epoch != p[0].epoch || p[i].ssrc != p[0].ssrc {
        break;
      }
      match previous {
        case None => extended := p[i].seqno;
        case Some(last) => extended := extended + SignedDelta(last, p[i].seqno);
      }
      if extended < highest - BEHIND || extended > highest + AHEAD {
        break;
      }
      keys := keys + [extended];
      highest := Max(highest, extended);
      previous := Some(p[i].seqno);
    }
  }

  /** The longest epoch that the arrivals start with: its length and its numbers. */
  function EpochLength(p: seq<RtpPacket>, i: nat): (n: nat)
    requires i <= |p| && forall j | 0 <= j < i :: Continues(p, j)
    ensures i <= n <= |p| && (forall j | 0 <= j < n :: Continues(p, j)) && (n < |p| ==> !Continues(p, n))
    decreases |p| - i
  {
    if i < |p| && Continues(p, i) then EpochLength(p, i + 1) else i
  }

  function Keys(p: seq<RtpPacket>): seq<int> {
    seq(|p|, i requires 0 <= i < |p| => Extended(p, i))
  }

  // ---- true sequence numbers ----

  ghost function Top(x: seq<int>, i: nat): int
    requires i < |x|
  {
    if i == 0 then x[0] else Max(Top(x, i - 1), x[i])
  }

  /** The arrivals carry the low 16 bits of `x`, and none is out of the reordering window. */
  ghost predicate Arrivals(p: seq<RtpPacket>, x: seq<int>) {
    && |x| == |p|
    && (forall i | 0 <= i < |p| :: p[i].seqno == x[i] % TWO16)
    && (forall i | 0 <= i < |p| :: p[i].epoch == p[0].epoch && p[i].ssrc == p[0].ssrc)
    && (forall i | 0 < i < |p| :: Top(x, i - 1) - BEHIND <= x[i] <= Top(x, i - 1) + AHEAD)
  }

  lemma {:induction false} TopIsNear(x: seq<int>, i: nat)
    requires i < |x| && (i > 0 ==> Top(x, i - 1) - BEHIND <= x[i])
    ensures x[i] <= Top(x, i) <= x[i] + BEHIND
  {
  }

  lemma {:induction false} SignedDeltaIsExact(a: int, b: int)
    requires -32768 <= b - a < 32768
    ensures SignedDelta(a % TWO16, b % TWO16) == b - a
  {
    assert (b % TWO16 - a % TWO16) % TWO16 == (b - a) % TWO16;
  }

  /** Across any number of 16-bit wraps the keys are the true numbers, up to the multiple of 2^16
      that the first packet cannot tell, and no arrival is cut off. */
  lemma {:induction false} KeysAreTrueNumbers(p: seq<RtpPacket>, x: seq<int>, i: nat)
    requires Arrivals(p, x) && i < |p|
    ensures Extended(p, i) == x[i] - (x[0] - x[0] % TWO16)
    ensures Highest(p, i) == Top(x, i) - (x[0] - x[0] % TWO16)
    ensures Continues(p, i)
  {
    if i > 0 {
      KeysAreTrueNumbers(p, x, i - 1);
      TopIsNear(x, i - 1);
      SignedDeltaIsExact(x[i - 1], x[i]);
    }
  }

  // ---- epochs of a channel ----

  function EpochsOf(p: seq<RtpPacket>): seq<seq<RtpPacket>>
    decreases |p|
  {
    if p == [] then []
    else
      var n := EpochLength(p, 0);
      assert n > 0 by { assert Continues(p, 0); }
      [p[..n]] + EpochsOf(p[n..])
  }

  /** Epochs partition the arrivals, in order, and none is empty. */
  lemma {:induction false} EpochsPartition(p: seq<RtpPacket>)
    ensures Flat(EpochsOf(p)) == p
    ensures forall e <- EpochsOf(p) :: e != [] && EpochLength(e, 0) == |e|
    decreases |p|
  {
    if p != [] {
      var n := EpochLength(p, 0);
      assert Continues(p, 0);
      EpochsPartition(p[n..]);
      assert EpochsOf(p)[1..] == EpochsOf(p[n..]);
      assert p == p[..n] + p[n..];
      forall j | 0 <= j < n ensures Continues(p[..n], j) { PrefixContinues(p, n, j); }
    }
  }

  lemma {:induction false} PrefixContinues(p: seq<RtpPacket>, n: nat, i: nat)
    requires i < n <= |p|
    ensures Extended(p[..n], i) == Extended(p, i) && Highest(p[..n], i) == Highest(p, i)
    ensures Continues(p[..n], i) == Continues(p, i)
  {
    if i > 0 { PrefixContinues(p, n, i - 1); }
  }

  /** A recording whose arrivals all stay in the window is one epoch. */
  lemma {:induction false} WindowedIsOneEpoch(p: seq<RtpPacket>, x: seq<int>)
    requires Arrivals(p, x) && p != []
    ensures EpochsOf(p) == [p]
  {
    var n := EpochLength(p, 0);
    if n < |p| { KeysAreTrueNumbers(p, x, n); }
    assert p[..n] == p && p[n..] == [];
    assert EpochsOf(p[n..]) == [];
    assert Continues(p, 0);
  }

  // ---- sender order ----

  /** Index `i` comes before index `j`: smaller key, and arrival order among equals. */
  predicate Before(keys: seq<int>, i: nat, j: nat)
    requires i < |keys| && j < |keys|
  {
    keys[i] < keys[j] || (keys[i] == keys[j] && i < j)
  }

  ghost predicate InOrder(keys: seq<int>, idx: seq<nat>)
    requires forall k | 0 <= k < |idx| :: idx[k] < |keys|
  {
    forall k, l | 0 <= k < l < |idx| :: Before(keys, idx[k], idx[l])
  }

  /** Where the newcomer `n` goes among the indices already in order. */
  function Slot(keys: seq<int>, idx: seq<nat>, n: nat): (k: nat)
    requires n < |keys| && forall k | 0 <= k < |idx| :: idx[k] < n
    ensures k <= |idx|
  {
    if idx == [] || keys[idx[|idx| - 1]] <= keys[n] then |idx| else Slot(keys, idx[..|idx| - 1], n)
  }

  /** The first `n` indices in the order a stable sort by key gives. */
  function StableOrder(keys: seq<int>, n: nat): (idx: seq<nat>)
    requires n <= |keys|
    ensures |idx| == n && forall k | 0 <= k < n :: idx[k] < n
  {
    if n == 0 then []
    else
      var rest := StableOrder(keys, n - 1);
      var k := Slot(keys, rest, n - 1);
      rest[..k] + [n - 1] + rest[k..]
  }

  lemma {:induction false} SlotSeparates(keys: seq<int>, idx: seq<nat>, n: nat, l: nat)
    requires n < |keys| && (forall k | 0 <= k < |idx| :: idx[k] < n) && l < |idx| && InOrder(keys, idx)
    ensures keys[idx[l]] <= keys[n] <==> l < Slot(keys, idx, n)
  {
    var last := |idx| - 1;
    assert l < last ==> Before(keys, idx[l], idx[last]);
    if keys[idx[last]] > keys[n] && l < last {
      SlotSeparates(keys, idx[..last], n, l);
    }
  }

  lemma {:induction false} InsertKeepsOrder(keys: seq<int>, rest: seq<nat>, n: nat, k: nat, l: nat)
    requires n < |keys| && (forall j | 0 <= j < |rest| :: rest[j] < n) && InOrder(keys, rest)
    requires k < l <= |rest|
    ensures var s := Slot(keys, rest, n);
            var idx := rest[..s] + [n] + rest[s..];
            Before(keys, idx[k], idx[l])
  {
    hide Slot;
    var s := Slot(keys, rest, n);
    if k < s { SlotSeparates(keys, rest, n, k); }
    if l > s { SlotSeparates(keys, rest, n, l - 1); }
  }

  lemma {:induction false} StableOrderIsInOrder(keys: seq<int>, n: nat)
    requires n <= |keys|
    ensures InOrder(keys, StableOrder(keys, n))
  {
    if n > 0 {
      StableOrderIsInOrder(keys, n - 1);
      InsertedInOrder(keys, StableOrder(keys, n - 1), n - 1);
    }
  }

  lemma {:induction false} InsertedInOrder(keys: seq<int>, rest: seq<nat>, n: nat)
    requires n < |keys| && (forall j | 0 <= j < |rest| :: rest[j] < n) && InOrder(keys, rest)
    ensures var s := Slot(keys, rest, n);
            InOrder(keys, rest[..s] + [n] + rest[s..])
  {
    hide Slot, Before;
    var s := Slot(keys, rest, n);
    var idx := rest[..s] + [n] + rest[s..];
    forall k, l | 0 <= k < l < |idx| ensures Before(keys, idx[k], idx[l]) { InsertKeepsOrder(keys, rest, n, k, l); }
  }

  lemma {:induction false} StableOrderHasAll(keys: seq<int>, n: nat, i: nat)
    requires i < n <= |keys|
    ensures i in StableOrder(keys, n)
  {
    var rest := StableOrder(keys, n - 1);
    var s := Slot(keys, rest, n - 1);
    assert rest == rest[..s] + rest[s..];
    if i < n - 1 { StableOrderHasAll(keys, n - 1, i); }
  }

  /** The packets of an epoch in decoding order. */
  function Reordered(p: seq<RtpPacket>): seq<RtpPacket> {
    var idx := StableOrder(Keys(p), |p|);
    seq(|p|, k requires 0 <= k < |p| => p[idx[k]])
  }

  /** Decoding order never steps back in the sender's numbering, and repeats stay in arrival order. */
  lemma {:induction false} ReorderedNeverStepsBack(p: seq<RtpPacket>, x: seq<int>, k: nat, l: nat)
    requires Arrivals(p, x) && k < l < |p|
    ensures Before(x, StableOrder(Keys(p), |p|)[k], StableOrder(Keys(p), |p|)[l])
  {
    hide StableOrder;
    var idx := StableOrder(Keys(p), |p|);
    StableOrderIsInOrder(Keys(p), |p|);
    assert Before(Keys(p), idx[k], idx[l]);
    KeysAreTrueNumbers(p, x, idx[k]);
    KeysAreTrueNumbers(p, x, idx[l]);
  }

  ghost function NumbersInOrder(p: seq<RtpPacket>, x: seq<int>): (y: seq<int>)
    requires |x| == |p|
    ensures |y| == |p|
  {
    seq(|p|, k requires 0 <= k < |p| => x[StableOrder(Keys(p), |p|)[k]])
  }

  lemma {:induction false} NumbersInOrderHasAll(p: seq<RtpPacket>, x: seq<int>, v: int)
    requires |x| == |p|
    ensures v in NumbersInOrder(p, x) <==> v in x
  {
    hide StableOrder;
    var idx, y := StableOrder(Keys(p), |p|), NumbersInOrder(p, x);
    if v in x {
      var i :| 0 <= i < |x| && x[i] == v;
      StableOrderHasAll(Keys(p), |p|, i);
      var k :| 0 <= k < |p| && idx[k] == i;
      assert y[k] == v;
    }
    if v in y {
      var k :| 0 <= k < |y| && y[k] == v;
      assert x[idx[k]] == v;
    }
  }

  /** Whatever was lost and however the rest was reordered within the window, decoding meets the
      sender's packets in the sender's order. `sent` are the numbers that arrived, ascending. */
  lemma {:induction false} SenderOrderIsRestored(p: seq<RtpPacket>, x: seq<int>, sent: seq<int>,
                        packetOf: int -> RtpPacket)
    requires Arrivals(p, x) && (forall i, j | 0 <= i < j < |x| :: x[i] != x[j])
    requires forall i | 0 <= i < |p| :: p[i] == packetOf(x[i])
    requires Increasing(sent) && forall v :: v in sent <==> v in x
    ensures Reordered(p) == seq(|sent|, k requires 0 <= k < |sent| => packetOf(sent[k]))
  {
    hide StableOrder;
    var y := NumbersInOrder(p, x);
    forall v ensures v in y <==> v in sent { NumbersInOrderHasAll(p, x, v); }
    forall k, l | 0 <= k < l < |y| ensures y[k] < y[l] { ReorderedNeverStepsBack(p, x, k, l); }
    IncreasingIsUnique(y, sent);
  }

  /** Strictly increasing numbers are determined by their set. */
  lemma {:induction false} IncreasingIsUnique(a: seq<int>, b: seq<int>)
    requires Increasing(a) && Increasing(b) && forall v :: v in a <==> v in b
    ensures a == b
  {
    assert a != [] ==> a[0] in a;
    assert b != [] ==> b[0] in b;
    if a != [] {
      var i, j := |a| - 1, |b| - 1;
      assert a[i] in a && a[i] in b && b[j] in b && b[j] in a;
      assert a[i] == b[j];
      var u, w := a[..i], b[..j];
      forall v ensures v in u <==> v in w {
        Members(a, v);
        Members(b, v);
      }
      IncreasingIsUnique(u, w);
      assert a == u + [a[i]] && b == w + [b[j]];
    }
  }

  ghost predicate Increasing(a: seq<int>) {
    forall i, j | 0 <= i < j < |a| :: a[i] < a[j]
  }

  lemma {:induction false} Members(a: seq<int>, v: int)
    requires a != [] && Increasing(a)
    ensures v in a[..|a| - 1] <==> v in a && v != a[|a| - 1]
  {
    if v in a {
      var i :| 0 <= i < |a| && a[i] == v;
      assert i < |a| - 1 ==> a[..|a| - 1][i] == v;
    }
  }
}
