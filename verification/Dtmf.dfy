/** Telephone events (RFC 4733) of `src/media/dtmf.rs`: the generator, the detector, and the list
    of digits that survives a lossy channel between them. Times are in milliseconds. */
module Dtmf {
  import opened Words

  /** A clock rate or packet interval other than zero. */
  type Positive = x: u32 | x > 0 witness 1

  const TIMEOUT := 3000

  datatype Event = Event(digit: char, durationMs: nat, volume: u8)

  datatype Packet = Packet(payload: seq<u8>, marker: bool)

  function EventIdToDigit(id: u8): Option<char> {
    if id < 10 then Some('0' + id as char)
    else if id == 10 then Some('*')
    else if id == 11 then Some('#')
    else if id < 16 then Some('A' + (id - 12) as char)
    else None
  }

  function DigitToEventId(digit: char): Option<u8> {
    if '0' <= digit <= '9' then Some((digit - '0') as int)
    else if digit == '*' then Some(10)
    else if digit == '#' then Some(11)
    else if 'A' <= digit <= 'D' then Some((digit - 'A') as int + 12)
    else if 'a' <= digit <= 'd' then Some((digit - 'a') as int + 12)
    else None
  }

  /** The mask 0x3F and the end bit 0x80 do not overlap, so `or` is a sum. */
  function TelephoneEvent(id: u8, end: bool, volume: u8, duration: u16): seq<u8> {
    [id, (if end then 0x80 else 0) + volume % 0x40, duration / 256, duration % 256]
  }

  function DurationMs(duration: u16, clockRate: nat): nat {
    duration * 1000 / (if clockRate > 0 then clockRate else 8000)
  }

  // ---- generator ----

  datatype Digit = Digit(digit: char, durationMs: u32, volume: u8)

  /** A digit that has a telephone event. */
  type Tone = d: Digit | DigitToEventId(d.digit).Some? witness Digit('0', 0, 0)

  function Ticks(ms: u32, clockRate: u32): u32 {
    ms * clockRate / 1000 % TWO32
  }

  function FinalDuration(d: Digit, clockRate: u32): u16 {
    Min(Ticks(d.durationMs, clockRate), 65535)
  }

  function Count(durationMs: u32, ptimeMs: Positive): nat {
    (durationMs + ptimeMs - 1) / ptimeMs
  }

  /** The duration field of packet `i`: the elapsed ticks, or the final duration. */
  function PacketDuration(d: Digit, clockRate: u32, ptimeMs: Positive, i: nat): u16 {
    if i + 1 >= Count(d.durationMs, ptimeMs) then FinalDuration(d, clockRate)
    else Min((i + 1) * Ticks(ptimeMs, clockRate) % TWO32, 65535)
  }

  /** Packet `k` of a digit: one for each interval, and the last of them three times. */
  function PacketAt(id: u8, d: Digit, clockRate: u32, ptimeMs: Positive, k: nat): Packet {
    Packet(TelephoneEvent(id, k + 1 >= Count(d.durationMs, ptimeMs), d.volume, PacketDuration(d, clockRate, ptimeMs, k)),
           k == 0)
  }

  function Length(d: Digit, ptimeMs: Positive): nat {
    if d.durationMs == 0 then 0 else Count(d.durationMs, ptimeMs) + 2
  }

  method Generate(d: Digit, clockRate: u32, ptimeMs: u32) returns (r: Option<seq<Packet>>)
    ensures r.Some? <==> DigitToEventId(d.digit).Some? && ptimeMs > 0 && clockRate > 0
    ensures r.Some? ==>
              && |r.value| == Length(d, ptimeMs)
              && forall k | 0 <= k < |r.value| ::
                   r.value[k] == PacketAt(DigitToEventId(d.digit).value, d, clockRate, ptimeMs, k)
  {
    var id := DigitToEventId(d.digit);
    if id.None? || ptimeMs == 0 || clockRate == 0 {
      return None;
    }
    hide Ticks, TelephoneEvent;
    var n := Count(d.durationMs, ptimeMs);
    CountIsZero(d.durationMs, ptimeMs);
    var packets := [];
    for i := 0 to n
      invariant |packets| == if i < n then i else Length(d, ptimeMs)
      invariant forall k | 0 <= k < |packets| :: packets[k] == PacketAt(id.value, d, clockRate, ptimeMs, k)
    {
      var isLast := i == n - 1;
      var duration :=
        if isLast then Min(Ticks(d.durationMs, clockRate), 65535)
        else Min((i + 1) * Ticks(ptimeMs, clockRate) % TWO32, 65535);
      if isLast {
        for rep := 0 to 3
          invariant |packets| == i + rep
          invariant forall k | 0 <= k < |packets| :: packets[k] == PacketAt(id.value, d, clockRate, ptimeMs, k)
        {
          packets := packets + [Packet(TelephoneEvent(id.value, true, d.volume, duration), i == 0 && rep == 0)];
        }
      } else {
        packets := packets + [Packet(TelephoneEvent(id.value, false, d.volume, duration), i == 0)];
      }
    }
    r := Some(packets);
  }

  lemma {:induction false} CountIsZero(durationMs: u32, ptimeMs: Positive)
    ensures Count(durationMs, ptimeMs) == 0 <==> durationMs == 0
  {
    var q, r := (durationMs + ptimeMs - 1) / ptimeMs, (durationMs + ptimeMs - 1) % ptimeMs;
    assert durationMs + ptimeMs - 1 == q * ptimeMs + r;
    assert q >= 1 ==> q * ptimeMs >= ptimeMs;
  }

  // ---- detector ----

  datatype Current = Current(id: u8, volume: u8, duration: u16, timestamp: u32, started: nat)

  datatype Detector = Detector(current: Option<Current>, lastCompleted: Option<(u8, u32)>)

  const FRESH := Detector(None, None)

  function Completed(id: u8, volume: u8, duration: u16, clockRate: nat): Option<Event> {
    var digit := EventIdToDigit(id);
    if digit.None? then None else Some(Event(digit.value, DurationMs(duration, clockRate), volume))
  }

  predicate TimedOut(s: Detector, now: nat) {
    s.current.Some? && now > s.current.value.started + TIMEOUT
  }

  function EventOf(c: Current, clockRate: nat): Option<Event> {
    Completed(c.id, c.volume, c.duration, clockRate)
  }

  function Drain(s: Detector, clockRate: nat, now: nat): (Detector, Option<Event>) {
    if TimedOut(s, now) then (s.(current := None), EventOf(s.current.value, clockRate)) else (s, None)
  }

  /** One telephone-event payload: timeouts first, then a digit cut short by another, then the end. */
  function Process(s: Detector, payload: seq<u8>, timestamp: u32, clockRate: nat, now: nat): (Detector, Option<Event>) {
    if |payload| < 4 then (s, None)
    else
      var id, end, volume := payload[0], payload[1] / 0x80 == 1, payload[1] % 0x40;
      var duration: u16 := FromBe16(payload[2], payload[3]);
      var arrived := Some(Current(id, volume, duration, timestamp, now));
      var (t, late) := Drain(s, clockRate, now);
      if late.Some? then (t.(current := arrived), late)
      else
        var interrupted := if t.current.Some? && t.current.value.id != id then EventOf(t.current.value, clockRate) else None;
        if !end || interrupted.Some? then (t.(current := arrived), interrupted)
        else if t.lastCompleted == Some((id, timestamp)) then (t.(current := None), None)
        else (Detector(None, Some((id, timestamp))), Completed(id, volume, duration, clockRate))
  }

  class DtmfDetector {
    var current: Option<Current>
    var lastCompleted: Option<(u8, u32)>

    function State(): Detector
      reads this
    {
      Detector(current, lastCompleted)
    }

    constructor ()
      ensures State() == FRESH
    {
      current, lastCompleted := None, None;
    }

    method DrainIfTimedOut(clockRate: nat, now: nat) returns (r: Option<Event>)
      modifies this
      ensures (State(), r) == Drain(old(State()), clockRate, now)
    {
      r := None;
      if current.Some? && now > current.value.started + TIMEOUT {
        var c := current.value;
        current := None;
        r := Completed(c.id, c.volume, c.duration, clockRate);
      }
    }

    method Receive(payload: seq<u8>, timestamp: u32, clockRate: nat, now: nat) returns (r: Option<Event>)
      modifies this
      ensures (State(), r) == Process(old(State()), payload, timestamp, clockRate, now)
    {
      r := None;
      if |payload| < 4 {
        return;
      }
      var id := payload[0];
      var end, volume := payload[1] / 0x80 == 1, payload[1] % 0x40;
      var duration: u16 := FromBe16(payload[2], payload[3]);
      r := DrainIfTimedOut(clockRate, now);
      if r.Some? {
        current := Some(Current(id, volume, duration, timestamp, now));
        return;
      }
      if current.Some? && current.value.id != id {
        var c := current.value;
        current := None;
        r := Completed(c.id, c.volume, c.duration, clockRate);
      }
      current := Some(Current(id, volume, duration, timestamp, now));
      if end && r.None? {
        current := None;
        if lastCompleted == Some((id, timestamp)) {
          return;
        }
        lastCompleted := Some((id, timestamp));
        r := Completed(id, volume, duration, clockRate);
      }
    }
  }
}
