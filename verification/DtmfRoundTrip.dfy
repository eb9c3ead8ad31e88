/** Digits through a lossy channel: what a fresh detector reports of generated telephone events. */
module DtmfRoundTrip {
  import opened Arithmetic
  import opened Words
  import opened Dtmf

  /** What reaches the detector while one digit is being sent: copies of the digit's packets, with
      any of them lost or repeated, and polls of the timeout. */
  datatype Item = Copy(k: nat, now: nat) | Poll(now: nat)

  datatype Call = Call(digit: Tone, timestamp: u32, items: seq<Item>)

  datatype Link = Link(clockRate: Positive, ptimeMs: Positive)

  predicate IsEnd(l: Link, c: Call, k: nat) {
    k + 1 >= Count(c.digit.durationMs, l.ptimeMs)
  }

  /** The time of the last copy among the first `n` items, if it leaves the digit unfinished. */
  function Open(l: Link, c: Call, n: nat): Option<nat>
    requires n <= |c.items|
  {
    if n == 0 then None
    else
      match c.items[n - 1]
      case Copy(k, now) => if IsEnd(l, c, k) then None else Some(now)
      case Poll(_) => Open(l, c, n - 1)
  }

  predicate Ended(l: Link, c: Call, n: nat)
    requires n <= |c.items|
  {
    n > 0 && ((c.items[n - 1].Copy? && IsEnd(l, c, c.items[n - 1].k)) || Ended(l, c, n - 1))
  }

  /** In order, at least one end packet, and no gap of over three seconds inside the digit. */
  ghost predicate Delivered(l: Link, c: Call) {
    && c.digit.durationMs > 0
    && (forall i | 0 <= i < |c.items| && c.items[i].Copy? :: c.items[i].k < Length(c.digit, l.ptimeMs))
    && (forall i, j | 0 <= i < j < |c.items| && c.items[i].Copy? && c.items[j].Copy? :: c.items[i].k <= c.items[j].k)
    && (forall n | 0 <= n < |c.items| :: Open(l, c, n).Some? ==> c.items[n].now <= Open(l, c, n).value + TIMEOUT)
    && Ended(l, c, |c.items|)
  }

  function Key(c: Call): (u8, u32) {
    (DigitToEventId(c.digit.digit).value, c.timestamp)
  }

  /** The digit in upper case, the low six bits of its volume and its final duration. */
  function Expected(l: Link, c: Call): Event {
    Event(if 'a' <= c.digit.digit <= 'd' then c.digit.digit - 'a' + 'A' else c.digit.digit,
          DurationMs(FinalDuration(c.digit, l.clockRate), l.clockRate),
          c.digit.volume % 0x40)
  }

  // ---- runs ----

  function Feed(l: Link, c: Call, s: Detector, item: Item): (Detector, Option<Event>) {
    match item
    case Copy(k, now) =>
      Process(s, PacketAt(Key(c).0, c.digit, l.clockRate, l.ptimeMs, k).payload, c.timestamp, l.clockRate, now)
    case Poll(now) => Drain(s, l.clockRate, now)
  }

  function Emit(events: seq<Event>, e: Option<Event>): seq<Event> {
    if e.Some? then events + [e.value] else events
  }

  function RunDigit(l: Link, c: Call, s: Detector, n: nat): (Detector, seq<Event>)
    requires n <= |c.items|
  {
    if n == 0 then (s, [])
    else
      var (t, events) := RunDigit(l, c, s, n - 1);
      var (u, e) := Feed(l, c, t, c.items[n - 1]);
      (u, Emit(events, e))
  }

  ghost predicate AllDelivered(l: Link, calls: seq<Call>) {
    forall i | 0 <= i < |calls| :: Delivered(l, calls[i])
  }

  function Run(l: Link, calls: seq<Call>): (Detector, seq<Event>) {
    if calls == [] then (FRESH, [])
    else
      var (s, events) := Run(l, calls[..|calls| - 1]);
      var c := calls[|calls| - 1];
      var (t, more) := RunDigit(l, c, s, |c.items|);
      (t, events + more)
  }

  // ---- one digit ----

  lemma {:induction false} PacketFields(id: u8, end: bool, volume: u8, duration: u16)
    ensures var b := TelephoneEvent(id, end, volume, duration);
            && |b| == 4 && b[0] == id && (b[1] / 0x80 == 1 <==> end)
            && b[1] % 0x40 == volume % 0x40 && FromBe16(b[2], b[3]) == duration
  {
  }

  /** What a copy does to a detector that knows of no other unfinished digit. */
  lemma {:induction false} CopyStep(l: Link, c: Call, s: Detector, k: nat, now: nat)
    requires s.current.Some? ==> s.current.value.id == Key(c).0 && now <= s.current.value.started + TIMEOUT
    ensures var (t, e) := Feed(l, c, s, Copy(k, now));
            if !IsEnd(l, c, k) then
              e == None && t.lastCompleted == s.lastCompleted && t.current.Some?
              && t.current.value.id == Key(c).0 && t.current.value.started == now
            else
              && t == Detector(None, Some(Key(c)))
              && e == if s.lastCompleted == Some(Key(c)) then None else Some(Expected(l, c))
  {
    hide DurationMs, Count, Ticks, TelephoneEvent, FinalDuration;
    PacketFields(Key(c).0, IsEnd(l, c, k), c.digit.volume, PacketDuration(c.digit, l.clockRate, l.ptimeMs, k));
  }

  lemma {:induction false} EndedStaysEnded(l: Link, c: Call, i: nat, n: nat)
    requires Delivered(l, c) && i <= n < |c.items| && Ended(l, c, i) && c.items[n].Copy?
    ensures IsEnd(l, c, c.items[n].k)
    decreases i
  {
    var last := c.items[i - 1];
    if !(last.Copy? && IsEnd(l, c, last.k)) { EndedStaysEnded(l, c, i - 1, n); }
  }

  lemma {:induction false} EndedIsNotOpen(l: Link, c: Call, n: nat)
    requires Delivered(l, c) && n <= |c.items| && Ended(l, c, n)
    ensures Open(l, c, n) == None
  {
    var last := c.items[n - 1];
    if last.Poll? {
      EndedIsNotOpen(l, c, n - 1);
    } else if !IsEnd(l, c, last.k) {
      EndedStaysEnded(l, c, n - 1, n - 1);
    }
  }

  ghost predicate DigitState(l: Link, c: Call, s: Detector, n: nat, t: Detector, events: seq<Event>)
    requires n <= |c.items|
  {
    if Ended(l, c, n) then
      && t == Detector(None, Some(Key(c)))
      && events == if s.lastCompleted == Some(Key(c)) then [] else [Expected(l, c)]
    else
      && events == [] && t.lastCompleted == s.lastCompleted
      && (t.current.Some? <==> Open(l, c, n).Some?)
      && (t.current.Some? ==> t.current.value.id == Key(c).0 && t.current.value.started == Open(l, c, n).value)
  }

  lemma {:induction false} DigitStep(l: Link, c: Call, s: Detector, n: nat, t: Detector, events: seq<Event>)
    requires n < |c.items| && DigitState(l, c, s, n, t, events)
    requires Open(l, c, n).Some? ==> !Ended(l, c, n) && c.items[n].now <= Open(l, c, n).value + TIMEOUT
    requires Ended(l, c, n) && c.items[n].Copy? ==> IsEnd(l, c, c.items[n].k)
    ensures var (u, e) := Feed(l, c, t, c.items[n]);
            DigitState(l, c, s, n + 1, u, Emit(events, e))
  {
    hide Expected, Process, PacketAt, IsEnd, Key;
    if c.items[n].Copy? { CopyStep(l, c, t, c.items[n].k, c.items[n].now); }
  }

  /** What delivery says about item `n`. */
  lemma {:induction false} DeliveredAt(l: Link, c: Call, n: nat)
    requires Delivered(l, c) && n < |c.items|
    ensures Open(l, c, n).Some? ==> !Ended(l, c, n) && c.items[n].now <= Open(l, c, n).value + TIMEOUT
    ensures Ended(l, c, n) && c.items[n].Copy? ==> IsEnd(l, c, c.items[n].k)
  {
    hide IsEnd;
    if Ended(l, c, n) {
      EndedIsNotOpen(l, c, n);
      if c.items[n].Copy? { EndedStaysEnded(l, c, n, n); }
    }
  }

  lemma {:induction false} DigitStart(l: Link, c: Call, s: Detector)
    requires s.current == None
    ensures DigitState(l, c, s, 0, s, [])
  {
  }

  /** A digit is reported once, at its first end packet, unless it looks like the one just reported. */
  lemma {:induction false} DigitIsReportedOnce(l: Link, c: Call, s: Detector, n: nat)
    requires Delivered(l, c) && s.current == None && n <= |c.items|
    ensures var (t, events) := RunDigit(l, c, s, n);
            DigitState(l, c, s, n, t, events)
  {
    hide DigitState, Feed, IsEnd, Delivered, Open, Ended;
    if n == 0 {
      DigitStart(l, c, s);
    } else {
      DigitIsReportedOnce(l, c, s, n - 1);
      DeliveredAt(l, c, n - 1);
      var (t, events) := RunDigit(l, c, s, n - 1);
      DigitStep(l, c, s, n - 1, t, events);
    }
  }

  // ---- the whole list ----

  /** The digits that do not repeat the key of the one before. */
  function Survivors(l: Link, calls: seq<Call>): seq<Event> {
    if calls == [] then []
    else
      var n := |calls| - 1;
      var rest := Survivors(l, calls[..n]);
      if n > 0 && Key(calls[n - 1]) == Key(calls[n]) then rest else rest + [Expected(l, calls[n])]
  }

  lemma {:induction false} RunReportsSurvivors(l: Link, calls: seq<Call>)
    requires AllDelivered(l, calls)
    ensures var (s, events) := Run(l, calls);
            && events == Survivors(l, calls) && s.current == None
            && s.lastCompleted == if calls == [] then None else Some(Key(calls[|calls| - 1]))
  {
    hide Expected, RunDigit, Key;
    if calls != [] {
      var n := |calls| - 1;
      var c := calls[n];
      RunReportsSurvivors(l, calls[..n]);
      assert Delivered(l, c);
      ReportDigit(l, c, Run(l, calls[..n]).0);
    }
  }

  lemma {:induction false} ReportDigit(l: Link, c: Call, s: Detector)
    requires Delivered(l, c) && s.current == None
    ensures RunDigit(l, c, s, |c.items|)
         == (Detector(None, Some(Key(c))), if s.lastCompleted == Some(Key(c)) then [] else [Expected(l, c)])
  {
    DigitIsReportedOnce(l, c, s, |c.items|);
  }

  ghost predicate Distinct(calls: seq<Call>, i: nat)
    requires i < |calls|
  {
    i > 0 ==> Key(calls[i - 1]) != Key(calls[i])
  }

  lemma {:induction false} SurvivorsAreFewer(l: Link, calls: seq<Call>, i: nat)
    ensures |Survivors(l, calls)| <= |calls|
    ensures i < |calls| && !Distinct(calls, i) ==> |Survivors(l, calls)| < |calls|
  {
    hide Expected, Key;
    if calls != [] {
      SurvivorsAreFewer(l, calls[..|calls| - 1], i);
    }
  }

  lemma {:induction false} DistinctSurvive(l: Link, calls: seq<Call>)
    requires forall i | 0 <= i < |calls| :: Distinct(calls, i)
    ensures Survivors(l, calls) == ExpectedAll(l, calls)
  {
    hide Expected, Key;
    if calls != [] {
      var n := |calls| - 1;
      forall i | 0 <= i < n ensures Distinct(calls[..n], i) { assert Distinct(calls, i); }
      DistinctSurvive(l, calls[..n]);
      assert Distinct(calls, n);
      assert ExpectedAll(l, calls) == ExpectedAll(l, calls[..n]) + [Expected(l, calls[n])];
    }
  }

  function ExpectedAll(l: Link, calls: seq<Call>): seq<Event> {
    seq(|calls|, i requires 0 <= i < |calls| => Expected(l, calls[i]))
  }

  /** The detector reports exactly the digits sent, once each and in order, if and only if no two
      neighbours share both event and timestamp. */
  lemma {:induction false} RoundTrip(l: Link, calls: seq<Call>)
    requires AllDelivered(l, calls)
    ensures Run(l, calls).1 == ExpectedAll(l, calls) <==> forall i | 0 <= i < |calls| :: Distinct(calls, i)
  {
    hide Expected, Distinct, Run, Survivors;
    RunReportsSurvivors(l, calls);
    if forall i | 0 <= i < |calls| :: Distinct(calls, i) {
      DistinctSurvive(l, calls);
    } else {
      var i :| 0 <= i < |calls| && !Distinct(calls, i);
      SurvivorsAreFewer(l, calls, i);
    }
  }

  /** At every clock rate a duration is never reported longer than asked for, and it is reported as
      asked if and only if it is a whole number of ticks that fits the 16-bit field. */
  lemma {:induction false} DurationSurvives(d: Digit, rate: Positive)
    ensures DurationMs(FinalDuration(d, rate), rate) <= d.durationMs
    ensures DurationMs(FinalDuration(d, rate), rate) == d.durationMs <==>
              d.durationMs * rate % 1000 == 0 && d.durationMs * rate / 1000 <= 65535
  {
    var product := d.durationMs * rate;
    var f: nat := FinalDuration(d, rate);
    QuotientIs(product, rate, d.durationMs, 0);
    QuotientBelow(f * 1000, d.durationMs, rate);
    TicksWithin(product, f);
  }

  /** The ticks cut from `product` thousandths, wrapped to 32 bits and capped to 16, fall short of it
      unless they are whole and fit. */
  lemma {:induction false} TicksWithin(product: nat, f: nat)
    requires f == Min(product / 1000 % TWO32, 65535)
    ensures f * 1000 <= product
    ensures f * 1000 == product <==> product % 1000 == 0 && product / 1000 <= 65535
  {
    var ticks := product / 1000;
    assert ticks % TWO32 <= ticks && (ticks < TWO32 ==> ticks % TWO32 == ticks);
  }

  /** Two failing inputs: 8192 ms at 8000 Hz is one tick too long, 100 ms at 11025 Hz is half a tick off. */
  lemma {:induction false} DurationsCutShort()
    ensures DurationMs(FinalDuration(Digit('5', 8192, 10), 8000), 8000) == 8191
    ensures DurationMs(FinalDuration(Digit('5', 100, 10), 11025), 11025) == 99
  {
  }
}
