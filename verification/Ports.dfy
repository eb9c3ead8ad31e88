/** The port pair allocator of `src/net/socket_pool.rs`. */
module Ports {
  import opened Words

  /** What binding a UDP port does. */
  datatype Bind = Free | Busy | Denied

  datatype Error = NoPair | PermissionDenied

  datatype Range = Range(start: u16, end: u16)

  ghost predicate IsRange(r: Range) {
    r.start % 2 == 0 && r.end % 2 == 1 && r.start < r.end
  }

  /** The largest range of whole pairs inside the configured one, or none. */
  function MakeRange(start: u16, end: u16): (r: Option<Range>)
    ensures r.Some? ==> IsRange(r.value) && start <= r.value.start && r.value.end <= end
    ensures forall p: nat | p % 2 == 0 && start <= p && p + 1 <= end :: r.Some? && r.value.start <= p && p + 1 <= r.value.end
  {
    if start % 2 == 1 && start == 65535 then None
    else if end == 0 then None
    else
      var s: u16 := if start % 2 == 0 then start else start + 1;
      var e: u16 := if end % 2 == 0 then end - 1 else end;
      if s < e then Some(Range(s, e)) else None
  }

  function Pairs(r: Range): nat
    requires IsRange(r)
  {
    (r.end - r.start + 1) / 2
  }

  /** What a successful compare-and-swap stores after `current`. */
  function Next(r: Range, current: u16): (n: u16)
    ensures IsRange(r) && IsPort(r, current) ==> IsPort(r, n)
  {
    if current + 2 > r.end then r.start else current + 2
  }

  ghost predicate IsPort(r: Range, p: nat) {
    p % 2 == 0 && r.start <= p < r.end
  }

  function Port(r: Range, i: nat): nat {
    r.start + 2 * i
  }

  /** The value of the counter after `k` successful swaps. */
  function After(r: Range, first: u16, k: nat): (p: u16)
    requires IsRange(r) && IsPort(r, first)
    ensures IsPort(r, p)
  {
    if k == 0 then first else Next(r, After(r, first, k - 1))
  }

  /** The counter walks the even ports cyclically. */
  lemma {:induction false} AfterIsCyclic(r: Range, first: u16, k: nat)
    requires IsRange(r) && IsPort(r, first) && k <= Pairs(r)
    ensures var i := (first - r.start) / 2 + k;
            After(r, first, k) == Port(r, if i < Pairs(r) then i else i - Pairs(r))
  {
    if k > 0 { AfterIsCyclic(r, first, k - 1); }
  }

  lemma {:induction false} EveryPairReached(r: Range, first: u16, p: nat) returns (k: nat)
    requires IsRange(r) && IsPort(r, first) && IsPort(r, p)
    ensures k < Pairs(r) && After(r, first, k) == p
  {
    hide After;
    var at, i := (first - r.start) / 2, (p - r.start) / 2;
    k := if i >= at then i - at else i + Pairs(r) - at;
    AfterIsCyclic(r, first, k);
  }

  lemma {:induction false} NoPairTwice(r: Range, first: u16, k: nat, l: nat)
    requires IsRange(r) && IsPort(r, first) && k < l < Pairs(r)
    ensures After(r, first, k) != After(r, first, l)
  {
    hide After;
    AfterIsCyclic(r, first, k);
    AfterIsCyclic(r, first, l);
  }

  /** Any run of swaps as long as there are pairs takes every pair exactly once. */
  lemma {:induction false} EveryPairOnce(r: Range, first: u16, p: nat)
    requires IsRange(r) && IsPort(r, first) && IsPort(r, p)
    ensures exists k: nat | k < Pairs(r) :: After(r, first, k) == p
    ensures forall k: nat, l: nat | k < l < Pairs(r) :: After(r, first, k) != After(r, first, l)
  {
    hide After, Pairs;
    var k := EveryPairReached(r, first, p);
    assert After(r, first, k) == p;
    forall k: nat, l: nat | k < l < Pairs(r) ensures After(r, first, k) != After(r, first, l) {
      NoPairTwice(r, first, k, l);
    }
  }

  lemma {:induction false} AfterStart(r: Range, first: u16)
    requires IsRange(r) && IsPort(r, first)
    ensures After(r, first, 0) == first
  {
  }

  lemma {:induction false} AfterNext(r: Range, first: u16, k: nat)
    requires IsRange(r) && IsPort(r, first)
    ensures After(r, first, k + 1) == Next(r, After(r, first, k))
  {
  }

  /** The swaps of the first `n` tries. */
  function Total(others: seq<nat>, n: nat): nat
    requires n <= |others|
  {
    if n == 0 then 0 else Total(others, n - 1) + others[n - 1]
  }

  class SocketPool {
    const range: Range
    var nextPort: u16

    ghost predicate Valid()
      reads this
    {
      IsRange(range) && IsPort(range, nextPort)
    }

    constructor (r: Range)
      requires IsRange(r)
      ensures Valid() && range == r && nextPort == r.start
    {
      range, nextPort := r, r.start;
    }

    /** `next_even_port`: load, compare-exchange, retry. Between the two steps of try `i` other threads
        make `others[i]` successful swaps; after the listed tries they leave the counter alone. The port is
        the counter's value after what the others did meanwhile, and its successor is stored. */
    method NextEvenPort(others: seq<nat>) returns (port: u16, ghost tries: nat)
      requires Valid()
      modifies this
      ensures Valid() && tries <= |others| && port == After(range, old(nextPort), Total(others, tries))
      ensures nextPort == Next(range, port)
    {
      hide After, IsRange, Next;
      AfterStart(range, nextPort);
      var i := 0;
      tries := 0;
      while true
        invariant Valid() && tries == i <= |others| && nextPort == After(range, old(nextPort), Total(others, i))
        decreases |others| - i
      {
        var current := nextPort;
        var swaps := if i < |others| then others[i] else 0;
        AfterAfter(range, old(nextPort), Total(others, i), swaps);
        AfterStart(range, nextPort);
        nextPort := After(range, nextPort, swaps);
        tries := Min(i + 1, |others|);
        if nextPort == current {
          nextPort := Next(range, current);
          return current, tries;
        }
        i := i + 1;
      }
    }

    /** With nobody else allocating: a pair is found if and only if one is free, unless the
        system denies a bind on the way. */
    method AllocatePair(bind: nat -> Bind) returns (r: Result<u16, Error>)
      requires Valid()
      modifies this
      ensures Valid()
      ensures r.Ok? ==> IsPort(range, r.value) && bind(r.value) == Free && bind(r.value + 1) == Free
      ensures r == Err(NoPair) ==> forall p: nat | IsPort(range, p) :: bind(p) != Free || bind(p + 1) != Free
      ensures r == Err(PermissionDenied) ==> exists p: nat | IsPort(range, p) :: bind(p) == Denied || bind(p + 1) == Denied
    {
      hide After, IsRange, Next, Pairs;
      ghost var first := nextPort;
      AfterStart(range, first);
      var count := Pairs(range) * 2;
      for i := 0 to count
        invariant Valid() && nextPort == After(range, first, i)
        invariant forall k: nat | k < i :: bind(After(range, first, k)) != Free || bind(After(range, first, k) + 1) != Free
      {
        AfterNext(range, first, i);
        AfterStart(range, nextPort);
        var port, tries := NextEvenPort([]);
        if bind(port) == Denied || (bind(port) == Free && bind(port + 1) == Denied) {
          return Err(PermissionDenied);
        }
        if bind(port) == Free && bind(port + 1) == Free {
          return Ok(port);
        }
      }
      forall p: nat | IsPort(range, p) ensures bind(p) != Free || bind(p + 1) != Free {
        EveryPairOnce(range, first, p);
      }
      r := Err(NoPair);
    }
  }

  // ---- the counter under contention ----

  /** Threads in the loop of `next_even_port`: each has loaded a value or is about to. `returned` are the
      ports handed out so far, in order of the successful swaps. */
  datatype Pool = Pool(next: u16, loaded: map<nat, u16>, returned: seq<u16>)

  datatype Action = Load(thread: nat) | CompareExchange(thread: nat)

  /** A swap succeeds exactly when the counter holds the loaded value; otherwise the thread loads again. */
  ghost predicate Step(r: Range, s: Pool, t: Pool, a: Action) {
    match a
    case Load(i) => t == s.(loaded := s.loaded[i := s.next])
    case CompareExchange(i) =>
      && i in s.loaded
      && if s.loaded[i] == s.next
         then t == Pool(Next(r, s.next), s.loaded - {i}, s.returned + [s.loaded[i]])
         else t == s.(loaded := s.loaded - {i})
  }

  ghost predicate IsRun(r: Range, first: u16, states: seq<Pool>, actions: seq<Action>) {
    && |states| == |actions| + 1 && states[0] == Pool(first, map[], [])
    && forall n | 0 <= n < |actions| :: Step(r, states[n], states[n + 1], actions[n])
  }

  /** However many threads race, the ports are handed out in counter order, none skipped or repeated. */
  lemma {:induction false} RacingThreadsWalk(r: Range, first: u16, states: seq<Pool>, actions: seq<Action>, n: nat)
    requires IsRange(r) && IsPort(r, first) && IsRun(r, first, states, actions) && n < |states|
    ensures states[n].next == After(r, first, |states[n].returned|)
    ensures forall k | 0 <= k < |states[n].returned| :: states[n].returned[k] == After(r, first, k)
  {
    hide IsRange, Next, After;
    AfterStart(r, first);
    if n > 0 {
      RacingThreadsWalk(r, first, states, actions, n - 1);
      assert Step(r, states[n - 1], states[n], actions[n - 1]);
      AfterNext(r, first, |states[n - 1].returned|);
    }
  }

  lemma {:induction false} AfterAfter(r: Range, first: u16, a: nat, k: nat)
    requires IsRange(r) && IsPort(r, first)
    ensures After(r, After(r, first, a), k) == After(r, first, a + k)
  {
    if k > 0 { AfterAfter(r, first, a, k - 1); }
  }

  /** Among any as many consecutive successful swaps as there are pairs, every pair occurs, once. */
  lemma {:induction false} RacingThreadsShare(r: Range, first: u16, states: seq<Pool>, actions: seq<Action>, n: nat,
                        a: nat, p: nat) returns (k: nat)
    requires IsRange(r) && IsPort(r, first) && IsRun(r, first, states, actions) && n < |states|
    requires a + Pairs(r) <= |states[n].returned| && IsPort(r, p)
    ensures a <= k < a + Pairs(r) && states[n].returned[k] == p
    ensures forall l | a <= l < a + Pairs(r) && states[n].returned[l] == p :: l == k
  {
    hide After, IsRun, Pairs, IsRange;
    RacingThreadsWalk(r, first, states, actions, n);
    var at := After(r, first, a);
    var offset := EveryPairReached(r, at, p);
    k := a + offset;
    AfterAfter(r, first, a, offset);
    forall l | a <= l < a + Pairs(r) && states[n].returned[l] == p ensures l == k {
      AfterAfter(r, first, a, l - a);
      if l < k { NoPairTwice(r, at, l - a, offset); } else if k < l { NoPairTwice(r, at, offset, l - a); }
    }
  }
}
