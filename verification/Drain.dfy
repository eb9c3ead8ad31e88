/** Waiting for the last session to end, from `src/shutdown.rs`: atomic steps of sessions, of
    enders between their decrement and their notification, and of drain waiters. */
module Drain {
  /** Where a waiter is in its loop. A registered waiter is woken by notifications from then on. */
  datatype Waiter = Looping | Registered(notified: bool) | Blocked(notified: bool) | Done

  /** `enders` have taken the count from one to zero and have yet to notify. */
  datatype State = State(active: nat, enders: nat, waiters: map<nat, Waiter>)

  const START := State(0, 0, map[])

  function Notified(w: Waiter): Waiter {
    match w
    case Registered(_) => Registered(true)
    case Blocked(_) => Blocked(true)
    case _ => w
  }

  /** A waiter's own next step; a blocked one that was not notified stays where it is. */
  function Advance(w: Waiter, active: nat): Waiter {
    match w
    case Looping => Registered(false)
    case Registered(notified) => if active == 0 then Done else Blocked(notified)
    case Blocked(notified) => if notified then Looping else w
    case Done => Done
  }

  datatype Action = SessionStarted | SessionEnded | Notify | Arrive(id: nat) | Own(id: nat)

  predicate Enabled(s: State, a: Action) {
    match a
    case SessionStarted => true
    case SessionEnded => true
    case Notify => s.enders > 0
    case Arrive(id) => id !in s.waiters
    case Own(id) => id in s.waiters
  }

  function Step(s: State, a: Action): State
    requires Enabled(s, a)
  {
    match a
    case SessionStarted => s.(active := s.active + 1)
    case SessionEnded =>
      // Ending a session that was never started is reported and ignored.
      if s.active == 0 then s
      else s.(active := s.active - 1, enders := if s.active == 1 then s.enders + 1 else s.enders)
    case Notify => s.(enders := s.enders - 1, waiters := map id | id in s.waiters :: Notified(s.waiters[id]))
    case Arrive(id) => s.(waiters := s.waiters[id := Looping])
    case Own(id) => s.(waiters := s.waiters[id := Advance(s.waiters[id], s.active)])
  }

  ghost predicate IsRun(actions: seq<Action>, states: seq<State>) {
    && |states| == |actions| + 1 && states[0] == START
    && (forall i | 0 <= i < |actions| :: Enabled(states[i], actions[i]) && states[i + 1] == Step(states[i], actions[i]))
  }

  /** A sleeping waiter has something left to wake it. */
  ghost predicate NoLostWakeup(s: State) {
    forall id | id in s.waiters && s.waiters[id] == Blocked(false) :: s.active > 0 || s.enders > 0
  }

  /** In every interleaving. */
  lemma {:induction false} NeverLosesWakeup(actions: seq<Action>, states: seq<State>, n: nat)
    requires IsRun(actions, states) && n <= |actions|
    ensures NoLostWakeup(states[n])
  {
    if n > 0 {
      NeverLosesWakeup(actions, states, n - 1);
      var s, a := states[n - 1], actions[n - 1];
      assert Enabled(s, a) && states[n] == Step(s, a);
    }
  }

  function OwnSteps(s: State, id: nat, n: nat): (t: State)
    requires id in s.waiters
    ensures id in t.waiters && t.active == s.active
  {
    if n == 0 then s else Step(OwnSteps(s, id, n - 1), Own(id))
  }

  /** Once drained and notified, every waiter returns within three steps of its own. */
  lemma {:induction false} DrainedWaitersReturn(actions: seq<Action>, states: seq<State>, n: nat, id: nat)
    requires IsRun(actions, states) && n <= |actions|
    requires states[n].active == 0 && states[n].enders == 0 && id in states[n].waiters
    ensures OwnSteps(states[n], id, 3).waiters[id] == Done
  {
    NeverLosesWakeup(actions, states, n);
    var s := states[n];
    assert OwnSteps(s, id, 1) == Step(OwnSteps(s, id, 0), Own(id));
    assert OwnSteps(s, id, 2) == Step(OwnSteps(s, id, 1), Own(id));
  }

  /** In every run, a waiter that has returned registered first, then found no session active in a step
      of its own, and has not moved since. */
  lemma {:induction false} ReturnsOnlyWhenDrained(actions: seq<Action>, states: seq<State>, n: nat, id: nat) returns (m: nat)
    requires IsRun(actions, states) && n < |states| && id in states[n].waiters && states[n].waiters[id] == Done
    ensures m < n && actions[m] == Own(id) && states[m].active == 0
    ensures id in states[m].waiters && states[m].waiters[id].Registered?
    ensures forall l | m < l <= n :: id in states[l].waiters && states[l].waiters[id] == Done
  {
    var s, a := states[n - 1], actions[n - 1];
    assert Enabled(s, a) && states[n] == Step(s, a);
    if id in s.waiters && s.waiters[id] == Done {
      m := ReturnsOnlyWhenDrained(actions, states, n - 1, id);
    } else {
      m := n - 1;
    }
  }
}
