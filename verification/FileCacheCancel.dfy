/** Cancelling a shared download, in the state machine of `src/playback/file_cache.rs`. The drop of a
    request is two atomic steps, and another request may join between them. */
module FileCacheCancel {
  import opened FileCache
  import opened FileCacheInvariant

  // ---- the race ----

  const Raced := NewDownload(7)
  const Begun := Empty.(inflight := map[7 := 0], downloads := map[0 := Raced], requests := map[0 := Request(0, false)])
  const Dropping := Begun.(downloads := map[0 := Raced.(owners := 0)], requests := map[0 := Request(0, true)])
  const Joined := Dropping.(downloads := map[0 := Raced], requests := map[0 := Request(0, true), 1 := Request(0, false)])
  const Cancelled := Joined.(downloads := map[0 := Raced.(cancelled := true)], requests := map[1 := Request(0, false)])

  lemma {:induction false} RaceBegins(cfg: Config)
    requires cfg.maxEntries > 0 && cfg.maxInflight > 0
    ensures Start(cfg, Empty, Begun, 7, 0, 0, 0, 0) && BeginDrop(Begun, Dropping, 0)
  {
    assert Begun == Begin(Empty, 7, 0, 0);
  }

  lemma {:induction false} RaceEnds(cfg: Config)
    ensures Start(cfg, Dropping, Joined, 7, 0, 1, 1, 0) && FinishDrop(Joined, Cancelled, 0)
  {
    assert Joined == Join(Dropping, 0, 1);
    assert Joined.requests - {0} == Cancelled.requests;
  }

  /** A request that joins between the two steps of another's drop is cancelled although it owns the
      download: "cancelled only when unowned" fails on this run, in every configuration. */
  lemma {:induction false} JoinerCanBeCancelled(cfg: Config) returns (states: seq<Cache>, actions: seq<Action>)
    requires cfg.maxEntries > 0 && cfg.maxInflight > 0
    ensures IsRun(cfg, states, actions) && |states| == 5
    ensures 0 in states[4].downloads && states[4].downloads[0].cancelled && states[4].downloads[0].owners == 1
  {
    hide Start, BeginDrop, FinishDrop;
    RaceBegins(cfg);
    RaceEnds(cfg);
    actions := [AStart(7, 0, 0, 0, 0), ABeginDrop(0), AStart(7, 0, 1, 1, 0), AFinishDrop(0)];
    states := [Empty, Begun, Dropping, Joined, Cancelled];
  }

  // ---- exactly when ----

  /** Request `q` refers to download `id` and has not begun to drop. */
  ghost predicate Live(s: Cache, q: nat, id: nat) {
    q in s.requests && s.requests[q] == Request(id, false)
  }

  /** The action is a request that joins download `id`. */
  ghost predicate Joins(s: Cache, a: Action, id: nat) {
    && a.AStart? && a.key !in s.entries && a.key in s.inflight && s.inflight[a.key] == id
    && id in s.downloads && !s.downloads[id].cancelled
  }

  /** Only starting and dropping a request touch the requests, and no download is ever forgotten. */
  lemma {:induction false} RequestsStay(cfg: Config, s: Cache, t: Cache, a: Action, id: nat)
    requires Step(cfg, s, t, a) && !a.AStart? && !a.ABeginDrop? && !a.AFinishDrop?
    ensures t.requests == s.requests && (id in s.downloads ==> id in t.downloads)
  {
  }

  /** Starting a request keeps the others, and makes nobody live on `id` but a joiner. */
  lemma {:induction false} StartAdds(cfg: Config, s: Cache, t: Cache, a: Action, r: nat, id: nat)
    requires a.AStart? && Start(cfg, s, t, a.key, a.expiry, a.newId, a.newRequest, a.newLease) && id in s.downloads
    ensures id in t.downloads && (r in s.requests ==> r in t.requests && t.requests[r] == s.requests[r])
    ensures Live(t, r, id) && !Live(s, r, id) ==> Joins(s, a, id) && a.newRequest == r
  {
    if a.key in s.entries {
      assert t.requests == s.requests;
    }
  }

  lemma {:induction false} LiveEnters(cfg: Config, s: Cache, t: Cache, a: Action, q: nat, id: nat)
    requires Step(cfg, s, t, a) && id in s.downloads && Live(t, q, id) && !Live(s, q, id)
    ensures Joins(s, a, id) && a.newRequest == q
  {
    if a.AStart? {
      hide Start, Joins;
      StartAdds(cfg, s, t, a, q, id);
    } else if !a.ABeginDrop? && !a.AFinishDrop? {
      hide Step;
      RequestsStay(cfg, s, t, a, id);
    }
  }

  /** Drop `r` of download `id` has begun and waits for its second step. */
  ghost predicate Waits(s: Cache, r: nat, id: nat) {
    r in s.requests && s.requests[r] == Request(id, true) && id in s.downloads
  }

  lemma {:induction false} DropWaits(cfg: Config, s: Cache, t: Cache, a: Action, r: nat, id: nat)
    requires Step(cfg, s, t, a) && a != AFinishDrop(r) && Waits(s, r, id)
    ensures Waits(t, r, id)
  {
    if a.AStart? {
      hide Start, Live;
      StartAdds(cfg, s, t, a, r, id);
    } else if !a.ABeginDrop? && !a.AFinishDrop? {
      hide Step;
      RequestsStay(cfg, s, t, a, id);
    }
  }

  lemma {:induction false} DropWaitsAlong(cfg: Config, states: seq<Cache>, actions: seq<Action>, i: nat, n: nat,
                        r: nat, id: nat)
    requires IsRun(cfg, states, actions) && i <= n < |states| && Waits(states[i], r, id)
    requires forall k | i <= k < n :: actions[k] != AFinishDrop(r)
    ensures Waits(states[n], r, id)
  {
    hide Step, Waits;
    if i < n {
      DropWaitsAlong(cfg, states, actions, i, n - 1, r, id);
      DropWaits(cfg, states[n - 1], states[n], actions[n - 1], r, id);
    }
  }

  /** At step `k` a request joined the download, and it has not begun to drop up to state `n`. */
  ghost predicate JoinedAndStayed(states: seq<Cache>, actions: seq<Action>, k: nat, n: nat, id: nat)
    requires k < |actions| && |states| == |actions| + 1 && n < |states|
  {
    Joins(states[k], actions[k], id) && forall m | k < m <= n :: Live(states[m], actions[k].newRequest, id)
  }

  /** A request that is live now and was not live then has joined in between. */
  lemma {:induction false} LiveHasJoined(cfg: Config, states: seq<Cache>, actions: seq<Action>, i: nat, n: nat,
                        q: nat, id: nat)
      returns (k: nat)
    requires IsRun(cfg, states, actions) && i <= n < |states| && id in states[i].downloads
    requires !Live(states[i], q, id) && Live(states[n], q, id)
    requires forall m | i <= m <= n :: id in states[m].downloads
    ensures i <= k < n && JoinedAndStayed(states, actions, k, n, id) && actions[k].newRequest == q
  {
    hide Step, Live, Joins;
    if Live(states[n - 1], q, id) {
      k := LiveHasJoined(cfg, states, actions, i, n - 1, q, id);
    } else {
      k := n - 1;
      LiveEnters(cfg, states[k], states[n], actions[k], q, id);
    }
  }

  lemma {:induction false} LiveIsCounted(cfg: Config, s: Cache, id: nat)
    requires Inv(cfg, s) && id in s.downloads
    ensures s.downloads[id].owners > 0 <==> exists q :: Live(s, q, id)
  {
    hide Records, Tables, Holders, Ledger, Room;
    var live := LiveRequests(s.requests, id);
    assert s.downloads[id].owners == |live|;
    if live != {} {
      var q :| q in live;
      assert Live(s, q, id) && live - {q} + {q} == live;
    }
    assert forall q :: Live(s, q, id) ==> q in live;
  }

  /** After the last decrement nobody is live. */
  lemma {:induction false} LastDropLeavesNone(cfg: Config, s: Cache, t: Cache, r: nat)
    requires Inv(cfg, s) && Inv(cfg, t) && BeginDrop(s, t, r) && r in t.requests
    ensures var id := s.requests[r].id;
            id in t.downloads && t.requests[r] == Request(id, true) && forall q :: !Live(t, q, id)
  {
    hide Inv;
    var id := s.requests[r].id;
    assert t.downloads[id].owners == 0;
    LiveIsCounted(cfg, t, id);
  }

  lemma {:induction false} DropBegins(cfg: Config, states: seq<Cache>, actions: seq<Action>, i: nat, r: nat)
    requires IsRun(cfg, states, actions) && i < |actions| && actions[i] == ABeginDrop(r)
    ensures BeginDrop(states[i], states[i + 1], r)
  {
    hide BeginDrop;
    assert Step(cfg, states[i], states[i + 1], actions[i]);
  }

  lemma {:induction false} DropFinishes(cfg: Config, states: seq<Cache>, actions: seq<Action>, j: nat, r: nat, id: nat)
    requires IsRun(cfg, states, actions) && j < |actions| && actions[j] == AFinishDrop(r)
    requires r in states[j].requests && states[j].requests[r].id == id && id in states[j].downloads
    ensures id in states[j + 1].downloads && states[j + 1].downloads[id].cancelled
    ensures states[j + 1].downloads[id].owners == states[j].downloads[id].owners
  {
    assert Step(cfg, states[j], states[j + 1], actions[j]);
  }

  /** With nobody live at `i`, the download is owned at `j` if and only if a request joined and stayed. */
  lemma {:induction false} OwnedIfJoined(cfg: Config, states: seq<Cache>, actions: seq<Action>, i: nat, j: nat, id: nat)
    requires IsRun(cfg, states, actions) && i <= j < |actions| && (forall m | i <= m <= j :: id in states[m].downloads)
    requires forall q :: !Live(states[i], q, id)
    ensures states[j].downloads[id].owners > 0 <==> exists k | i <= k < j :: JoinedAndStayed(states, actions, k, j, id)
  {
    RunKeeps(cfg, states, actions, j);
    hide IsRun, Inv, Live, Joins;
    LiveIsCounted(cfg, states[j], id);
    if q :| Live(states[j], q, id) {
      var k := LiveHasJoined(cfg, states, actions, i, j, q, id);
      assert JoinedAndStayed(states, actions, k, j, id);
    }
    if k :| i <= k < j && JoinedAndStayed(states, actions, k, j, id) {
      assert Live(states[j], actions[k].newRequest, id);
    }
  }

  /** The two steps of a last owner's drop, at `i` and `j` of any run: the cancellation hits a download
      that is owned, if and only if some request joined it in between and has not begun to drop. */
  lemma {:induction false} CancelledWhileOwned(cfg: Config, states: seq<Cache>, actions: seq<Action>, i: nat, j: nat,
                        r: nat)
    requires IsRun(cfg, states, actions) && i < j < |actions|
    requires actions[i] == ABeginDrop(r) && r in states[i + 1].requests
    requires actions[j] == AFinishDrop(r) && forall k | i < k < j :: actions[k] != AFinishDrop(r)
    ensures r in states[i].requests
    ensures var id := states[i].requests[r].id;
            && id in states[j + 1].downloads && states[j + 1].downloads[id].cancelled
            && (states[j + 1].downloads[id].owners > 0 <==>
                  exists k | i < k < j :: JoinedAndStayed(states, actions, k, j, id))
  {
    DropBegins(cfg, states, actions, i, r);
    RunKeeps(cfg, states, actions, i);
    RunKeeps(cfg, states, actions, i + 1);
    hide Inv, Live, Step, JoinedAndStayed;
    var id := states[i].requests[r].id;
    LastDropLeavesNone(cfg, states[i], states[i + 1], r);
    forall m | i + 1 <= m <= j ensures id in states[m].downloads {
      DropWaitsAlong(cfg, states, actions, i + 1, m, r, id);
    }
    DropWaitsAlong(cfg, states, actions, i + 1, j, r, id);
    DropFinishes(cfg, states, actions, j, r, id);
    OwnedIfJoined(cfg, states, actions, i + 1, j, id);
  }
}
