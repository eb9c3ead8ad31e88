/** The cache as the object that `src/playback/file_cache.rs` keeps behind its mutex: each method is
    one critical section or one atomic step, and amounts to actions of the state machine. */
module FileCacheState {
  import opened Words
  import opened FileCache
  import opened FileCacheInvariant
  import opened MapSum

  datatype Answer = Cached | Joining | Downloading | Busy

  /** A stretch of a run. */
  ghost predicate IsPath(cfg: Config, path: seq<Cache>, actions: seq<Action>) {
    |path| == |actions| + 1 && forall i | 0 <= i < |actions| :: Step(cfg, path[i], path[i + 1], actions[i])
  }

  lemma {:induction false} PathKeeps(cfg: Config, path: seq<Cache>, actions: seq<Action>, n: nat)
    requires IsPath(cfg, path, actions) && n <= |actions| && Inv(cfg, path[0])
    ensures Inv(cfg, path[n])
  {
    hide Inv, Step;
    if n > 0 {
      PathKeeps(cfg, path, actions, n - 1);
      StepKeeps(cfg, path[n - 1], path[n], actions[n - 1]);
    }
  }

  lemma {:induction false} PathSnoc(cfg: Config, path: seq<Cache>, actions: seq<Action>, t: Cache, a: Action)
    requires IsPath(cfg, path, actions) && Step(cfg, path[|actions|], t, a)
    ensures IsPath(cfg, path + [t], actions + [a])
  {
    hide Step;
  }

  class CacheState {
    const cfg: Config
    var tables: Cache

    constructor (cfg: Config)
      ensures this.cfg == cfg && tables == Empty && Inv(cfg, tables)
    {
      this.cfg, tables := cfg, Empty;
      new;
      EmptyHolds(cfg);
    }

    /** `start_download_with_cache_key`. The new names are those of what the call would allocate. */
    method StartDownload(key: Key, expiry: nat, id: nat, r: nat, l: nat) returns (answer: Answer)
      requires Inv(cfg, tables) && id !in tables.downloads && r !in tables.requests && l !in tables.leases
      modifies this
      ensures Inv(cfg, tables) && Start(cfg, old(tables), tables, key, expiry, id, r, l)
      ensures answer == Cached <==> key in old(tables.entries)
      ensures answer == Joining <==>
                && key !in old(tables.entries) && key in old(tables.inflight)
                && !old(tables.downloads)[old(tables.inflight)[key]].cancelled
      ensures answer == Busy ==> tables == old(tables)
    {
      hide Inv, Start, NewDownload;
      ghost var before := tables;
      InflightKnown(cfg, before);
      StartCases(cfg, before, key, expiry, id, r, l);
      answer := Busy;
      if key in tables.entries {
        tables := tables.(expires := tables.expires[key := expiry]);
        tables := tables.(leases := tables.leases[l := tables.entries[key]]);
        answer := Cached;
      } else if key in tables.inflight && !tables.downloads[tables.inflight[key]].cancelled {
        var pending := tables.inflight[key];
        var d := tables.downloads[pending];
        tables := tables.(downloads := tables.downloads[pending := d.(owners := d.owners + 1)]);
        tables := tables.(requests := tables.requests[r := Request(pending, false)]);
        answer := Joining;
      } else if
        && key !in tables.inflight && |tables.inflight| < cfg.maxInflight
        && |tables.entries| + |tables.inflight| + |tables.garbage| < cfg.maxEntries
      {
        tables := tables.(inflight := tables.inflight[key := id]);
        tables := tables.(downloads := tables.downloads[id := NewDownload(key)]);
        tables := tables.(requests := tables.requests[r := Request(id, false)]);
        answer := Downloading;
      }
      StartKeeps(cfg, before, tables, key, expiry, id, r, l);
    }

    /** The two atomic steps of a request's drop: the second is due if the first says so. */
    method ReleaseOwner(r: nat) returns (last: bool)
      requires Inv(cfg, tables) && r in tables.requests && !tables.requests[r].cancelling
      modifies this
      ensures Inv(cfg, tables) && BeginDrop(old(tables), tables, r)
      ensures last <==> LiveRequests(tables.requests, old(tables.requests)[r].id) == {}
      ensures last <==> r in tables.requests
    {
      hide Inv;
      ghost var before := tables;
      RequestKnown(cfg, before, r);
      var id := tables.requests[r].id;
      var owners := tables.downloads[id].owners;
      tables := tables.(downloads := tables.downloads[id := tables.downloads[id].(owners := owners - 1)]);
      last := owners == 1;
      tables := tables.(requests := if last then tables.requests[r := Request(id, true)] else tables.requests - {r});
      BeginDropKeeps(cfg, before, tables, r);
      OwnersCount(cfg, tables, id);
    }

    method CancelDownload(r: nat)
      requires Inv(cfg, tables) && r in tables.requests && tables.requests[r].cancelling
      modifies this
      ensures Inv(cfg, tables) && FinishDrop(old(tables), tables, r)
      ensures r !in tables.requests && tables.downloads[old(tables.requests)[r].id].cancelled
    {
      hide Inv;
      ghost var before := tables;
      RequestKnown(cfg, before, r);
      var id := tables.requests[r].id;
      tables := tables.(downloads := tables.downloads[id := tables.downloads[id].(cancelled := true)]);
      tables := tables.(requests := tables.requests - {r});
      FinishDropKeeps(cfg, before, tables, r);
    }

    /** `reserve_disk`: admitted exactly when a whole download still fits. */
    method ReserveDisk(id: nat) returns (admitted: bool)
      requires Inv(cfg, tables) && id in tables.downloads && tables.downloads[id].phase == Queued
      modifies this
      ensures Inv(cfg, tables)
      ensures admitted <==> old(tables.diskBytes) + cfg.maxDownload <= cfg.maxCache
      ensures if admitted then Reserve(cfg, old(tables), tables, id) else tables == old(tables)
      ensures 0 <= tables.diskBytes <= cfg.maxCache
    {
      hide Inv;
      ghost var before := tables;
      admitted := tables.diskBytes + cfg.maxDownload <= cfg.maxCache;
      if admitted {
        tables := tables.(diskBytes := tables.diskBytes + cfg.maxDownload);
        var d := tables.downloads[id].(phase := Active, guarded := true, reserved := true,
                                       bytes := cfg.maxDownload, admitted := 0);
        tables := tables.(downloads := tables.downloads[id := d]);
        ReserveKeeps(cfg, before, tables, id);
      }
      CounterOk(cfg, tables);
    }

    /** The publication section of `download`: nothing is published for a cancelled token. */
    method PublishFile(id: nat, expiry: nat) returns (published: bool)
      requires Inv(cfg, tables) && id in tables.downloads && tables.downloads[id].phase == Complete
      modifies this
      ensures Inv(cfg, tables)
      ensures published <==> !old(tables.downloads)[id].cancelled
      ensures if published then Publish(old(tables), tables, id, expiry) else tables == old(tables)
      ensures published ==> IsServed(tables, id)
    {
      hide Inv;
      ghost var before := tables;
      published := !tables.downloads[id].cancelled;
      if published {
        var d := tables.downloads[id];
        tables := tables.(entries := tables.entries[d.key := id]);
        tables := tables.(expires := tables.expires[d.key := expiry]);
        tables := tables.(downloads := tables.downloads[id := d.(result := Ready, guarded := false, phase := Closing)]);
        PublishKeeps(cfg, before, tables, id, expiry);
        EntryServed(cfg, tables, d.key);
      }
    }

    /** `DownloadGuard::drop`. */
    method DropGuard(id: nat)
      requires Inv(cfg, tables) && id in tables.downloads
      requires tables.downloads[id].phase != Gone && tables.downloads[id].phase != Shrinking
      modifies this
      ensures Inv(cfg, tables) && Close(old(tables), tables, id)
      ensures IsSettled(tables, id)
    {
      hide Inv, IsSettled;
      ghost var before := tables;
      var d := tables.downloads[id];
      var listed := d.key in tables.inflight && tables.inflight[d.key] == id;
      var rest := if listed then tables.inflight - {d.key} else tables.inflight;
      var unwanted := if d.guarded then tables.garbage + multiset{Part(id), Final(id)} else tables.garbage;
      var over := d.(phase := Gone, guarded := false, result := if d.result == Waiting then Failed else d.result);
      tables := tables.(inflight := rest, garbage := unwanted, downloads := tables.downloads[id := over]);
      CloseKeeps(cfg, before, tables, id);
      GoneIsSettled(cfg, tables, id);
    }

    /** The first loop of `cleanup`: the keys are chosen first and removed one after another. Each
        removal is an action of its own, so the section is a stretch of a run, and it removes exactly
        the expired entries that nobody referred to when it began. */
    method CollectExpired(now: nat) returns (ghost path: seq<Cache>, ghost actions: seq<Action>)
      requires Inv(cfg, tables)
      modifies this
      ensures Inv(cfg, tables)
      ensures IsPath(cfg, path, actions) && path[0] == old(tables) && path[|actions|] == tables
      ensures Collected(old(tables), tables, StaleKeys(old(tables), now))
      ensures forall a <- actions :: a.AExpire? && a.now == now && a.key in StaleKeys(old(tables), now)
    {
      hide Inv, Step, IsPath, Collected, IsStale;
      ghost var before := tables;
      path, actions := [before], [];
      assert IsPath(cfg, path, actions) by { PathStart(cfg, before); }
      var stale := StaleKeys(tables, now);
      var keys := stale;
      CollectedNothing(before);
      assert stale - keys == {};
      while keys != {}
        invariant keys <= stale && |path| == |actions| + 1 && IsPath(cfg, path, actions)
        invariant path[0] == before && path[|actions|] == tables
        invariant Collected(before, tables, stale - keys)
        invariant forall a <- actions :: a.AExpire? && a.now == now && a.key in stale
        decreases keys
      {
        var k :| k in keys;
        StaleStays(before, tables, stale - keys, k, now);
        tables := tables.(garbage := tables.garbage + multiset{Final(tables.entries[k])});
        tables := tables.(entries := tables.entries - {k}, expires := tables.expires - {k});
        ExpireStep(cfg, path[|actions|], tables, k, now);
        CollectedMore(before, path[|actions|], tables, stale - keys, k, now);
        PathSnoc(cfg, path, actions, tables, AExpire(k, now));
        path, actions := path + [tables], actions + [AExpire(k, now)];
        assert stale - (keys - {k}) == stale - keys + {k};
        keys := keys - {k};
      }
      assert stale - keys == stale;
      PathKeeps(cfg, path, actions, |actions|);
    }

    /** The second: every garbage file that nobody else refers to is claimed, once. New claims get the
        names from `first` on. */
    method ClaimGarbage(first: nat) returns (ghost path: seq<Cache>, ghost actions: seq<Action>)
      requires Inv(cfg, tables) && forall c :: c in tables.claims ==> c < first
      modifies this
      ensures Inv(cfg, tables)
      ensures IsPath(cfg, path, actions) && path[0] == old(tables) && path[|actions|] == tables
      ensures Claimed(old(tables), tables, IdleGarbage(old(tables)))
      ensures forall a <- actions :: a.ASelect? && a.file in IdleGarbage(old(tables))
    {
      hide Inv, Step, IsPath, Claimed, OnlyGarbage;
      ghost var before := tables;
      path, actions := [before], [];
      assert IsPath(cfg, path, actions) by { PathStart(cfg, before); }
      var idle := IdleGarbage(tables);
      var files, next := idle, first;
      ClaimedNothing(before);
      assert idle - files == {};
      while files != {}
        invariant files <= idle && |path| == |actions| + 1 && IsPath(cfg, path, actions)
        invariant path[0] == before && path[|actions|] == tables
        invariant forall a <- actions :: a.ASelect? && a.file in idle
        invariant Claimed(before, tables, idle - files) && forall c :: c in tables.claims ==> c < next
        decreases files
      {
        var f :| f in files;
        StillOnlyGarbage(before, tables, idle - files, f);
        tables := tables.(claims := tables.claims[next := Claim(f, false)]);
        SelectStep(cfg, path[|actions|], tables, f, next);
        ClaimedMore(before, path[|actions|], tables, idle - files, f, next);
        PathSnoc(cfg, path, actions, tables, ASelect(f, next));
        path, actions := path + [tables], actions + [ASelect(f, next)];
        assert idle - (files - {f}) == idle - files + {f};
        files, next := files - {f}, next + 1;
      }
      assert idle - files == idle;
      PathKeeps(cfg, path, actions, |actions|);
    }

    /** A confirmed deletion drops the file from `garbage` and releases the claim. */
    method Retain(c: nat)
      requires Inv(cfg, tables) && c in tables.claims && tables.claims[c].deleted
      modifies this
      ensures Inv(cfg, tables) && Confirm(old(tables), tables, c)
      ensures IsErased(tables, old(tables.claims)[c].file)
    {
      hide Inv;
      ghost var before := tables;
      tables := tables.(garbage := tables.garbage[tables.claims[c].file := 0]);
      tables := tables.(claims := tables.claims - {c});
      DeletedIsErased(cfg, before, c);
      ConfirmKeeps(cfg, before, tables, c);
    }
  }

  function StaleKeys(s: Cache, now: nat): set<Key> {
    set k | k in s.entries && IsStale(s, k, now)
  }

  function IdleGarbage(s: Cache): set<CachedFile> {
    set f | f in s.garbage && OnlyGarbage(s, f)
  }

  lemma {:induction false} PathStart(cfg: Config, s: Cache)
    ensures IsPath(cfg, [s], [])
  {
  }

  lemma {:induction false} CollectedNothing(s: Cache)
    ensures Collected(s, s, {})
  {
    assert s.entries - {} == s.entries && s.expires - {} == s.expires;
  }

  lemma {:induction false} ClaimedNothing(s: Cache)
    ensures Claimed(s, s, {})
  {
  }

  /** `t` is `s` with one undeleted claim more for each file of `done`. */
  ghost predicate Claimed(s: Cache, t: Cache, done: set<CachedFile>) {
    t == s.(claims := t.claims) && ClaimsAdded(s.claims, t.claims, done) && ClaimsCover(s.claims, t.claims, done)
  }

  ghost predicate ClaimsAdded(was: map<nat, Claim>, now: map<nat, Claim>, done: set<CachedFile>) {
    && (forall c :: c in was ==> c in now && now[c] == was[c])
    && (forall c :: c in now && c !in was ==> now[c].file in done && !now[c].deleted)
    && (forall c, d :: c in now && d in now && c !in was && d !in was && now[c] == now[d] ==> c == d)
  }

  ghost predicate ClaimsCover(was: map<nat, Claim>, now: map<nat, Claim>, done: set<CachedFile>) {
    forall f :: f in done ==> exists c :: c in now && c !in was && now[c].file == f
  }

  lemma {:induction false} ClaimsCoverMore(was: map<nat, Claim>, now: map<nat, Claim>, done: set<CachedFile>,
                        f: CachedFile, c: nat)
    requires ClaimsCover(was, now, done) && c !in now && was.Keys <= now.Keys
    ensures ClaimsCover(was, now[c := Claim(f, false)], done + {f})
  {
    var next := now[c := Claim(f, false)];
    forall g | g in done + {f} ensures exists d :: d in next && d !in was && next[d].file == g {
      if g in done {
        var d :| d in now && d !in was && now[d].file == g;
        assert d in next && next[d].file == g;
      } else {
        assert c in next && c !in was && next[c].file == g;
      }
    }
  }

  lemma {:induction false} StillOnlyGarbage(s: Cache, t: Cache, done: set<CachedFile>, f: CachedFile)
    requires Claimed(s, t, done) && OnlyGarbage(s, f) && f !in done
    ensures OnlyGarbage(t, f)
  {
  }

  lemma {:induction false} ClaimedMore(s: Cache, t: Cache, u: Cache, done: set<CachedFile>, f: CachedFile, c: nat)
    requires Claimed(s, t, done) && f !in done && c !in t.claims && u == t.(claims := t.claims[c := Claim(f, false)])
    ensures Claimed(s, u, done + {f})
  {
    hide ClaimsCover;
    ClaimsCoverMore(s.claims, t.claims, done, f, c);
  }

  lemma {:induction false} SelectStep(cfg: Config, s: Cache, t: Cache, f: CachedFile, c: nat)
    requires OnlyGarbage(s, f) && c !in s.claims && t == s.(claims := s.claims[c := Claim(f, false)])
    ensures Step(cfg, s, t, ASelect(f, c))
  {
    hide OnlyGarbage;
  }

  /** The four answers of the critical section. */
  lemma {:induction false} StartCases(cfg: Config, s: Cache, key: Key, expiry: nat, id: nat, r: nat, l: nat)
    requires id !in s.downloads && r !in s.requests && l !in s.leases
    requires forall k :: k in s.inflight ==> s.inflight[k] in s.downloads
    ensures key in s.entries ==> Start(cfg, s, Hit(s, key, expiry, l), key, expiry, id, r, l)
    ensures key !in s.entries && key in s.inflight && !s.downloads[s.inflight[key]].cancelled ==>
              Start(cfg, s, Join(s, s.inflight[key], r), key, expiry, id, r, l)
    ensures key !in s.entries && key in s.inflight && s.downloads[s.inflight[key]].cancelled ==>
              Start(cfg, s, s, key, expiry, id, r, l)
    ensures key !in s.entries && key !in s.inflight ==>
              var busy := |s.inflight| >= cfg.maxInflight || |s.entries| + |s.inflight| + |s.garbage| >= cfg.maxEntries;
              Start(cfg, s, if busy then s else Begin(s, key, id, r), key, expiry, id, r, l)
  {
    hide Hit, Join, Begin;
  }

  predicate IsStale(s: Cache, key: Key, now: nat) {
    OnlyEntry(s, key) && key in s.expires && s.expires[key] <= now
  }

  ghost function FinalFiles(entries: map<Key, nat>, done: set<Key>): set<CachedFile> {
    set k | k in done && k in entries :: Final(entries[k])
  }

  /** `t` is `s` with the entries `done` moved to `garbage`, one file each. */
  ghost predicate Collected(s: Cache, t: Cache, done: set<Key>) {
    && done <= s.entries.Keys
    && t == s.(entries := s.entries - done, expires := s.expires - done,
               garbage := s.garbage + multiset(FinalFiles(s.entries, done)))
  }

  /** What was unreferenced stays so while other unreferenced entries are moved. */
  lemma {:induction false} StaleStays(s: Cache, t: Cache, done: set<Key>, k: Key, now: nat)
    requires Collected(s, t, done) && IsStale(s, k, now) && k !in done
    ensures IsStale(t, k, now) && k in t.entries
  {
    hide HeldByJob;
    assert Final(s.entries[k]) !in FinalFiles(s.entries, done);
  }

  lemma {:induction false} FinalFilesMore(entries: map<Key, nat>, done: set<Key>, k: Key)
    requires k in entries && k !in done && forall l :: l in entries && entries[l] == entries[k] ==> l == k
    ensures multiset(FinalFiles(entries, done + {k})) == multiset(FinalFiles(entries, done)) + multiset{Final(entries[k])}
  {
    var f := Final(entries[k]);
    assert f !in FinalFiles(entries, done);
    assert FinalFiles(entries, done + {k}) == FinalFiles(entries, done) + {f};
  }

  lemma {:induction false} CollectedMore(s: Cache, t: Cache, u: Cache, done: set<Key>, k: Key, now: nat)
    requires Collected(s, t, done) && k in t.entries && IsStale(s, k, now)
    requires u == t.(entries := t.entries - {k}, expires := t.expires - {k},
                     garbage := t.garbage + multiset{Final(t.entries[k])})
    ensures Collected(s, u, done + {k})
  {
    hide FinalFiles, Held;
    FinalFilesMore(s.entries, done, k);
    assert s.entries - done - {k} == s.entries - (done + {k});
    assert s.expires - done - {k} == s.expires - (done + {k});
  }

  lemma {:induction false} ExpireStep(cfg: Config, s: Cache, t: Cache, k: Key, now: nat)
    requires IsStale(s, k, now)
    requires t == s.(entries := s.entries - {k}, expires := s.expires - {k}, garbage := s.garbage + multiset{Final(s.entries[k])})
    ensures Step(cfg, s, t, AExpire(k, now))
  {
    hide OnlyEntry;
  }

  lemma {:induction false} InflightKnown(cfg: Config, s: Cache)
    requires Inv(cfg, s)
    ensures forall k :: k in s.inflight ==> s.inflight[k] in s.downloads
  {
  }

  lemma {:induction false} RequestKnown(cfg: Config, s: Cache, r: nat)
    requires Inv(cfg, s) && r in s.requests
    ensures s.requests[r].id in s.downloads
  {
  }

  // ---- what the sections leave behind ----

  /** The next request for the key is answered with the file, which is whole on disk. */
  ghost predicate IsServed(s: Cache, id: nat) {
    && id in s.downloads && InEntries(s.entries, id, s.downloads[id])
    && s.downloads[id].reserved && s.downloads[id].final == Some(s.downloads[id].bytes)
  }

  /** The download is over: its waiters have a result, its key is free to be requested again, and each
      of its files left on disk is published or due for deletion. */
  ghost predicate IsSettled(s: Cache, id: nat) {
    && id in s.downloads && s.downloads[id].result != Waiting
    && (forall k :: k in s.inflight ==> s.inflight[k] != id)
    && (s.downloads[id].part.Some? ==> Part(id) in s.garbage)
    && (s.downloads[id].final.Some? ==> Final(id) in s.garbage || InEntries(s.entries, id, s.downloads[id]))
  }

  /** The file is neither on disk nor listed anywhere. */
  ghost predicate IsErased(s: Cache, f: CachedFile) {
    && f.id in s.downloads && f !in s.garbage
    && (if f.part then s.downloads[f.id].part.None?
        else s.downloads[f.id].final.None? && !InEntries(s.entries, f.id, s.downloads[f.id]))
  }

  lemma {:induction false} OwnersCount(cfg: Config, s: Cache, id: nat)
    requires Inv(cfg, s) && id in s.downloads
    ensures s.downloads[id].owners == 0 <==> LiveRequests(s.requests, id) == {}
  {
    hide Records, Tables, Holders, Ledger, Room, LiveRequests;
  }

  lemma {:induction false} CounterOk(cfg: Config, s: Cache)
    requires Inv(cfg, s)
    ensures 0 <= s.diskBytes <= cfg.maxCache
  {
    forall id | id in s.downloads ensures 0 <= Weights(s.downloads)[id] { WeightOk(cfg, s, id); }
    hide Records, Tables, Holders, Owners, Room, Sum, Weight;
    SumMonotone(Weights(s.downloads), Weights(s.downloads));
  }

  lemma {:induction false} WeightOk(cfg: Config, s: Cache, id: nat)
    requires Inv(cfg, s) && id in s.downloads
    ensures Weight(s.downloads[id]) >= 0
  {
    CountersOk(cfg, s, id);
    hide Inv;
  }

  lemma {:induction false} EntryServed(cfg: Config, s: Cache, key: Key)
    requires Inv(cfg, s) && key in s.entries
    ensures IsServed(s, s.entries[key])
  {
    hide Records, InflightOk, GarbageListed, Holders, Owners, Ledger, Room;
  }

  lemma {:induction false} GoneIsSettled(cfg: Config, s: Cache, id: nat)
    requires Inv(cfg, s) && id in s.downloads && s.downloads[id].phase == Gone && !s.downloads[id].guarded
    ensures IsSettled(s, id)
  {
    RecordAt(cfg, s, id);
    hide Records, EntriesOk, GarbageListed, Holders, Owners, Ledger, Room, SizesOk, FilesOk;
  }

  lemma {:induction false} DeletedIsErased(cfg: Config, s: Cache, c: nat)
    requires Inv(cfg, s) && c in s.claims && s.claims[c].deleted
    ensures var f := s.claims[c].file;
            && f.id in s.downloads
            && (if f.part then s.downloads[f.id].part.None?
                else s.downloads[f.id].final.None? && !InEntries(s.entries, f.id, s.downloads[f.id]))
  {
    ClaimAt(cfg, s, c);
    hide Inv;
  }
}
