/** The download cache of `src/playback/file_cache.rs` as a state machine. Each action is one
    critical section under the cache mutex (or one iteration of a loop inside one), or one atomic
    step outside it. Interleaving more finely than the mutex allows only adds behaviour. */
module FileCache {
  import opened Words

  type Key = nat

  /** `CachedFile`: one path on disk. Download `id` owns two, the `.part` file and the final one. */
  datatype CachedFile = CachedFile(id: nat, part: bool)

  /** `Pending::result`; `Ready` carries a lease on the final file. */
  datatype Outcome = Waiting | Failed | Ready

  /** How far the holder of the `DownloadGuard` has come. */
  datatype Phase =
    | Queued                   // waiting for the semaphore and a reservation
    | Active                   // creating, writing and renaming through storage jobs
    | Failing                  // a job failed
    | Renamed                  // the final file is in place
    | Shrinking                // between the two steps of `DiskReservation::shrink`
    | Complete                 // `download_file` returned Ok
    | Closing                  // result delivered, guard about to drop
    | Gone                     // guard dropped

  datatype Op = Create | Write(bytes: nat) | Rename

  /** A closure on a storage thread. It holds its files until it is dropped, even when the download
      that submitted it is gone. */
  datatype Job = NoJob | Job(op: Op, ran: bool, succeeded: bool)

  /** Everything that belongs to one download: its `Pending`, its guard and task, the storage job it
      awaits or has abandoned, its `DiskReservation` and its two files. Counters that the source
      decrements are integers here, so that an underflow would show. */
  datatype Download = Download(
    key: Key,
    result: Outcome,
    cancelled: bool,
    owners: int,
    pending: bool,             // some `Arc<Pending>` is left
    phase: Phase,
    guarded: bool,             // `DownloadGuard::unpublished` holds both files
    job: Job,
    reserved: bool,            // the `DiskReservation` has not been dropped
    bytes: int,                // its counter
    admitted: int,             // body bytes accepted so far
    owed: int,                 // swapped out of `bytes`, not yet subtracted from the total
    part: Option<nat>,         // size on disk, if the path exists
    final: Option<nat>)

  datatype Request = Request(id: nat, cancelling: bool)

  /** A file that a cleanup pass has selected for deletion. */
  datatype Claim = Claim(file: CachedFile, deleted: bool)

  datatype Config = Config(maxEntries: nat, maxInflight: nat, maxDownload: nat, maxCache: nat)

  datatype Cache = Cache(
    entries: map<Key, nat>,
    expires: map<Key, nat>,
    inflight: map<Key, nat>,
    garbage: multiset<CachedFile>,
    downloads: map<nat, Download>,
    requests: map<nat, Request>,
    leases: map<nat, nat>,
    claims: map<nat, Claim>,
    diskBytes: int)

  const Empty := Cache(map[], map[], map[], multiset{}, map[], map[], map[], map[], 0)

  function Part(id: nat): CachedFile { CachedFile(id, true) }

  function Final(id: nat): CachedFile { CachedFile(id, false) }

  // ---- who refers to a file ----

  predicate InEntries(entries: map<Key, nat>, id: nat, d: Download) {
    d.key in entries && entries[d.key] == id
  }

  predicate HeldByJob(d: Download, f: CachedFile) {
    d.job.Job? && (f.part || d.job.op.Rename?)
  }

  /** Some `Arc` outside the two tables refers to the file: the guard, a storage job, the delivered
      result, a lease or a cleanup claim. */
  predicate Held(s: Cache, f: CachedFile) {
    || (f.id in s.downloads && (s.downloads[f.id].guarded || HeldByJob(s.downloads[f.id], f)))
    || (f.id in s.downloads && !f.part && s.downloads[f.id].pending && s.downloads[f.id].result == Ready)
    || (!f.part && exists l :: l in s.leases && s.leases[l] == f.id)
    || (exists c :: c in s.claims && s.claims[c].file == f)
  }

  /** `Arc::strong_count == 1` for a file in `entries`: only the table's own reference. */
  predicate OnlyEntry(s: Cache, key: Key) {
    && key in s.entries
    && !Held(s, Final(s.entries[key])) && Final(s.entries[key]) !in s.garbage
    && forall k :: k in s.entries && s.entries[k] == s.entries[key] ==> k == key
  }

  /** `Arc::strong_count == 1` for a file in `garbage`. */
  predicate OnlyGarbage(s: Cache, f: CachedFile) {
    && s.garbage[f] == 1 && !Held(s, f)
    && (!f.part ==> forall k :: k in s.entries ==> s.entries[k] != f.id)
  }

  predicate Referenced(s: Cache, f: CachedFile) {
    Held(s, f) || f in s.garbage || (!f.part && exists k :: k in s.entries && s.entries[k] == f.id)
  }

  // ---- requests and leases ----

  /** `start_download_with_cache_key` under the mutex: hit, join, refuse or begin. */
  ghost predicate Start(cfg: Config, s: Cache, t: Cache, key: Key, expiry: nat, id: nat, r: nat, l: nat) {
    && id !in s.downloads && r !in s.requests && l !in s.leases
    && t == (
         if key in s.entries then Hit(s, key, expiry, l)
         else if key in s.inflight && s.inflight[key] in s.downloads && !s.downloads[s.inflight[key]].cancelled
         then Join(s, s.inflight[key], r)
         else if
           || key in s.inflight
           || |s.inflight| >= cfg.maxInflight
           || |s.entries| + |s.inflight| + |s.garbage| >= cfg.maxEntries
         then s
         else Begin(s, key, id, r))
  }

  function Hit(s: Cache, key: Key, expiry: nat, l: nat): Cache
    requires key in s.entries
  {
    s.(expires := s.expires[key := expiry], leases := s.leases[l := s.entries[key]])
  }

  function Join(s: Cache, id: nat, r: nat): Cache
    requires id in s.downloads
  {
    s.(downloads := s.downloads[id := s.downloads[id].(owners := s.downloads[id].owners + 1)],
       requests := s.requests[r := Request(id, false)])
  }

  function NewDownload(key: Key): Download {
    Download(key, Waiting, false, 1, true, Queued, false, NoJob, false, 0, 0, 0, None, None)
  }

  function Begin(s: Cache, key: Key, id: nat, r: nat): Cache {
    s.(inflight := s.inflight[key := id],
       downloads := s.downloads[id := NewDownload(key)],
       requests := s.requests[r := Request(id, false)])
  }

  /** A waiter clones the lease out of the delivered result. */
  ghost predicate TakeResult(s: Cache, t: Cache, r: nat, l: nat) {
    && r in s.requests && s.requests[r].id in s.downloads && l !in s.leases
    && s.downloads[s.requests[r].id].result == Ready
    && t == s.(leases := s.leases[l := s.requests[r].id])
  }

  ghost predicate CloneLease(s: Cache, t: Cache, l: nat, m: nat) {
    l in s.leases && m !in s.leases && t == s.(leases := s.leases[m := s.leases[l]])
  }

  ghost predicate DropLease(s: Cache, t: Cache, l: nat) {
    l in s.leases && t == s.(leases := s.leases - {l})
  }

  /** First step of `DownloadRequest::drop`: decrement. */
  ghost predicate BeginDrop(s: Cache, t: Cache, r: nat) {
    && r in s.requests && !s.requests[r].cancelling && s.requests[r].id in s.downloads
    && var id := s.requests[r].id;
       var d := s.downloads[id];
       t == s.(downloads := s.downloads[id := d.(owners := d.owners - 1)],
               requests := if d.owners == 1 then s.requests[r := Request(id, true)] else s.requests - {r})
  }

  /** Second step: the last owner cancels the token. A joiner may have slipped in between. */
  ghost predicate FinishDrop(s: Cache, t: Cache, r: nat) {
    && r in s.requests && s.requests[r].cancelling && s.requests[r].id in s.downloads
    && var id := s.requests[r].id;
       t == s.(downloads := s.downloads[id := s.downloads[id].(cancelled := true)], requests := s.requests - {r})
  }

  // ---- steps that touch one download only ----

  /** The token is cancelled: by shutdown, or by the last request to drop. */
  predicate Cancel(d: Download, e: Download) {
    e == d.(cancelled := true)
  }

  /** The download hands a closure to the storage threads and awaits it; a chunk is admitted against
      the limit first. */
  predicate Submit(cfg: Config, d: Download, e: Download, op: Op) {
    var more := if op.Write? then op.bytes else 0;
    && d.phase == Active && d.job.NoJob? && d.admitted + more <= cfg.maxDownload
    && e == d.(job := Job(op, false, false), admitted := d.admitted + more)
  }

  /** What a storage job does to the disk. A write that fails may have written `amount` bytes. */
  predicate Run(d: Download, e: Download, amount: nat) {
    && d.job.Job? && !d.job.ran
    && (match d.job.op
        case Create => d.part.None? && e == d.(part := Some(0), job := d.job.(ran := true, succeeded := true))
        case Write(n) =>
          && d.part.Some? && amount <= n
          && e == d.(part := Some(d.part.value + amount), job := d.job.(ran := true, succeeded := amount == n))
        case Rename => d.part.Some? && e == d.(part := None, final := d.part, job := d.job.(ran := true, succeeded := true)))
  }

  /** The closure is dropped; the download, if it still awaits, learns the outcome. */
  predicate EndJob(d: Download, e: Download) {
    && d.job.Job?
    && var phase :=
         if d.phase != Active then d.phase
         else if !d.job.succeeded then Failing
         else if d.job.op.Rename? then Renamed
         else Active;
       e == d.(job := NoJob, phase := phase)
  }

  /** `DiskReservation::shrink`, first step: swap the reservation's own counter. */
  predicate Swap(d: Download, e: Download) {
    d.phase == Renamed && e == d.(phase := Shrinking, bytes := d.admitted, owed := d.bytes - d.admitted)
  }

  /** Cancellation, timeout or error: the download gives up at a suspension point and reports it. */
  predicate Fail(d: Download, e: Download) {
    d.phase in {Queued, Active, Failing, Renamed} && e == d.(phase := Closing, result := Failed)
  }

  /** Publication is skipped for a cancelled download. */
  predicate Abandon(d: Download, e: Download) {
    d.phase == Complete && d.cancelled && e == d.(phase := Closing)
  }

  datatype Move = MCancel | MSubmit(op: Op) | MRun(amount: nat) | MEndJob | MSwap | MFail | MAbandon

  predicate Moves(cfg: Config, d: Download, e: Download, m: Move) {
    match m
    case MCancel => Cancel(d, e)
    case MSubmit(op) => Submit(cfg, d, e, op)
    case MRun(amount) => Run(d, e, amount)
    case MEndJob => EndJob(d, e)
    case MSwap => Swap(d, e)
    case MFail => Fail(d, e)
    case MAbandon => Abandon(d, e)
  }

  /** One download moves on its own. */
  ghost predicate Alone(cfg: Config, s: Cache, t: Cache, id: nat, m: Move, e: Download) {
    id in s.downloads && Moves(cfg, s.downloads[id], e, m) && t == s.(downloads := s.downloads[id := e])
  }

  // ---- steps that touch the shared counter ----

  /** `reserve_disk`, and the creation of the two `CachedFile`s. */
  ghost predicate Reserve(cfg: Config, s: Cache, t: Cache, id: nat) {
    && id in s.downloads && s.downloads[id].phase == Queued
    && s.diskBytes + cfg.maxDownload <= cfg.maxCache
    && t == s.(diskBytes := s.diskBytes + cfg.maxDownload,
               downloads := s.downloads[id := s.downloads[id].(phase := Active, guarded := true, reserved := true,
                                                               bytes := cfg.maxDownload, admitted := 0)])
  }

  /** Second step of `shrink`: subtract the difference from the shared total. */
  ghost predicate Subtract(s: Cache, t: Cache, id: nat) {
    && id in s.downloads && s.downloads[id].phase == Shrinking
    && t == s.(diskBytes := s.diskBytes - s.downloads[id].owed,
               downloads := s.downloads[id := s.downloads[id].(phase := Complete, owed := 0)])
  }

  /** `DiskReservation::drop`, once neither of its files is referenced. */
  ghost predicate Release(s: Cache, t: Cache, id: nat) {
    && id in s.downloads && s.downloads[id].reserved
    && !Referenced(s, Part(id)) && !Referenced(s, Final(id))
    && t == s.(diskBytes := s.diskBytes - s.downloads[id].bytes,
               downloads := s.downloads[id := s.downloads[id].(reserved := false)])
  }

  // ---- publication and the end of a download ----

  /** The publication section of `download`. */
  ghost predicate Publish(s: Cache, t: Cache, id: nat, expiry: nat) {
    && id in s.downloads && s.downloads[id].phase == Complete && !s.downloads[id].cancelled
    && var d := s.downloads[id];
       t == s.(entries := s.entries[d.key := id],
               expires := s.expires[d.key := expiry],
               downloads := s.downloads[id := d.(result := Ready, guarded := false, phase := Closing)])
  }

  /** `DownloadGuard::drop` under the mutex. Dropping the whole task early lands here too. */
  ghost predicate Close(s: Cache, t: Cache, id: nat) {
    && id in s.downloads && s.downloads[id].phase != Gone && s.downloads[id].phase != Shrinking
    && var d := s.downloads[id];
       t == s.(inflight := if d.key in s.inflight && s.inflight[d.key] == id then s.inflight - {d.key} else s.inflight,
               garbage := if d.guarded then s.garbage + multiset{Part(id), Final(id)} else s.garbage,
               downloads := s.downloads[id := d.(phase := Gone, guarded := false,
                                                 result := if d.result == Waiting then Failed else d.result)])
  }

  /** The last reference to a `Pending` goes away, and with it the lease in its result. */
  ghost predicate Free(s: Cache, t: Cache, id: nat) {
    && id in s.downloads && s.downloads[id].phase == Gone && s.downloads[id].pending
    && (forall r :: r in s.requests ==> s.requests[r].id != id)
    && t == s.(downloads := s.downloads[id := s.downloads[id].(pending := false)])
  }

  // ---- cleanup ----

  /** One expired entry that nobody else refers to moves to `garbage`. */
  ghost predicate Expire(s: Cache, t: Cache, key: Key, now: nat) {
    && OnlyEntry(s, key) && key in s.expires && s.expires[key] <= now
    && t == s.(entries := s.entries - {key}, expires := s.expires - {key},
               garbage := s.garbage + multiset{Final(s.entries[key])})
  }

  /** One garbage file that nobody else refers to is claimed for deletion. */
  ghost predicate Select(s: Cache, t: Cache, f: CachedFile, c: nat) {
    c !in s.claims && OnlyGarbage(s, f) && t == s.(claims := s.claims[c := Claim(f, false)])
  }

  ghost predicate Delete(s: Cache, t: Cache, c: nat) {
    && c in s.claims && s.claims[c].file.id in s.downloads
    && var f := s.claims[c].file;
       var d := s.downloads[f.id];
       t == s.(downloads := s.downloads[f.id := if f.part then d.(part := None) else d.(final := None)],
               claims := s.claims[c := Claim(f, true)])
  }

  /** A confirmed deletion leaves `garbage`. */
  ghost predicate Confirm(s: Cache, t: Cache, c: nat) {
    && c in s.claims && s.claims[c].deleted
    && t == s.(garbage := s.garbage[s.claims[c].file := 0], claims := s.claims - {c})
  }

  ghost predicate DropClaim(s: Cache, t: Cache, c: nat) {
    c in s.claims && t == s.(claims := s.claims - {c})
  }

  // ---- steps and runs ----

  datatype Action =
    | AStart(key: Key, expiry: nat, newId: nat, newRequest: nat, newLease: nat)
    | ATakeResult(request: nat, newLease: nat)
    | ACloneLease(lease: nat, newLease: nat)
    | ADropLease(lease: nat)
    | ABeginDrop(request: nat)
    | AFinishDrop(request: nat)
    | AAlone(id: nat, move: Move, after: Download)
    | AReserve(id: nat)
    | ASubtract(id: nat)
    | ARelease(id: nat)
    | APublish(id: nat, expiry: nat)
    | AClose(id: nat)
    | AFree(id: nat)
    | AExpire(key: Key, now: nat)
    | ASelect(file: CachedFile, newClaim: nat)
    | ADelete(claim: nat)
    | AConfirm(claim: nat)
    | ADropClaim(claim: nat)

  ghost predicate Step(cfg: Config, s: Cache, t: Cache, a: Action) {
    match a
    case AStart(key, expiry, id, r, l) => Start(cfg, s, t, key, expiry, id, r, l)
    case ATakeResult(r, l) => TakeResult(s, t, r, l)
    case ACloneLease(l, m) => CloneLease(s, t, l, m)
    case ADropLease(l) => DropLease(s, t, l)
    case ABeginDrop(r) => BeginDrop(s, t, r)
    case AFinishDrop(r) => FinishDrop(s, t, r)
    case AReserve(id) => Reserve(cfg, s, t, id)
    case ASubtract(id) => Subtract(s, t, id)
    case ARelease(id) => Release(s, t, id)
    case APublish(id, expiry) => Publish(s, t, id, expiry)
    case AClose(id) => Close(s, t, id)
    case AFree(id) => Free(s, t, id)
    case AExpire(k, now) => Expire(s, t, k, now)
    case ASelect(f, c) => Select(s, t, f, c)
    case ADelete(c) => Delete(s, t, c)
    case AConfirm(c) => Confirm(s, t, c)
    case ADropClaim(c) => DropClaim(s, t, c)
    case AAlone(id, m, e) => Alone(cfg, s, t, id, m, e)
  }

  /** A run from the empty cache: any actions, by any number of threads, in any order. */
  ghost predicate IsRun(cfg: Config, states: seq<Cache>, actions: seq<Action>) {
    && |states| == |actions| + 1
    && states[0] == Empty
    && forall i :: 0 <= i < |actions| ==> Step(cfg, states[i], states[i + 1], actions[i])
  }
}
