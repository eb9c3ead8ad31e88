/** The inductive invariant of the download cache. */
module FileCacheInvariant {
  import opened Words
  import opened FileCache
  import opened MapSum

  predicate OwnsFiles(p: Phase) {
    p !in {Queued, Closing, Gone}
  }

  function Size(o: Option<nat>): nat {
    if o.Some? then o.value else 0
  }

  /** Bytes of this download on disk. */
  function Used(d: Download): nat {
    Size(d.part) + Size(d.final)
  }

  predicate Unrun(j: Job) {
    j.Job? && !j.ran
  }

  /** Bytes that an unrun write is still going to add. */
  function Chunk(j: Job): nat {
    if Unrun(j) && j.op.Write? then j.op.bytes else 0
  }

  /** The delivered result, the guard and the phase agree. */
  predicate PhaseOk(d: Download) {
    && (d.phase != Gone ==> d.pending)
    && (d.phase == Gone ==> d.result != Waiting)
    && (d.result == Ready ==> d.phase in {Closing, Gone})
    && (d.phase == Queued ==> !d.reserved && d.job.NoJob?)
    && (OwnsFiles(d.phase) ==> d.guarded)
    && (d.guarded ==> d.phase !in {Queued, Gone} && d.reserved && d.result != Ready)
    && d.owed >= 0 && (d.phase != Shrinking ==> d.owed == 0)
  }

  /** Bytes on disk stay within what was admitted, that within the reservation, the chunk of a
      cancelled writer included; without a reservation there is nothing on disk. */
  predicate SizesOk(d: Download) {
    && (d.reserved ==> Used(d) + Chunk(d.job) <= d.admitted <= d.bytes)
    && (!d.reserved ==> d.part.None? && d.final.None? && !Unrun(d.job))
    && (Unrun(d.job) ==> d.final.None?)
  }

  /** A task's files are what its phase and its job say they are. */
  predicate FilesOk(cfg: Config, d: Download) {
    && (d.phase in {Active, Failing, Renamed} ==> d.bytes == cfg.maxDownload)
    && (d.phase == Active && (d.job.NoJob? || Unrun(d.job)) ==> d.final.None? && Used(d) + Chunk(d.job) == d.admitted)
    && (d.phase == Active && d.job.Job? && d.job.succeeded ==>
          Used(d) == d.admitted && (if d.job.op.Rename? then d.part.None? && d.final.Some? else d.final.None?))
    && (d.phase in {Renamed, Shrinking, Complete} ==> d.job.NoJob? && d.part.None? && d.final == Some(d.admitted))
    && (d.phase in {Shrinking, Complete} ==> d.admitted == d.bytes)
    && (d.job.Job? && d.job.succeeded ==> d.job.ran)
  }

  /** Where the download stands in the tables. */
  predicate PlacedOk(id: nat, d: Download, entries: map<Key, nat>, inflight: map<Key, nat>,
                     garbage: multiset<CachedFile>) {
    && (d.phase != Gone ==> d.key in inflight && inflight[d.key] == id && (d.result == Ready <==> d.key in entries))
    && (d.result == Ready && d.pending ==> InEntries(entries, id, d))
    && (d.part.Some? || Unrun(d.job) ==> d.guarded || Part(id) in garbage)
    && (d.final.Some? ==> d.guarded || Final(id) in garbage || InEntries(entries, id, d))
    && (Unrun(d.job) && d.job.op.Rename? ==> d.guarded || Final(id) in garbage)
  }

  predicate RecordOk(cfg: Config, id: nat, d: Download, entries: map<Key, nat>, inflight: map<Key, nat>,
                     garbage: multiset<CachedFile>) {
    PhaseOk(d) && SizesOk(d) && FilesOk(cfg, d) && PlacedOk(id, d, entries, inflight, garbage)
  }

  /** A published file is on disk with exactly the bytes its reservation still holds. */
  predicate EntryOk(d: Download) {
    d.reserved && !d.guarded && d.final == Some(d.bytes) && !Unrun(d.job)
  }

  predicate GarbageOk(f: CachedFile, d: Download, entries: map<Key, nat>) {
    d.phase == Gone && d.reserved && (f.part || !InEntries(entries, f.id, d))
  }

  /** Nobody but the cleanup pass can touch a claimed file. */
  predicate ClaimOk(c: Claim, d: Download, entries: map<Key, nat>) {
    && d.phase == Gone && !HeldByJob(d, c.file)
    && (c.file.part || !InEntries(entries, c.file.id, d))
    && (c.deleted ==> if c.file.part then d.part.None? else d.final.None?)
  }

  ghost predicate Records(cfg: Config, downloads: map<nat, Download>, entries: map<Key, nat>,
                        inflight: map<Key, nat>, garbage: multiset<CachedFile>) {
    forall id :: id in downloads ==> RecordOk(cfg, id, downloads[id], entries, inflight, garbage)
  }

  ghost predicate InflightOk(downloads: map<nat, Download>, inflight: map<Key, nat>) {
    forall k :: k in inflight ==>
      inflight[k] in downloads && downloads[inflight[k]].key == k && downloads[inflight[k]].phase != Gone
  }

  ghost predicate EntriesOk(downloads: map<nat, Download>, entries: map<Key, nat>) {
    forall k :: k in entries ==>
      entries[k] in downloads && downloads[entries[k]].key == k && EntryOk(downloads[entries[k]])
  }

  ghost predicate GarbageListed(downloads: map<nat, Download>, entries: map<Key, nat>, garbage: multiset<CachedFile>) {
    forall f :: f in garbage ==> garbage[f] == 1 && f.id in downloads && GarbageOk(f, downloads[f.id], entries)
  }

  /** The three tables name existing downloads, each in the right state. */
  ghost predicate Tables(downloads: map<nat, Download>, entries: map<Key, nat>, inflight: map<Key, nat>,
                         garbage: multiset<CachedFile>) {
    InflightOk(downloads, inflight) && EntriesOk(downloads, entries) && GarbageListed(downloads, entries, garbage)
  }

  /** A lease names a file in `entries`; a claim, a file that has left them; a request, a live pending. */
  ghost predicate Holders(downloads: map<nat, Download>, entries: map<Key, nat>,
                          leases: map<nat, nat>, claims: map<nat, Claim>, requests: map<nat, Request>) {
    && (forall l :: l in leases ==> leases[l] in downloads && InEntries(entries, leases[l], downloads[leases[l]]))
    && (forall c :: c in claims ==> claims[c].file.id in downloads && ClaimOk(claims[c], downloads[claims[c].file.id], entries))
    && (forall r :: r in requests ==> requests[r].id in downloads && downloads[requests[r].id].pending)
  }

  ghost function LiveRequests(requests: map<nat, Request>, id: nat): set<nat> {
    set r | r in requests && requests[r].id == id && !requests[r].cancelling
  }

  /** `Pending::owners` counts the requests that have not begun to drop. */
  ghost predicate Owners(downloads: map<nat, Download>, requests: map<nat, Request>) {
    forall id :: id in downloads ==> downloads[id].owners == |LiveRequests(requests, id)|
  }

  /** What a download contributes to the shared counter. */
  function Weight(d: Download): int {
    (if d.reserved then d.bytes else 0) + d.owed
  }

  function Weights(downloads: map<nat, Download>): map<nat, int> {
    map id | id in downloads :: Weight(downloads[id])
  }

  ghost predicate Ledger(cfg: Config, downloads: map<nat, Download>, diskBytes: int) {
    diskBytes == Sum(Weights(downloads)) <= cfg.maxCache
  }

  /** The capacity bounds, over the key sets of `entries` and `inflight` and the number of garbage
      files. An unpublished download counts twice: failing, it leaves two files behind. */
  ghost predicate Room(cfg: Config, entries: set<Key>, inflight: set<Key>, garbage: nat) {
    && |entries + inflight| <= cfg.maxEntries
    && |inflight| <= cfg.maxInflight
    && |entries| + garbage + 2 * |inflight - entries| + |inflight * entries| <= 2 * cfg.maxEntries
  }

  ghost predicate Inv(cfg: Config, s: Cache) {
    && Records(cfg, s.downloads, s.entries, s.inflight, s.garbage)
    && Tables(s.downloads, s.entries, s.inflight, s.garbage)
    && Holders(s.downloads, s.entries, s.leases, s.claims, s.requests)
    && Owners(s.downloads, s.requests)
    && Ledger(cfg, s.downloads, s.diskBytes)
    && Room(cfg, s.entries.Keys, s.inflight.Keys, |s.garbage|)
  }

  // ---- replacing one record ----

  /** A change of one download that the tables and the holders do not notice. */
  predicate Steady(id: nat, d: Download, e: Download, entries: map<Key, nat>, garbage: multiset<CachedFile>) {
    && e.key == d.key && (e.phase == Gone <==> d.phase == Gone)
    && (InEntries(entries, id, d) && EntryOk(d) ==> EntryOk(e))
    && (d.phase == Gone ==>
          && (e.reserved == d.reserved || (Part(id) !in garbage && Final(id) !in garbage))
          && (HeldByJob(e, Part(id)) ==> HeldByJob(d, Part(id)))
          && (HeldByJob(e, Final(id)) ==> HeldByJob(d, Final(id)))
          && (d.part.None? && !HeldByJob(d, Part(id)) ==> e.part.None?)
          && (d.final.None? && !HeldByJob(d, Final(id)) ==> e.final.None?))
  }

  lemma {:induction false} ReplaceKeepsTables(s: Cache, id: nat, e: Download)
    requires Tables(s.downloads, s.entries, s.inflight, s.garbage)
    requires id in s.downloads && Steady(id, s.downloads[id], e, s.entries, s.garbage)
    ensures Tables(s.downloads[id := e], s.entries, s.inflight, s.garbage)
  {
    hide EntryOk;
  }

  lemma {:induction false} ReplaceKeepsHolders(s: Cache, id: nat, e: Download, requests: map<nat, Request>)
    requires Holders(s.downloads, s.entries, s.leases, s.claims, s.requests)
    requires id in s.downloads && Steady(id, s.downloads[id], e, s.entries, s.garbage)
    requires forall r :: r in requests ==> requests[r].id in s.downloads && s.downloads[id := e][requests[r].id].pending
    ensures Holders(s.downloads[id := e], s.entries, s.leases, s.claims, requests)
  {
    hide EntryOk;
  }

  lemma {:induction false} ReplaceKeepsOwners(downloads: map<nat, Download>, requests: map<nat, Request>, id: nat,
                        e: Download)
    requires Owners(downloads, requests) && id in downloads && e.owners == downloads[id].owners
    ensures Owners(downloads[id := e], requests)
  {
    hide LiveRequests;
  }

  lemma {:induction false} ReplaceMovesLedger(downloads: map<nat, Download>, id: nat, e: Download)
    requires id in downloads
    ensures Sum(Weights(downloads[id := e])) == Sum(Weights(downloads)) - Weight(downloads[id]) + Weight(e)
  {
    SumUpdate(Weights(downloads), id, Weight(e));
    assert Weights(downloads[id := e]) == Weights(downloads)[id := Weight(e)];
  }

  /** Replacing one record by a steady successor that is well formed keeps the invariant, once the
      counter is adjusted by the difference in weight and the owner count by that of the requests. */
  lemma {:induction false} ReplaceKeeps(cfg: Config, s: Cache, id: nat, e: Download, diskBytes: int,
                        requests: map<nat, Request>)
    requires Inv(cfg, s) && id in s.downloads && Steady(id, s.downloads[id], e, s.entries, s.garbage)
    requires RecordOk(cfg, id, e, s.entries, s.inflight, s.garbage)
    requires diskBytes == s.diskBytes - Weight(s.downloads[id]) + Weight(e) <= cfg.maxCache
    requires e.owners == |LiveRequests(requests, id)|
    requires forall i :: i != id ==> LiveRequests(requests, i) == LiveRequests(s.requests, i)
    requires forall r :: r in requests ==> requests[r].id in s.downloads && s.downloads[id := e][requests[r].id].pending
    ensures Inv(cfg, s.(downloads := s.downloads[id := e], diskBytes := diskBytes, requests := requests))
  {
    hide Tables, Holders, RecordOk, Steady, Weight, Weights, Sum, Room, LiveRequests;
    ReplaceKeepsTables(s, id, e);
    ReplaceKeepsHolders(s, id, e, requests);
    ReplaceMovesLedger(s.downloads, id, e);
  }

  /** The usual case: the requests stay as they are. */
  lemma {:induction false} ReplaceAloneKeeps(cfg: Config, s: Cache, id: nat, e: Download, diskBytes: int)
    requires Inv(cfg, s) && id in s.downloads && Steady(id, s.downloads[id], e, s.entries, s.garbage)
    requires RecordOk(cfg, id, e, s.entries, s.inflight, s.garbage)
    requires diskBytes == s.diskBytes - Weight(s.downloads[id]) + Weight(e) <= cfg.maxCache
    requires e.owners == s.downloads[id].owners
    requires s.downloads[id].pending && !e.pending ==> forall r :: r in s.requests ==> s.requests[r].id != id
    ensures Inv(cfg, s.(downloads := s.downloads[id := e], diskBytes := diskBytes))
  {
    hide Tables, RecordOk, Steady, Weight, Weights, Sum, Room, LiveRequests, ClaimOk;
    ReplaceKeeps(cfg, s, id, e, diskBytes, s.requests);
  }

  // ---- one download moving on its own ----

  /** Record `e` may stand where `d` stood. */
  ghost predicate Kept(cfg: Config, id: nat, d: Download, e: Download,
                       entries: map<Key, nat>, inflight: map<Key, nat>, garbage: multiset<CachedFile>) {
    && RecordOk(cfg, id, e, entries, inflight, garbage) && Steady(id, d, e, entries, garbage)
    && Weight(e) == Weight(d) && e.owners == d.owners && e.pending == d.pending
  }

  lemma {:induction false} CancelKept(cfg: Config, id: nat, d: Download, e: Download,
                         entries: map<Key, nat>, inflight: map<Key, nat>, garbage: multiset<CachedFile>)
    requires RecordOk(cfg, id, d, entries, inflight, garbage) && Cancel(d, e)
    ensures Kept(cfg, id, d, e, entries, inflight, garbage)
  {
  }

  lemma {:induction false} SubmitKept(cfg: Config, id: nat, d: Download, e: Download, op: Op,
                         entries: map<Key, nat>, inflight: map<Key, nat>, garbage: multiset<CachedFile>)
    requires RecordOk(cfg, id, d, entries, inflight, garbage) && Submit(cfg, d, e, op)
    ensures Kept(cfg, id, d, e, entries, inflight, garbage)
  {
  }

  lemma {:induction false} RunKept(cfg: Config, id: nat, d: Download, e: Download, amount: nat,
                         entries: map<Key, nat>, inflight: map<Key, nat>, garbage: multiset<CachedFile>)
    requires RecordOk(cfg, id, d, entries, inflight, garbage) && FileCache.Run(d, e, amount)
    ensures Kept(cfg, id, d, e, entries, inflight, garbage)
  {
    hide RecordOk, Kept;
    match d.job.op
    case Create => CreateKept(cfg, id, d, e, entries, inflight, garbage);
    case Write(_) => WriteKept(cfg, id, d, e, amount, entries, inflight, garbage);
    case Rename => RenameKept(cfg, id, d, e, entries, inflight, garbage);
  }

  lemma {:induction false} CreateKept(cfg: Config, id: nat, d: Download, e: Download,
                         entries: map<Key, nat>, inflight: map<Key, nat>, garbage: multiset<CachedFile>)
    requires RecordOk(cfg, id, d, entries, inflight, garbage) && d.job.Job? && !d.job.ran && d.job.op == Create
    requires d.part.None? && e == d.(part := Some(0), job := Job(Create, true, true))
    ensures Kept(cfg, id, d, e, entries, inflight, garbage)
  {
  }

  lemma {:induction false} WriteKept(cfg: Config, id: nat, d: Download, e: Download, amount: nat,
                         entries: map<Key, nat>, inflight: map<Key, nat>, garbage: multiset<CachedFile>)
    requires RecordOk(cfg, id, d, entries, inflight, garbage) && d.job.Job? && !d.job.ran && d.job.op.Write?
    requires d.part.Some? && amount <= d.job.op.bytes
    requires e == d.(part := Some(d.part.value + amount), job := d.job.(ran := true, succeeded := amount == d.job.op.bytes))
    ensures Kept(cfg, id, d, e, entries, inflight, garbage)
  {
  }

  lemma {:induction false} RenameKept(cfg: Config, id: nat, d: Download, e: Download,
                         entries: map<Key, nat>, inflight: map<Key, nat>, garbage: multiset<CachedFile>)
    requires RecordOk(cfg, id, d, entries, inflight, garbage) && d.job.Job? && !d.job.ran && d.job.op == Rename
    requires d.part.Some? && e == d.(part := None, final := d.part, job := Job(Rename, true, true))
    ensures Kept(cfg, id, d, e, entries, inflight, garbage)
  {
  }

  lemma {:induction false} EndJobKept(cfg: Config, id: nat, d: Download, e: Download,
                         entries: map<Key, nat>, inflight: map<Key, nat>, garbage: multiset<CachedFile>)
    requires RecordOk(cfg, id, d, entries, inflight, garbage) && EndJob(d, e)
    ensures Kept(cfg, id, d, e, entries, inflight, garbage)
  {
  }

  lemma {:induction false} SwapKept(cfg: Config, id: nat, d: Download, e: Download,
                         entries: map<Key, nat>, inflight: map<Key, nat>, garbage: multiset<CachedFile>)
    requires RecordOk(cfg, id, d, entries, inflight, garbage) && Swap(d, e)
    ensures Kept(cfg, id, d, e, entries, inflight, garbage)
  {
  }

  lemma {:induction false} FailKept(cfg: Config, id: nat, d: Download, e: Download,
                         entries: map<Key, nat>, inflight: map<Key, nat>, garbage: multiset<CachedFile>)
    requires RecordOk(cfg, id, d, entries, inflight, garbage) && Fail(d, e)
    ensures Kept(cfg, id, d, e, entries, inflight, garbage)
  {
  }

  lemma {:induction false} AbandonKept(cfg: Config, id: nat, d: Download, e: Download,
                         entries: map<Key, nat>, inflight: map<Key, nat>, garbage: multiset<CachedFile>)
    requires RecordOk(cfg, id, d, entries, inflight, garbage) && Abandon(d, e)
    ensures Kept(cfg, id, d, e, entries, inflight, garbage)
  {
  }

  lemma {:induction false} MoveKeepsRecord(cfg: Config, id: nat, d: Download, e: Download, m: Move,
                         entries: map<Key, nat>, inflight: map<Key, nat>, garbage: multiset<CachedFile>)
    requires RecordOk(cfg, id, d, entries, inflight, garbage) && Moves(cfg, d, e, m)
    ensures RecordOk(cfg, id, e, entries, inflight, garbage) && Steady(id, d, e, entries, garbage)
    ensures Weight(e) == Weight(d) && e.owners == d.owners && e.pending == d.pending
  {
    hide RecordOk, Steady, Weight, Cancel, Submit, FileCache.Run, EndJob, Swap, Fail, Abandon;
    match m
    case MCancel => CancelKept(cfg, id, d, e, entries, inflight, garbage);
    case MSubmit(op) => SubmitKept(cfg, id, d, e, op, entries, inflight, garbage);
    case MRun(amount) => RunKept(cfg, id, d, e, amount, entries, inflight, garbage);
    case MEndJob => EndJobKept(cfg, id, d, e, entries, inflight, garbage);
    case MSwap => SwapKept(cfg, id, d, e, entries, inflight, garbage);
    case MFail => FailKept(cfg, id, d, e, entries, inflight, garbage);
    case MAbandon => AbandonKept(cfg, id, d, e, entries, inflight, garbage);
  }

  lemma {:induction false} AloneKeeps(cfg: Config, s: Cache, t: Cache, id: nat, m: Move, e: Download)
    requires Inv(cfg, s) && Alone(cfg, s, t, id, m, e)
    ensures Inv(cfg, t)
  {
    hide RecordOk, Moves, Weight, Weights, Steady, Tables, Holders, Owners, Room, Sum;
    assert RecordOk(cfg, id, s.downloads[id], s.entries, s.inflight, s.garbage);
    MoveKeepsRecord(cfg, id, s.downloads[id], e, m, s.entries, s.inflight, s.garbage);
    ReplaceAloneKeeps(cfg, s, id, e, s.diskBytes);
  }

  // ---- the shared counter ----

  lemma {:induction false} ReserveKeeps(cfg: Config, s: Cache, t: Cache, id: nat)
    requires Inv(cfg, s) && Reserve(cfg, s, t, id)
    ensures Inv(cfg, t)
  {
    hide Tables, Holders, Owners, Room, Sum, Weights;
    assert RecordOk(cfg, id, s.downloads[id], s.entries, s.inflight, s.garbage);
    ReplaceAloneKeeps(cfg, s, id, t.downloads[id], t.diskBytes);
  }

  lemma {:induction false} SubtractKeeps(cfg: Config, s: Cache, t: Cache, id: nat)
    requires Inv(cfg, s) && Subtract(s, t, id)
    ensures Inv(cfg, t)
  {
    hide Tables, Holders, Owners, Room, Sum, Weights;
    assert RecordOk(cfg, id, s.downloads[id], s.entries, s.inflight, s.garbage);
    ReplaceAloneKeeps(cfg, s, id, t.downloads[id], t.diskBytes);
  }

  lemma {:induction false} ReleaseKeeps(cfg: Config, s: Cache, t: Cache, id: nat)
    requires Inv(cfg, s) && Release(s, t, id)
    ensures Inv(cfg, t)
  {
    hide Tables, Holders, Owners, Room, Sum, Weights;
    assert RecordOk(cfg, id, s.downloads[id], s.entries, s.inflight, s.garbage);
    ReplaceAloneKeeps(cfg, s, id, t.downloads[id], t.diskBytes);
  }

  lemma {:induction false} FreeKeeps(cfg: Config, s: Cache, t: Cache, id: nat)
    requires Inv(cfg, s) && Free(s, t, id)
    ensures Inv(cfg, t)
  {
    hide Tables, Holders, Owners, Room, Sum, Weights;
    assert RecordOk(cfg, id, s.downloads[id], s.entries, s.inflight, s.garbage);
    ReplaceAloneKeeps(cfg, s, id, t.downloads[id], t.diskBytes);
  }

  // ---- leases and requests ----

  lemma {:induction false} LeaseKeeps(cfg: Config, s: Cache, l: nat, id: nat)
    requires Inv(cfg, s) && id in s.downloads && InEntries(s.entries, id, s.downloads[id])
    ensures Inv(cfg, s.(leases := s.leases[l := id]))
  {
    hide Records, Tables, Owners, Ledger, Room;
  }

  lemma {:induction false} LeaseSources(cfg: Config, s: Cache)
    requires Inv(cfg, s)
    ensures forall k :: k in s.entries ==> s.entries[k] in s.downloads && InEntries(s.entries, s.entries[k], s.downloads[s.entries[k]])
    ensures forall l :: l in s.leases ==> s.leases[l] in s.downloads && InEntries(s.entries, s.leases[l], s.downloads[s.leases[l]])
    ensures forall r :: r in s.requests && s.requests[r].id in s.downloads && s.downloads[s.requests[r].id].result == Ready ==>
              InEntries(s.entries, s.requests[r].id, s.downloads[s.requests[r].id])
  {
    hide Owners, Ledger, Room;
    forall r | r in s.requests && s.requests[r].id in s.downloads && s.downloads[s.requests[r].id].result == Ready
      ensures InEntries(s.entries, s.requests[r].id, s.downloads[s.requests[r].id])
    {
      var id := s.requests[r].id;
      assert RecordOk(cfg, id, s.downloads[id], s.entries, s.inflight, s.garbage);
    }
  }

  lemma {:induction false} DropLeaseKeeps(cfg: Config, s: Cache, l: nat)
    requires Inv(cfg, s)
    ensures Inv(cfg, s.(leases := s.leases - {l}))
  {
    hide Records, Tables, Owners, Ledger, Room;
  }

  lemma {:induction false} OwnersRecord(cfg: Config, id: nat, d: Download, owners: int,
                      entries: map<Key, nat>, inflight: map<Key, nat>, garbage: multiset<CachedFile>)
    requires RecordOk(cfg, id, d, entries, inflight, garbage)
    ensures RecordOk(cfg, id, d.(owners := owners), entries, inflight, garbage)
    ensures Steady(id, d, d.(owners := owners), entries, garbage) && Weight(d.(owners := owners)) == Weight(d)
  {
  }

  lemma {:induction false} LiveAdded(requests: map<nat, Request>, r: nat, id: nat)
    requires r !in requests
    ensures var after := requests[r := Request(id, false)];
            && |LiveRequests(after, id)| == |LiveRequests(requests, id)| + 1
            && forall i :: i != id ==> LiveRequests(after, i) == LiveRequests(requests, i)
  {
    var after := requests[r := Request(id, false)];
    assert LiveRequests(after, id) == LiveRequests(requests, id) + {r};
    forall i | i != id ensures LiveRequests(after, i) == LiveRequests(requests, i) {}
  }

  lemma {:induction false} LiveDropped(requests: map<nat, Request>, after: map<nat, Request>, r: nat)
    requires r in requests
    requires after == requests - {r} || after == requests[r := Request(requests[r].id, true)]
    ensures var id := requests[r].id;
            && |LiveRequests(after, id)| == |LiveRequests(requests, id)| - (if requests[r].cancelling then 0 else 1)
            && forall i :: i != id ==> LiveRequests(after, i) == LiveRequests(requests, i)
  {
    var id := requests[r].id;
    assert LiveRequests(after, id) == LiveRequests(requests, id) - {r};
    forall i | i != id ensures LiveRequests(after, i) == LiveRequests(requests, i) {}
  }

  lemma {:induction false} JoinKeeps(cfg: Config, s: Cache, id: nat, r: nat)
    requires Inv(cfg, s) && id in s.downloads && s.downloads[id].pending && r !in s.requests
    ensures Inv(cfg, Join(s, id, r))
  {
    hide RecordOk, Steady, Weight, Weights, Tables, Room, Sum, LiveRequests, ClaimOk;
    var t := Join(s, id, r);
    LiveAdded(s.requests, r, id);
    assert RecordOk(cfg, id, s.downloads[id], s.entries, s.inflight, s.garbage);
    OwnersRecord(cfg, id, s.downloads[id], t.downloads[id].owners, s.entries, s.inflight, s.garbage);
    ReplaceKeeps(cfg, s, id, t.downloads[id], s.diskBytes, t.requests);
  }

  lemma {:induction false} BeginDropKeeps(cfg: Config, s: Cache, t: Cache, r: nat)
    requires Inv(cfg, s) && BeginDrop(s, t, r)
    ensures Inv(cfg, t)
  {
    hide RecordOk, Steady, Weight, Weights, Tables, Room, Sum, LiveRequests, ClaimOk;
    var id := s.requests[r].id;
    LiveDropped(s.requests, t.requests, r);
    assert RecordOk(cfg, id, s.downloads[id], s.entries, s.inflight, s.garbage);
    OwnersRecord(cfg, id, s.downloads[id], t.downloads[id].owners, s.entries, s.inflight, s.garbage);
    ReplaceKeeps(cfg, s, id, t.downloads[id], s.diskBytes, t.requests);
  }

  lemma {:induction false} FinishDropKeeps(cfg: Config, s: Cache, t: Cache, r: nat)
    requires Inv(cfg, s) && FinishDrop(s, t, r)
    ensures Inv(cfg, t)
  {
    hide RecordOk, Steady, Weight, Weights, Tables, Room, Sum, LiveRequests, ClaimOk;
    var id := s.requests[r].id;
    LiveDropped(s.requests, t.requests, r);
    assert RecordOk(cfg, id, s.downloads[id], s.entries, s.inflight, s.garbage);
    MoveKeepsRecord(cfg, id, s.downloads[id], t.downloads[id], MCancel, s.entries, s.inflight, s.garbage);
    ReplaceKeeps(cfg, s, id, t.downloads[id], s.diskBytes, t.requests);
  }

  // ---- beginning a download ----

  lemma {:induction false} BeginKeepsRecords(cfg: Config, s: Cache, key: Key, id: nat)
    requires Inv(cfg, s) && key !in s.entries && key !in s.inflight && id !in s.downloads
    ensures Records(cfg, s.downloads[id := NewDownload(key)], s.entries, s.inflight[key := id], s.garbage)
  {
    hide Tables, Holders, Owners, Ledger, Room, PhaseOk, SizesOk, FilesOk, EntryOk;
    NewRecordOk(cfg, key);
  }

  lemma {:induction false} BeginKeepsTables(cfg: Config, s: Cache, key: Key, id: nat)
    requires Inv(cfg, s) && key !in s.entries && key !in s.inflight && id !in s.downloads
    ensures Tables(s.downloads[id := NewDownload(key)], s.entries, s.inflight[key := id], s.garbage)
  {
    hide Records, Holders, Owners, Ledger, Room, EntryOk, GarbageOk;
  }

  lemma {:induction false} NewRecordOk(cfg: Config, key: Key)
    ensures PhaseOk(NewDownload(key)) && SizesOk(NewDownload(key)) && FilesOk(cfg, NewDownload(key))
    ensures Weight(NewDownload(key)) == 0
  {
  }

  lemma {:induction false} BeginKeepsHolders(cfg: Config, s: Cache, key: Key, id: nat, r: nat)
    requires Inv(cfg, s) && id !in s.downloads && r !in s.requests
    ensures var t := Begin(s, key, id, r); Holders(t.downloads, t.entries, t.leases, t.claims, t.requests)
  {
    hide Records, Tables, Room, Owners, Ledger, ClaimOk;
  }

  lemma {:induction false} BeginKeepsCounts(cfg: Config, s: Cache, key: Key, id: nat, r: nat)
    requires Inv(cfg, s) && id !in s.downloads && r !in s.requests
    ensures var t := Begin(s, key, id, r); Owners(t.downloads, t.requests) && Ledger(cfg, t.downloads, t.diskBytes)
  {
    hide Records, Tables, Room, LiveRequests, Sum, Holders, Weight;
    var t := Begin(s, key, id, r);
    LiveAdded(s.requests, r, id);
    NoRequests(cfg, s, id);
    NewRecordOk(cfg, key);
    SumUpdate(Weights(s.downloads), id, 0);
    assert Weights(t.downloads) == Weights(s.downloads)[id := 0];
  }

  lemma {:induction false} NoRequests(cfg: Config, s: Cache, id: nat)
    requires Inv(cfg, s) && id !in s.downloads
    ensures |LiveRequests(s.requests, id)| == 0
  {
    hide Records, Tables, Room, Ledger, Owners;
    assert LiveRequests(s.requests, id) == {};
  }

  lemma {:induction false} RoomToBegin(cfg: Config, e: set<Key>, i: set<Key>, g: nat, k: Key)
    requires k !in e && k !in i && |i| < cfg.maxInflight && |e| + |i| + g < cfg.maxEntries
    ensures Room(cfg, e, i + {k}, g)
  {
    assert e + i == e + (i - e) && i == (i - e) + (i * e);
    assert e + (i + {k}) == (e + i) + {k};
    assert (i + {k}) - e == (i - e) + {k};
    assert (i + {k}) * e == i * e;
  }

  lemma {:induction false} BeginKeepsRoom(cfg: Config, e: set<Key>, inflight: map<Key, nat>, g: nat, key: Key, id: nat)
    requires Room(cfg, e, inflight.Keys, g)
    requires key !in e && key !in inflight && |inflight| < cfg.maxInflight && |e| + |inflight| + g < cfg.maxEntries
    ensures Room(cfg, e, inflight[key := id].Keys, g)
  {
    hide Room;
    assert inflight[key := id].Keys == inflight.Keys + {key};
    assert |inflight| == |inflight.Keys|;
    RoomToBegin(cfg, e, inflight.Keys, g, key);
  }

  lemma {:induction false} BeginKeeps(cfg: Config, s: Cache, key: Key, id: nat, r: nat)
    requires Inv(cfg, s) && key !in s.entries && key !in s.inflight && id !in s.downloads && r !in s.requests
    requires |s.inflight| < cfg.maxInflight && |s.entries| + |s.inflight| + |s.garbage| < cfg.maxEntries
    ensures Inv(cfg, Begin(s, key, id, r))
  {
    hide Records, Tables, Holders, Owners, Ledger, Room, NewDownload;
    BeginKeepsRecords(cfg, s, key, id);
    BeginKeepsTables(cfg, s, key, id);
    BeginKeepsHolders(cfg, s, key, id, r);
    BeginKeepsCounts(cfg, s, key, id, r);
    BeginKeepsRoom(cfg, s.entries.Keys, s.inflight, |s.garbage|, key, id);
  }

  // ---- publication ----

  lemma {:induction false} RoomToPublish(cfg: Config, e: set<Key>, i: set<Key>, g: nat, k: Key)
    requires Room(cfg, e, i, g) && k in i && k !in e
    ensures Room(cfg, e + {k}, i, g)
  {
    assert i - (e + {k}) == (i - e) - {k};
    assert i * (e + {k}) == (i * e) + {k};
    assert (e + {k}) + i == e + i;
  }

  lemma {:induction false} PublishFacts(cfg: Config, s: Cache, t: Cache, id: nat, expiry: nat)
    requires Inv(cfg, s) && Publish(s, t, id, expiry)
    ensures var d, e := s.downloads[id], t.downloads[id];
            && d.key in s.inflight && s.inflight[d.key] == id && d.key !in s.entries
            && RecordOk(cfg, id, e, t.entries, t.inflight, t.garbage) && EntryOk(e)
            && d.phase != Gone && Weight(e) == Weight(d)
  {
    hide Tables, Holders, Owners, Ledger, Room;
    assert RecordOk(cfg, id, s.downloads[id], s.entries, s.inflight, s.garbage);
  }

  lemma {:induction false} PublishKeepsRecords(cfg: Config, s: Cache, t: Cache, id: nat, expiry: nat)
    requires Inv(cfg, s) && Publish(s, t, id, expiry)
    ensures Records(cfg, t.downloads, t.entries, t.inflight, t.garbage)
  {
    hide Tables, Holders, Owners, Ledger, Room, PhaseOk, SizesOk, FilesOk, EntryOk, Weight;
    PublishFacts(cfg, s, t, id, expiry);
  }

  lemma {:induction false} PublishKeepsTables(cfg: Config, s: Cache, t: Cache, id: nat, expiry: nat)
    requires Inv(cfg, s) && Publish(s, t, id, expiry)
    ensures Tables(t.downloads, t.entries, t.inflight, t.garbage)
  {
    hide Records, Holders, Owners, Ledger, Room, RecordOk, EntryOk, Weight;
    PublishFacts(cfg, s, t, id, expiry);
  }

  lemma {:induction false} PublishKeepsHolders(cfg: Config, s: Cache, t: Cache, id: nat, expiry: nat)
    requires Inv(cfg, s) && Publish(s, t, id, expiry)
    ensures Holders(t.downloads, t.entries, t.leases, t.claims, t.requests)
  {
    hide Records, Tables, Owners, Ledger, Room, RecordOk, EntryOk, Weight;
    PublishFacts(cfg, s, t, id, expiry);
  }

  lemma {:induction false} PublishKeepsRoom(cfg: Config, entries: map<Key, nat>, i: set<Key>, g: nat, key: Key, id: nat)
    requires Room(cfg, entries.Keys, i, g) && key in i && key !in entries
    ensures Room(cfg, entries[key := id].Keys, i, g)
  {
    hide Room;
    RoomToPublish(cfg, entries.Keys, i, g, key);
    assert entries[key := id].Keys == entries.Keys + {key};
  }

  lemma {:induction false} PublishKeeps(cfg: Config, s: Cache, t: Cache, id: nat, expiry: nat)
    requires Inv(cfg, s) && Publish(s, t, id, expiry)
    ensures Inv(cfg, t)
  {
    hide Records, Tables, Holders, Owners, Room, Weight, Weights, Sum, RecordOk, EntryOk;
    ReplaceKeepsOwners(s.downloads, s.requests, id, t.downloads[id]);
    PublishFacts(cfg, s, t, id, expiry);
    PublishKeepsRecords(cfg, s, t, id, expiry);
    PublishKeepsTables(cfg, s, t, id, expiry);
    PublishKeepsHolders(cfg, s, t, id, expiry);
    PublishKeepsRoom(cfg, s.entries, s.inflight.Keys, |s.garbage|, s.downloads[id].key, id);
    ReplaceMovesLedger(s.downloads, id, t.downloads[id]);
  }

  // ---- the end of a download ----

  lemma {:induction false} RoomToClose(cfg: Config, e: set<Key>, i: set<Key>, g: nat, k: Key, h: nat)
    requires Room(cfg, e, i, g) && k in i && (h == g || (k !in e && h == g + 2))
    ensures Room(cfg, e, i - {k}, h)
  {
    if k in e { SizesWithoutShared(e, i, k); } else { SizesWithoutOwn(e, i, k); }
  }

  lemma {:induction false} SizesWithoutShared(e: set<Key>, i: set<Key>, k: Key)
    requires k in i && k in e
    ensures |(i - {k}) - e| == |i - e| && |(i - {k}) * e| == |i * e| - 1
    ensures |e + (i - {k})| == |e + i| && |i - {k}| == |i| - 1
  {
    assert (i - {k}) - e == i - e && (i - {k}) * e == (i * e) - {k} && e + (i - {k}) == e + i;
  }

  lemma {:induction false} SizesWithoutOwn(e: set<Key>, i: set<Key>, k: Key)
    requires k in i && k !in e
    ensures |(i - {k}) - e| == |i - e| - 1 && |(i - {k}) * e| == |i * e|
    ensures |e + (i - {k})| == |e + i| - 1 && |i - {k}| == |i| - 1
  {
    assert (i - {k}) - e == (i - e) - {k} && (i - {k}) * e == i * e && e + (i - {k}) == (e + i) - {k};
  }

  /** The record of a download whose task ends, apart from the table it may be in. */
  lemma {:induction false} CloseRecord(cfg: Config, id: nat, d: Download, entries: map<Key, nat>, inflight: map<Key, nat>,
                     garbage: multiset<CachedFile>, rest: map<Key, nat>)
    requires RecordOk(cfg, id, d, entries, inflight, garbage) && d.phase != Gone && d.phase != Shrinking
    requires rest == if d.key in inflight && inflight[d.key] == id then inflight - {d.key} else inflight
    ensures var e := d.(phase := Gone, guarded := false, result := if d.result == Waiting then Failed else d.result);
            && RecordOk(cfg, id, e, entries, rest, if d.guarded then garbage + multiset{Part(id), Final(id)} else garbage)
            && Weight(e) == Weight(d) && (EntryOk(d) ==> EntryOk(e))
    ensures d.key in inflight && inflight[d.key] == id && (d.guarded ==> d.key !in entries && d.reserved)
  {
  }

  lemma {:induction false} CloseFacts(cfg: Config, s: Cache, t: Cache, id: nat)
    requires Inv(cfg, s) && Close(s, t, id)
    ensures var d, e := s.downloads[id], t.downloads[id];
            && d.key in s.inflight && s.inflight[d.key] == id && (d.guarded ==> d.key !in s.entries)
            && (InEntries(s.entries, id, d) && EntryOk(d) ==> EntryOk(e))
            && Part(id) !in s.garbage && Final(id) !in s.garbage
            && (d.guarded ==> d.reserved)
            && RecordOk(cfg, id, e, t.entries, t.inflight, t.garbage) && Weight(e) == Weight(d)
  {
    hide Holders, Owners, Ledger, Room, RecordOk, EntryOk, Weight;
    assert RecordOk(cfg, id, s.downloads[id], s.entries, s.inflight, s.garbage);
    CloseRecord(cfg, id, s.downloads[id], s.entries, s.inflight, s.garbage, t.inflight);
  }

  lemma {:induction false} CloseKeepsRecords(cfg: Config, s: Cache, t: Cache, id: nat)
    requires Inv(cfg, s) && Close(s, t, id)
    ensures Records(cfg, t.downloads, t.entries, t.inflight, t.garbage)
  {
    hide Tables, Holders, Owners, Ledger, Room, PhaseOk, SizesOk, FilesOk, EntryOk, Weight;
    CloseFacts(cfg, s, t, id);
  }

  lemma {:induction false} CloseKeepsInflight(cfg: Config, s: Cache, t: Cache, id: nat)
    requires Inv(cfg, s) && Close(s, t, id)
    ensures InflightOk(t.downloads, t.inflight)
  {
    hide Records, EntriesOk, GarbageListed, Holders, Owners, Ledger, Room, RecordOk, EntryOk, Weight;
    CloseFacts(cfg, s, t, id);
  }

  lemma {:induction false} CloseKeepsEntries(cfg: Config, s: Cache, t: Cache, id: nat)
    requires Inv(cfg, s) && Close(s, t, id)
    ensures EntriesOk(t.downloads, t.entries)
  {
    hide Records, InflightOk, GarbageListed, Holders, Owners, Ledger, Room, RecordOk, EntryOk, Weight;
    CloseFacts(cfg, s, t, id);
  }

  lemma {:induction false} CloseKeepsGarbage(cfg: Config, s: Cache, t: Cache, id: nat)
    requires Inv(cfg, s) && Close(s, t, id)
    ensures GarbageListed(t.downloads, t.entries, t.garbage)
  {
    hide Records, InflightOk, EntriesOk, Holders, Owners, Ledger, Room, RecordOk, EntryOk, Weight;
    CloseFacts(cfg, s, t, id);
  }

  lemma {:induction false} CloseKeepsTables(cfg: Config, s: Cache, t: Cache, id: nat)
    requires Inv(cfg, s) && Close(s, t, id)
    ensures Tables(t.downloads, t.entries, t.inflight, t.garbage)
  {
    hide Inv, Close, InflightOk, EntriesOk, GarbageListed;
    CloseKeepsInflight(cfg, s, t, id);
    CloseKeepsEntries(cfg, s, t, id);
    CloseKeepsGarbage(cfg, s, t, id);
  }

  lemma {:induction false} CloseKeepsHolders(cfg: Config, s: Cache, t: Cache, id: nat)
    requires Inv(cfg, s) && Close(s, t, id)
    ensures Holders(t.downloads, t.entries, t.leases, t.claims, t.requests)
  {
    hide Records, Tables, Owners, Ledger, Room, RecordOk, EntryOk, Weight;
    CloseFacts(cfg, s, t, id);
  }

  lemma {:induction false} CloseKeeps(cfg: Config, s: Cache, t: Cache, id: nat)
    requires Inv(cfg, s) && Close(s, t, id)
    ensures Inv(cfg, t)
  {
    hide Records, Tables, Holders, Owners, Room, Weight, Weights, Sum, RecordOk, EntryOk;
    ReplaceKeepsOwners(s.downloads, s.requests, id, t.downloads[id]);
    CloseFacts(cfg, s, t, id);
    CloseKeepsRecords(cfg, s, t, id);
    CloseKeepsTables(cfg, s, t, id);
    CloseKeepsHolders(cfg, s, t, id);
    RoomToClose(cfg, s.entries.Keys, s.inflight.Keys, |s.garbage|, s.downloads[id].key, |t.garbage|);
    assert t.inflight.Keys == s.inflight.Keys - {s.downloads[id].key};
    ReplaceMovesLedger(s.downloads, id, t.downloads[id]);
  }

  // ---- cleanup ----

  lemma {:induction false} RoomToExpire(cfg: Config, e: set<Key>, i: set<Key>, g: nat, k: Key)
    requires Room(cfg, e, i, g) && k in e && k !in i
    ensures Room(cfg, e - {k}, i, g + 1)
  {
    assert i - (e - {k}) == i - e && i * (e - {k}) == i * e;
    assert (e - {k}) + i == (e + i) - {k};
  }

  lemma {:induction false} ExpireFacts(cfg: Config, s: Cache, t: Cache, key: Key, now: nat)
    requires Inv(cfg, s) && Expire(s, t, key, now)
    ensures key in s.entries
    ensures var id := s.entries[key];
            && id in s.downloads && key !in s.inflight
            && s.downloads[id].key == key && s.downloads[id].phase == Gone && s.downloads[id].reserved
            && !(s.downloads[id].result == Ready && s.downloads[id].pending)
            && (forall l :: l in s.leases ==> s.leases[l] != id)
  {
    hide Holders, Owners, Ledger, Room;
    var id := s.entries[key];
    assert RecordOk(cfg, id, s.downloads[id], s.entries, s.inflight, s.garbage);
    assert key in s.inflight ==> RecordOk(cfg, s.inflight[key], s.downloads[s.inflight[key]], s.entries, s.inflight, s.garbage);
  }

  lemma {:induction false} ExpireKeepsRecords(cfg: Config, s: Cache, t: Cache, key: Key, now: nat)
    requires Inv(cfg, s) && Expire(s, t, key, now)
    ensures Records(cfg, t.downloads, t.entries, t.inflight, t.garbage)
  {
    hide Tables, Holders, Owners, Ledger, Room, PhaseOk, SizesOk, FilesOk, OnlyEntry;
    ExpireFacts(cfg, s, t, key, now);
  }

  lemma {:induction false} ExpireKeepsTables(cfg: Config, s: Cache, t: Cache, key: Key, now: nat)
    requires Inv(cfg, s) && Expire(s, t, key, now)
    ensures Tables(t.downloads, t.entries, t.inflight, t.garbage)
  {
    hide Records, InflightOk, Holders, Owners, Ledger, Room, EntryOk, Held;
    ExpireFacts(cfg, s, t, key, now);
  }

  lemma {:induction false} ExpireKeepsHolders(cfg: Config, s: Cache, t: Cache, key: Key, now: nat)
    requires Inv(cfg, s) && Expire(s, t, key, now)
    ensures Holders(t.downloads, t.entries, t.leases, t.claims, t.requests)
  {
    hide Records, Tables, Owners, Ledger, Room, EntryOk, Held;
    ExpireFacts(cfg, s, t, key, now);
  }

  lemma {:induction false} KeysWithout(m: map<Key, nat>, key: Key)
    ensures (m - {key}).Keys == m.Keys - {key}
  {
  }

  lemma {:induction false} ExpireKeepsRoom(cfg: Config, entries: map<Key, nat>, inflight: map<Key, nat>,
                        garbage: multiset<CachedFile>, key: Key, f: CachedFile)
    requires Room(cfg, entries.Keys, inflight.Keys, |garbage|) && key in entries && key !in inflight
    ensures Room(cfg, (entries - {key}).Keys, inflight.Keys, |garbage + multiset{f}|)
  {
    hide Room;
    RoomToExpire(cfg, entries.Keys, inflight.Keys, |garbage|, key);
    KeysWithout(entries, key);
  }

  lemma {:induction false} ExpireKeeps(cfg: Config, s: Cache, t: Cache, key: Key, now: nat)
    requires Inv(cfg, s) && Expire(s, t, key, now)
    ensures Inv(cfg, t)
  {
    hide Records, Tables, Holders, Owners, Ledger, Room, OnlyEntry;
    ExpireFacts(cfg, s, t, key, now);
    ExpireKeepsRecords(cfg, s, t, key, now);
    ExpireKeepsTables(cfg, s, t, key, now);
    ExpireKeepsHolders(cfg, s, t, key, now);
    ExpireKeepsRoom(cfg, s.entries, s.inflight, s.garbage, key, Final(s.entries[key]));
  }

  lemma {:induction false} SelectKeeps(cfg: Config, s: Cache, t: Cache, f: CachedFile, c: nat)
    requires Inv(cfg, s) && Select(s, t, f, c)
    ensures Inv(cfg, t)
  {
    hide Records, Owners, Ledger, Room;
  }

  lemma {:induction false} DeleteRecord(cfg: Config, c: Claim, d: Download, e: Download,
                      entries: map<Key, nat>, inflight: map<Key, nat>, garbage: multiset<CachedFile>)
    requires RecordOk(cfg, c.file.id, d, entries, inflight, garbage) && ClaimOk(c, d, entries)
    requires e == if c.file.part then d.(part := None) else d.(final := None)
    ensures RecordOk(cfg, c.file.id, e, entries, inflight, garbage)
    ensures Steady(c.file.id, d, e, entries, garbage) && Weight(e) == Weight(d)
    ensures ClaimOk(Claim(c.file, true), e, entries)
  {
  }

  lemma {:induction false} RecordAt(cfg: Config, s: Cache, id: nat)
    requires Inv(cfg, s) && id in s.downloads
    ensures RecordOk(cfg, id, s.downloads[id], s.entries, s.inflight, s.garbage)
  {
    hide Tables, Holders, Owners, Ledger, Room, RecordOk;
  }

  lemma {:induction false} ClaimDeleted(cfg: Config, s: Cache, c: nat)
    requires Inv(cfg, s) && c in s.claims && s.claims[c].file.id in s.downloads
    requires ClaimOk(Claim(s.claims[c].file, true), s.downloads[s.claims[c].file.id], s.entries)
    ensures Inv(cfg, s.(claims := s.claims[c := Claim(s.claims[c].file, true)]))
  {
    hide Records, Tables, Owners, Ledger, Room, ClaimOk;
  }

  lemma {:induction false} DeleteKeeps(cfg: Config, s: Cache, t: Cache, c: nat)
    requires Inv(cfg, s) && Delete(s, t, c)
    ensures Inv(cfg, t)
  {
    hide Inv, Weight, RecordOk, ClaimOk, Steady;
    var f := s.claims[c].file;
    RecordAt(cfg, s, f.id);
    ClaimAt(cfg, s, c);
    InvLimit(cfg, s);
    DeleteRecord(cfg, s.claims[c], s.downloads[f.id], t.downloads[f.id], s.entries, s.inflight, s.garbage);
    ReplaceAloneKeeps(cfg, s, f.id, t.downloads[f.id], s.diskBytes);
    assert s.(downloads := t.downloads) == s.(downloads := s.downloads[f.id := t.downloads[f.id]], diskBytes := s.diskBytes);
    ClaimDeleted(cfg, s.(downloads := t.downloads), c);
  }

  lemma {:induction false} InvLimit(cfg: Config, s: Cache)
    requires Inv(cfg, s)
    ensures s.diskBytes <= cfg.maxCache
  {
    hide Records, Tables, Holders, Owners, Room, Sum;
  }

  lemma {:induction false} ClaimAt(cfg: Config, s: Cache, c: nat)
    requires Inv(cfg, s) && c in s.claims
    ensures s.claims[c].file.id in s.downloads && ClaimOk(s.claims[c], s.downloads[s.claims[c].file.id], s.entries)
  {
    hide Records, Tables, Owners, Ledger, Room, ClaimOk;
  }

  lemma {:induction false} ConfirmKeepsRecords(cfg: Config, s: Cache, t: Cache, c: nat)
    requires Inv(cfg, s) && Confirm(s, t, c)
    ensures Records(cfg, t.downloads, t.entries, t.inflight, t.garbage)
    ensures |t.garbage| <= |s.garbage|
  {
    hide Tables, Owners, Ledger, Room, PhaseOk, SizesOk, FilesOk;
  }

  lemma {:induction false} ConfirmKeepsTables(cfg: Config, s: Cache, t: Cache, c: nat)
    requires Inv(cfg, s) && Confirm(s, t, c)
    ensures Tables(t.downloads, t.entries, t.inflight, t.garbage)
  {
    hide Records, InflightOk, EntriesOk, Holders, Owners, Ledger, Room, EntryOk, GarbageOk;
  }

  lemma {:induction false} ConfirmKeeps(cfg: Config, s: Cache, t: Cache, c: nat)
    requires Inv(cfg, s) && Confirm(s, t, c)
    ensures Inv(cfg, t)
  {
    hide Records, Tables, Holders, Owners, Ledger, Room, EntryOk;
    ConfirmKeepsRecords(cfg, s, t, c);
    ConfirmKeepsTables(cfg, s, t, c);
    DropClaimKeeps(cfg, s, c);
    RoomWithLess(cfg, s.entries.Keys, s.inflight.Keys, |s.garbage|, |t.garbage|);
  }

  lemma {:induction false} RoomWithLess(cfg: Config, e: set<Key>, i: set<Key>, g: nat, h: nat)
    requires Room(cfg, e, i, g) && h <= g
    ensures Room(cfg, e, i, h)
  {
  }

  lemma {:induction false} DropClaimKeeps(cfg: Config, s: Cache, c: nat)
    requires Inv(cfg, s)
    ensures Inv(cfg, s.(claims := s.claims - {c}))
  {
    hide Records, Tables, Owners, Ledger, Room;
  }

  // ---- every step, every run ----

  lemma {:induction false} StartKeeps(cfg: Config, s: Cache, t: Cache, key: Key, expiry: nat, id: nat, r: nat, l: nat)
    requires Inv(cfg, s) && Start(cfg, s, t, key, expiry, id, r, l)
    ensures Inv(cfg, t)
  {
    hide Records, Holders, Owners, Ledger, Room, EntryOk, GarbageOk, Begin;
    LeaseSources(cfg, s);
    if key in s.entries {
      LeaseKeeps(cfg, s, l, s.entries[key]);
      assert Inv(cfg, t);
    } else if key in s.inflight && !s.downloads[s.inflight[key]].cancelled {
      InflightPending(cfg, s, key);
      JoinKeeps(cfg, s, s.inflight[key], r);
    } else if t != s {
      BeginKeeps(cfg, s, key, id, r);
    }
  }

  lemma {:induction false} InflightPending(cfg: Config, s: Cache, key: Key)
    requires Inv(cfg, s) && key in s.inflight
    ensures s.inflight[key] in s.downloads && s.downloads[s.inflight[key]].pending
  {
    hide Holders, Owners, Ledger, Room, SizesOk, FilesOk, PlacedOk;
    assert s.inflight[key] in s.downloads ==>
        RecordOk(cfg, s.inflight[key], s.downloads[s.inflight[key]], s.entries, s.inflight, s.garbage);
  }

  /** Every action, taken in any state that satisfies the invariant, leads to one that does. */
  lemma {:induction false} StepKeeps(cfg: Config, s: Cache, t: Cache, a: Action)
    requires Inv(cfg, s) && Step(cfg, s, t, a)
    ensures Inv(cfg, t)
  {
    hide Inv, Start, BeginDrop, FinishDrop, Alone, Reserve, Subtract, Release, Publish, Close, Free, Expire, Select, Delete, Confirm;
    match a
    case AStart(key, expiry, id, r, l) => StartKeeps(cfg, s, t, key, expiry, id, r, l);
    case ATakeResult(r, l) => LeaseSources(cfg, s); LeaseKeeps(cfg, s, l, s.requests[r].id);
    case ACloneLease(l, m) => LeaseSources(cfg, s); LeaseKeeps(cfg, s, m, s.leases[l]);
    case ADropLease(l) => DropLeaseKeeps(cfg, s, l);
    case ABeginDrop(r) => BeginDropKeeps(cfg, s, t, r);
    case AFinishDrop(r) => FinishDropKeeps(cfg, s, t, r);
    case AAlone(id, m, e) => AloneKeeps(cfg, s, t, id, m, e);
    case AReserve(id) => ReserveKeeps(cfg, s, t, id);
    case ASubtract(id) => SubtractKeeps(cfg, s, t, id);
    case ARelease(id) => ReleaseKeeps(cfg, s, t, id);
    case APublish(id, expiry) => PublishKeeps(cfg, s, t, id, expiry);
    case AClose(id) => CloseKeeps(cfg, s, t, id);
    case AFree(id) => FreeKeeps(cfg, s, t, id);
    case AExpire(k, now) => ExpireKeeps(cfg, s, t, k, now);
    case ASelect(f, c) => SelectKeeps(cfg, s, t, f, c);
    case ADelete(c) => DeleteKeeps(cfg, s, t, c);
    case AConfirm(c) => ConfirmKeeps(cfg, s, t, c);
    case ADropClaim(c) => DropClaimKeeps(cfg, s, c);
  }

  lemma {:induction false} EmptyHolds(cfg: Config)
    ensures Inv(cfg, Empty)
  {
    assert Weights(Empty.downloads) == map[];
    assert Empty.entries.Keys + Empty.inflight.Keys == {};
  }

  lemma {:induction false} RunKeeps(cfg: Config, states: seq<Cache>, actions: seq<Action>, i: nat)
    requires IsRun(cfg, states, actions) && i < |states|
    ensures Inv(cfg, states[i])
  {
    hide Inv, Step;
    if i == 0 {
      EmptyHolds(cfg);
    } else {
      RunKeeps(cfg, states, actions, i - 1);
      StepKeeps(cfg, states[i - 1], states[i], actions[i - 1]);
    }
  }

  // ---- what it means ----

  /** Lease safety, in every state of every run: a leased file is in `entries` and not in `garbage`, it
      is on disk with all the bytes of its download, and no cleanup pass has selected it for deletion. */
  lemma {:induction false} LeasedFilesAreSafe(cfg: Config, states: seq<Cache>, actions: seq<Action>, i: nat, l: nat)
    requires IsRun(cfg, states, actions) && i < |states| && l in states[i].leases
    ensures var s := states[i];
            var id := s.leases[l];
            && id in s.downloads && InEntries(s.entries, id, s.downloads[id])
            && Final(id) !in s.garbage
            && s.downloads[id].reserved && s.downloads[id].final == Some(s.downloads[id].bytes)
            && (forall c :: c in s.claims ==> s.claims[c].file != Final(id))
  {
    hide IsRun, Records, Owners, Ledger, Room;
    RunKeeps(cfg, states, actions, i);
  }

  /** Single flight: a key whose download is in flight and unpublished is not already in `entries`,
      and a key is in flight for one download only. */
  lemma {:induction false} SingleFlight(cfg: Config, states: seq<Cache>, actions: seq<Action>, i: nat, id: nat)
    requires IsRun(cfg, states, actions) && i < |states| && id in states[i].downloads && states[i].downloads[id].phase != Gone
    ensures var s := states[i];
            var key := s.downloads[id].key;
            && key in s.inflight && s.inflight[key] == id
            && (s.downloads[id].result == Ready <==> key in s.entries)
            && (key in s.entries ==> s.entries[key] == id)
  {
    hide IsRun, Tables, Holders, Owners, Ledger, Room, SizesOk, FilesOk;
    RunKeeps(cfg, states, actions, i);
    assert RecordOk(cfg, id, states[i].downloads[id], states[i].entries, states[i].inflight, states[i].garbage);
  }

  /** Completion: a `Pending` that has left the in-flight table has a result, so no waiter is stranded. */
  lemma {:induction false} NoWaiterIsStranded(cfg: Config, states: seq<Cache>, actions: seq<Action>, i: nat, r: nat)
    requires IsRun(cfg, states, actions) && i < |states| && r in states[i].requests
    ensures var s := states[i];
            var id := s.requests[r].id;
            && id in s.downloads
            && (s.downloads[id].result != Waiting || (s.downloads[id].key in s.inflight && s.inflight[s.downloads[id].key] == id))
  {
    hide IsRun, Tables, Owners, Ledger, Room, SizesOk, FilesOk;
    RunKeeps(cfg, states, actions, i);
    var s := states[i];
    assert RecordOk(cfg, s.requests[r].id, s.downloads[s.requests[r].id], s.entries, s.inflight, s.garbage);
  }

  /** Capacity: the key bound, the in-flight bound and the bound on files, with an unpublished download
      counted twice. */
  lemma {:induction false} CapacityHolds(cfg: Config, states: seq<Cache>, actions: seq<Action>, i: nat)
    requires IsRun(cfg, states, actions) && i < |states|
    ensures var s := states[i];
            && |s.entries.Keys + s.inflight.Keys| <= cfg.maxEntries
            && |s.inflight| <= cfg.maxInflight
            && |s.entries| + |s.garbage| + 2 * |s.inflight.Keys - s.entries.Keys| + |s.inflight.Keys * s.entries.Keys|
               <= 2 * cfg.maxEntries
  {
    hide IsRun, Records, Tables, Holders, Owners, Ledger;
    RunKeeps(cfg, states, actions, i);
  }

  function LiveBytes(downloads: map<nat, Download>): map<nat, int> {
    map id | id in downloads :: if downloads[id].reserved then downloads[id].bytes else 0
  }

  function BytesOnDisk(downloads: map<nat, Download>): map<nat, int> {
    map id | id in downloads :: Used(downloads[id])
  }

  lemma {:induction false} SumMonotone(a: map<nat, int>, b: map<nat, int>)
    requires a.Keys == b.Keys && forall k :: k in a ==> 0 <= a[k] <= b[k]
    ensures 0 <= Sum(a) <= Sum(b)
  {
    if k :| k in a {
      SumRemove(a, k);
      SumRemove(b, k);
      SumMonotone(a - {k}, b - {k});
    }
  }

  /** Disk accounting: bytes on disk, cancelled writers included, fit the live reservations; those sum to
      at most the shared counter, and exactly to it unless a `shrink` is between its two steps; the
      counter never exceeds the configured limit and never goes below zero. */
  lemma {:induction false} DiskAccounting(cfg: Config, states: seq<Cache>, actions: seq<Action>, i: nat)
    requires IsRun(cfg, states, actions) && i < |states|
    ensures var s := states[i];
            && 0 <= Sum(BytesOnDisk(s.downloads)) <= Sum(LiveBytes(s.downloads)) <= s.diskBytes <= cfg.maxCache
            && ((forall id :: id in s.downloads ==> s.downloads[id].phase != Shrinking) ==>
                  Sum(LiveBytes(s.downloads)) == s.diskBytes)
  {
    hide IsRun, Tables, Holders, Owners, Room, PlacedOk, Sum;
    RunKeeps(cfg, states, actions, i);
    var ds := states[i].downloads;
    forall id | id in ds
      ensures 0 <= Used(ds[id]) <= LiveBytes(ds)[id] <= Weight(ds[id])
      ensures ds[id].phase != Shrinking ==> LiveBytes(ds)[id] == Weight(ds[id])
    {
      assert RecordOk(cfg, id, ds[id], states[i].entries, states[i].inflight, states[i].garbage);
    }
    SumMonotone(BytesOnDisk(ds), LiveBytes(ds));
    SumMonotone(LiveBytes(ds), Weights(ds));
    if forall id :: id in ds ==> ds[id].phase != Shrinking { assert LiveBytes(ds) == Weights(ds); }
  }

  /** No subtraction underflows: every decrement in the source finds at least as much as it takes. */
  lemma {:induction false} CountersOk(cfg: Config, s: Cache, id: nat)
    requires Inv(cfg, s) && id in s.downloads
    ensures s.downloads[id].owners >= 0 && s.downloads[id].owed >= 0
    ensures s.downloads[id].reserved ==> s.downloads[id].bytes >= 0
  {
    RecordAt(cfg, s, id);
    hide Records, Tables, Holders, Ledger, Room, PlacedOk, FilesOk, LiveRequests;
  }

  lemma {:induction false} NoUnderflow(cfg: Config, states: seq<Cache>, actions: seq<Action>, i: nat)
    requires IsRun(cfg, states, actions) && i < |actions|
    ensures var t := states[i + 1];
            && t.diskBytes >= 0
            && forall id :: id in t.downloads ==>
                 && t.downloads[id].owners >= 0 && t.downloads[id].owed >= 0
                 && (t.downloads[id].reserved ==> t.downloads[id].bytes >= 0)
  {
    hide Step, Inv, Sum;
    DiskAccounting(cfg, states, actions, i + 1);
    RunKeeps(cfg, states, actions, i + 1);
    var t := states[i + 1];
    forall id | id in t.downloads
      ensures t.downloads[id].owners >= 0 && t.downloads[id].owed >= 0
      ensures t.downloads[id].reserved ==> t.downloads[id].bytes >= 0
    {
      CountersOk(cfg, t, id);
    }
  }
}
