/** What a history of backups promises: runs that complete, fail or are refused, and
    retention, in any order (internal/backup/manager.go). */
module BackupRuns {
  import opened Base
  import opened StorageModel
  import opened BackupStore
  import opened BackupHistory
  import opened BackupCopies

  /** A medium and its job table, with the passphrase each job was ever run with. */
  datatype Shelf = Shelf(disk: Disk, jobs: seq<Job>, secrets: map<string, string>)

  /** What can happen to it. A run comes with what it linked to, and what it wrote through
      inodes of that job; a completed one with its manifest and the storage it saved;
      retention with the jobs whose rows went and those whose files it tried to remove. */
  datatype Event =
    | Refused
    | FailedRun(job: Job, pass: string, plan: LinkPlan, written: Rewrites)
    | CompletedRun(job: Job, pass: string, plan: LinkPlan, written: Rewrites, made: Manifest, source: State)
    | Retired(root: string, gone: set<string>, hit: set<string>)

  /** A row with a new id at the head of the table; and of other jobs only copies written
      through read differently. */
  ghost predicate NewJob(a: Shelf, j: Job, pass: string, plan: LinkPlan, w: Rewrites, b: Shelf) {
    && j.id !in a.secrets && b.jobs == [j] + a.jobs && b.secrets == a.secrets[j.id := pass] && Tidy(b.disk)
    && OthersRewritten(a.disk, b.disk, j.root, j.id, plan, w)
    && forall k | k in w :: LinkedFrom(plan, k) in a.disk.links
  }

  /** The job's manifest is on the medium, each of its lists has exactly the active files of
      its pool, and exactly the good copies give back their content. */
  ghost predicate Made(c: Cipher, d0: Disk, j: Job, pass: string, m: Manifest, plan: LinkPlan,
                       files: map<string, FileRow>, d: Disk) {
    && Read(d, Place(j.root, j.id, ManifestFile)) == Some(Doc(m))
    && m.job == j.id && (m.encrypted ==> pass != "") && OneDigest(m.pools)
    && (forall pe | pe in m.pools :: Mirrors(files, pe))
    && FilesCopied(c, d0, plan, d, j.root, j.id, KeyOf(c, m, pass), m.pools)
  }

  ghost predicate Happens(c: Cipher, a: Shelf, ev: Event, b: Shelf) {
    match ev
    case Refused => b == a
    case FailedRun(j, pass, plan, w) => NewJob(a, j, pass, plan, w, b) && j.status == Failed
    case CompletedRun(j, pass, plan, w, m, source) =>
      && NewJob(a, j, pass, plan, w, b) && j.status == Completed
      && Made(c, a.disk, j, pass, m, plan, source.files, b.disk)
    case Retired(root, gone, hit) =>
      && gone <= hit && b.jobs == Keep(a.jobs, gone) && b.secrets == a.secrets && Tidy(b.disk)
      && forall q: Place | !(q.root == root && q.job in hit) :: Read(b.disk, q) == Read(a.disk, q)
  }

  ghost predicate IsHistory(c: Cipher, shelves: seq<Shelf>, events: seq<Event>) {
    && |shelves| == |events| + 1
    && TableOk(shelves[0].disk, shelves[0].jobs, shelves[0].secrets)
    && forall i {:trigger events[i]} | 0 <= i < |events| :: Happens(c, shelves[i], events[i], shelves[i + 1])
  }

  // ----- one event

  lemma EventKeepsTable(c: Cipher, a: Shelf, ev: Event, b: Shelf)
    requires TableOk(a.disk, a.jobs, a.secrets) && Happens(c, a, ev, b)
    ensures TableOk(b.disk, b.jobs, b.secrets)
    ensures forall id | id in a.secrets :: id in b.secrets && b.secrets[id] == a.secrets[id]
  {
    if ev.Retired? {
      KeepDistinct(a.jobs, ev.gone);
    }
  }

  /** The event did not try to remove this job's files, and wrote nothing else than was
      there through an inode of one of them. */
  predicate Spares(a: Shelf, ev: Event, j: Job) {
    match ev
    case Refused => true
    case Retired(root, _, hit) => !(j.root == root && j.id in hit)
    case FailedRun(_, _, plan, w) => WritesSpare(a.disk, plan, w, j)
    case CompletedRun(_, _, plan, w, _, _) => WritesSpare(a.disk, plan, w, j)
  }

  predicate WritesSpare(d: Disk, plan: LinkPlan, w: Rewrites, j: Job) {
    forall k | k in w && SameInode(d, CopyPlace(j.root, j.id, k), LinkedFrom(plan, k)) ::
      Read(d, LinkedFrom(plan, k)) == Some(Raw(w[k]))
  }

  /** A job listed before and after an event that spares it reads as it did. */
  lemma EventKeepsJob(c: Cipher, a: Shelf, ev: Event, b: Shelf, j: Job, q: Place)
    requires TableOk(a.disk, a.jobs, a.secrets) && Happens(c, a, ev, b) && j in a.jobs && Spares(a, ev, j)
    requires q.root == j.root && q.job == j.id
    ensures Read(b.disk, q) == Read(a.disk, q)
  {}

  /** A run leaves a job as it was exactly when it spares it. */
  lemma RunSparesIff(c: Cipher, a: Shelf, ev: Event, b: Shelf, j: Job)
    requires TableOk(a.disk, a.jobs, a.secrets) && Happens(c, a, ev, b) && j in a.jobs
    requires ev.FailedRun? || ev.CompletedRun?
    ensures Spares(a, ev, j)
       <==> forall q: Place | q.root == j.root && q.job == j.id :: Read(b.disk, q) == Read(a.disk, q)
  {
    if forall q: Place | q.root == j.root && q.job == j.id :: Read(b.disk, q) == Read(a.disk, q) {
      forall k | k in ev.written && SameInode(a.disk, CopyPlace(j.root, j.id, k), LinkedFrom(ev.plan, k))
        ensures Read(a.disk, LinkedFrom(ev.plan, k)) == Some(Raw(ev.written[k]))
      {
        var q := CopyPlace(j.root, j.id, k);
        assert !OfJob(q, ev.job.root, ev.job.id) && Hits(a.disk, ev.plan, ev.written, q);
      }
    }
  }

  /** Every copy of the new job is good, nothing but what was there has been written through,
      and every job retention tried to remove is gone from the table. */
  ghost predicate Clean(c: Cipher, a: Shelf, ev: Event) {
    match ev
    case Refused => true
    case FailedRun(_, _, plan, w) => RewritesSpare(a.disk, plan, w)
    case CompletedRun(_, pass, plan, w, m, _) =>
      RewritesSpare(a.disk, plan, w) && AllGood(c, a.disk, plan, m.pools, KeyOf(c, m, pass))
    case Retired(_, gone, hit) => hit == gone
  }

  /** The new job is intact exactly when all its copies are good. */
  lemma NewJobIntactIff(c: Cipher, a: Shelf, ev: Event, b: Shelf)
    requires Happens(c, a, ev, b) && ev.CompletedRun?
    ensures Intact(c, b.disk, ev.job, ev.pass)
       <==> AllGood(c, a.disk, ev.plan, ev.made.pools, KeyOf(c, ev.made, ev.pass))
  {
    CopiedIsOk(c, a.disk, ev.plan, b.disk, ev.job.root, ev.job.id, KeyOf(c, ev.made, ev.pass), ev.made.pools);
  }

  /** A clean event keeps a good history good. */
  lemma CleanKeepsHistory(c: Cipher, a: Shelf, ev: Event, b: Shelf)
    requires HistoryOk(c, a.disk, a.jobs, a.secrets) && Happens(c, a, ev, b) && Clean(c, a, ev)
    ensures HistoryOk(c, b.disk, b.jobs, b.secrets)
  {
    EventKeepsTable(c, a, ev, b);
    if ev.CompletedRun? {
      NewJobIntactIff(c, a, ev, b);
    }
    forall j | j in b.jobs && j.status == Completed ensures Intact(c, b.disk, j, b.secrets[j.id]) {
      if j in a.jobs {
        CleanSpares(c, a, ev, b, j);
        forall q: Place | q.root == j.root && q.job == j.id ensures Read(b.disk, q) == Read(a.disk, q) {
          EventKeepsJob(c, a, ev, b, j, q);
        }
        IntactKept(c, a.disk, b.disk, j, a.secrets[j.id]);
      }
    }
  }

  lemma CleanSpares(c: Cipher, a: Shelf, ev: Event, b: Shelf, j: Job)
    requires Happens(c, a, ev, b) && Clean(c, a, ev) && j in b.jobs && j in a.jobs
    ensures Spares(a, ev, j)
  {}

  // ----- histories

  lemma {:induction false} TablesHold(c: Cipher, shelves: seq<Shelf>, events: seq<Event>, i: nat, k: nat)
    requires IsHistory(c, shelves, events) && i <= k <= |events|
    ensures TableOk(shelves[k].disk, shelves[k].jobs, shelves[k].secrets)
    ensures forall id | id in shelves[i].secrets ::
              id in shelves[k].secrets && shelves[k].secrets[id] == shelves[i].secrets[id]
    decreases k
  {
    if k > 0 {
      TablesHold(c, shelves, events, if i < k then i else k - 1, k - 1);
      EventKeepsTable(c, shelves[k - 1], events[k - 1], shelves[k]);
    }
  }

  /** In a history of clean events every completed job listed at any time is intact under
      the passphrase it was run with. */
  lemma {:induction false} HistoryStaysOk(c: Cipher, shelves: seq<Shelf>, events: seq<Event>, k: nat)
    requires IsHistory(c, shelves, events) && k <= |events|
    requires HistoryOk(c, shelves[0].disk, shelves[0].jobs, shelves[0].secrets)
    requires forall i {:trigger events[i]} | 0 <= i < k :: Clean(c, shelves[i], events[i])
    ensures HistoryOk(c, shelves[k].disk, shelves[k].jobs, shelves[k].secrets)
  {
    if k > 0 {
      HistoryStaysOk(c, shelves, events, k - 1);
      CleanKeepsHistory(c, shelves[k - 1], events[k - 1], shelves[k]);
    }
  }

  lemma ListedBefore(c: Cipher, a: Shelf, ev: Event, b: Shelf, j: Job)
    requires Happens(c, a, ev, b) && j.id in a.secrets && j in b.jobs
    ensures j in a.jobs
  {}

  /** Rows never come back: a job listed at k was listed ever since its id was in use. */
  lemma {:induction false} ListedEverSince(c: Cipher, shelves: seq<Shelf>, events: seq<Event>, n: nat, k: nat, j: Job)
    requires IsHistory(c, shelves, events) && n <= k <= |events|
    requires j.id in shelves[n].secrets && j in shelves[k].jobs
    ensures j in shelves[n].jobs
    decreases k
  {
    if n < k {
      TablesHold(c, shelves, events, n, k - 1);
      ListedBefore(c, shelves[k - 1], events[k - 1], shelves[k], j);
      ListedEverSince(c, shelves, events, n, k - 1, j);
    }
  }

  /** Its files read as they did right after the run, whatever runs and retention did since. */
  lemma {:induction false} ReadsAsMade(c: Cipher, shelves: seq<Shelf>, events: seq<Event>, i: nat, k: nat, q: Place)
    requires IsHistory(c, shelves, events) && i < k <= |events|
    requires events[i].CompletedRun? && events[i].job in shelves[k].jobs
    requires forall r {:trigger events[r]} | i < r < k :: Spares(shelves[r], events[r], events[i].job)
    requires q.root == events[i].job.root && q.job == events[i].job.id
    ensures Read(shelves[k].disk, q) == Read(shelves[i + 1].disk, q)
    decreases k
  {
    if i + 1 < k {
      StillListed(c, shelves, events, i, k);
      ReadsAsMade(c, shelves, events, i, k - 1, q);
      assert Spares(shelves[k - 1], events[k - 1], events[i].job);
      EventKeepsJob(c, shelves[k - 1], events[k - 1], shelves[k], events[i].job, q);
    }
  }

  lemma StillListed(c: Cipher, shelves: seq<Shelf>, events: seq<Event>, i: nat, k: nat)
    requires IsHistory(c, shelves, events) && i + 1 < k <= |events|
    requires events[i].CompletedRun? && events[i].job in shelves[k].jobs
    ensures events[i].job in shelves[k - 1].jobs && Happens(c, shelves[k - 1], events[k - 1], shelves[k])
    ensures TableOk(shelves[k - 1].disk, shelves[k - 1].jobs, shelves[k - 1].secrets)
  {
    assert Happens(c, shelves[i], events[i], shelves[i + 1]);
    TablesHold(c, shelves, events, i + 1, k - 1);
    ListedEverSince(c, shelves, events, k - 1, k, events[i].job);
  }

  /** The run saved this pool. */
  predicate SavedPool(m: Manifest, pool: string) {
    exists pe | pe in m.pools :: pe.pool == pool
  }

  /** An active file of a saved pool at the time of the run, and, if the pool was saved once,
      not behind a spoiled link. */
  ghost predicate Saved(d0: Disk, ev: Event, k: Key)
    requires ev.CompletedRun?
  {
    exists f | f in ev.source.files ::
      && ev.source.files[f].key == k && ev.source.files[f].deletedAt.None? && SavedPool(ev.made, k.pool)
      && (Twice(PoolIds(ev.made.pools), k.pool) || !Spoiled(d0, ev.plan, k, ev.source.files[f].sha))
  }

  /** The passphrase of the run, or any if it did not encrypt. */
  predicate RightPass(ev: Event, pass: string)
    requires ev.CompletedRun?
  {
    ev.made.encrypted ==> pass == ev.pass
  }

  /** Exactly the good copies verify. */
  ghost predicate VerdictOf(c: Cipher, d0: Disk, ev: Event, d: Disk, pass: string, pool: string, e: FileEntry)
    requires ev.CompletedRun?
  {
    && (Verifies(c, d, ev.job.root, ev.job.id, KeyOf(c, ev.made, pass), pool, e)
        <==> EntryGood(c, d0, ev.plan, ev.made.pools, KeyOf(c, ev.made, pass), pool, e))
  }

  /** The copies of a job are as good now as after its run. */
  lemma VerdictAsMade(c: Cipher, shelves: seq<Shelf>, events: seq<Event>, i: nat, k: nat, pass: string, pe: PoolEntry,
                      e: FileEntry)
    requires IsHistory(c, shelves, events) && i < k <= |events|
    requires events[i].CompletedRun? && events[i].job in shelves[k].jobs && RightPass(events[i], pass)
    requires forall r {:trigger events[r]} | i < r < k :: Spares(shelves[r], events[r], events[i].job)
    requires pe in events[i].made.pools && e in pe.files
    ensures VerdictOf(c, shelves[i].disk, events[i], shelves[k].disk, pass, pe.pool, e)
  {
    var ev := events[i];
    ReadsAsMade(c, shelves, events, i, k, CopyOf(ev.job.root, ev.job.id, pe.pool, e));
    assert Happens(c, shelves[i], ev, shelves[i + 1]);
  }

  /** However many runs, failures and retentions lie between, a completed job that is still
      listed, and that every event since has spared, has the manifest and the
      passphrase of its run; and restoring it into an empty folder gives exactly the active
      files of the pools it saved, each with the content it had on disk at that run, save
      those of a pool saved once that it linked to bytes that were not the plain content. */
  lemma RestoredAsBackedUp(c: Cipher, shelves: seq<Shelf>, events: seq<Event>, i: nat, k: nat, pass: string)
    requires IsHistory(c, shelves, events) && i < k <= |events|
    requires events[i].CompletedRun? && events[i].job in shelves[k].jobs && RightPass(events[i], pass)
    requires RowsBacked(events[i].source.files, events[i].source.tree)
    requires forall r {:trigger events[r]} | i < r < k :: Spares(shelves[r], events[r], events[i].job)
    ensures var ev, now := events[i], shelves[k];
            && ev.job.id in now.secrets && now.secrets[ev.job.id] == ev.pass
            && Read(now.disk, Place(ev.job.root, ev.job.id, ManifestFile)) == Some(Doc(ev.made))
    ensures var ev := events[i];
            var key := KeyOf(c, ev.made, pass);
            var out := PutAll(c, shelves[k].disk, ev.job.root, ev.job.id, key, ev.made.pools, map[]);
            && (forall x :: x in out <==> Saved(shelves[i].disk, ev, x))
            && (forall x | x in out :: At(x) in ev.source.tree.content && out[x] == ev.source.tree.content[At(x)])
  {
    var ev, now := events[i], shelves[k];
    assert Happens(c, shelves[i], ev, shelves[i + 1]);
    TablesHold(c, shelves, events, i + 1, k);
    ReadsAsMade(c, shelves, events, i, k, Place(ev.job.root, ev.job.id, ManifestFile));
    forall pe, e | pe in ev.made.pools && e in pe.files
      ensures VerdictOf(c, shelves[i].disk, ev, now.disk, pass, pe.pool, e)
    {
      VerdictAsMade(c, shelves, events, i, k, pass, pe, e);
    }
    GivesWhatWasSaved(c, shelves[i].disk, ev, now.disk, pass);
  }

  lemma GivesWhatWasSaved(c: Cipher, d0: Disk, ev: Event, d: Disk, pass: string)
    requires ev.CompletedRun? && OneDigest(ev.made.pools) && RowsBacked(ev.source.files, ev.source.tree)
    requires forall pe | pe in ev.made.pools :: Mirrors(ev.source.files, pe)
    requires forall pe, e | pe in ev.made.pools && e in pe.files :: VerdictOf(c, d0, ev, d, pass, pe.pool, e)
    ensures var out := PutAll(c, d, ev.job.root, ev.job.id, KeyOf(c, ev.made, pass), ev.made.pools, map[]);
            && (forall x :: x in out <==> Saved(d0, ev, x))
            && (forall x | x in out :: At(x) in ev.source.tree.content && out[x] == ev.source.tree.content[At(x)])
  {
    var key := KeyOf(c, ev.made, pass);
    var out := PutAll(c, d, ev.job.root, ev.job.id, key, ev.made.pools, map[]);
    forall x
      ensures x in out <==> Saved(d0, ev, x)
      ensures x in out ==> At(x) in ev.source.tree.content && out[x] == ev.source.tree.content[At(x)]
    {
      PutAllFresh(c, d, ev.job.root, ev.job.id, key, ev.made.pools, x);
      if LastOf(ev.made.pools, x).Some? {
        LastEntryDecides(c, d0, ev, d, pass, x);
      } else {
        NotListedNotSaved(d0, ev, x);
      }
    }
  }

  /** The last entry of a file verifies exactly when the file was saved, and has the content
      it had. */
  lemma LastEntryDecides(c: Cipher, d0: Disk, ev: Event, d: Disk, pass: string, x: Key)
    requires ev.CompletedRun? && OneDigest(ev.made.pools) && RowsBacked(ev.source.files, ev.source.tree)
    requires forall pe | pe in ev.made.pools :: Mirrors(ev.source.files, pe)
    requires forall pe, e | pe in ev.made.pools && e in pe.files :: VerdictOf(c, d0, ev, d, pass, pe.pool, e)
    requires LastOf(ev.made.pools, x).Some?
    ensures var e := LastOf(ev.made.pools, x).value;
            && (Verifies(c, d, ev.job.root, ev.job.id, KeyOf(c, ev.made, pass), x.pool, e) <==> Saved(d0, ev, x))
            && At(x) in ev.source.tree.content && ev.source.tree.content[At(x)] == e.sha.of
  {
    var pools, e := ev.made.pools, LastOf(ev.made.pools, x).value;
    LastOfIsListed(pools, x);
    var pe :| pe in pools && e in pe.files && KeyIn(pe.pool, e) == x;
    assert VerdictOf(c, d0, ev, d, pass, pe.pool, e);
    assert EntryGood(c, d0, ev.plan, pools, KeyOf(c, ev.made, pass), x.pool, e)
      <==> Twice(PoolIds(pools), x.pool) || !Spoiled(d0, ev.plan, x, e.sha);
    RowOfListed(ev, pe, e);
    SavedHasDigest(d0, ev, x, pe, e);
  }

  lemma RowOfListed(ev: Event, pe: PoolEntry, e: FileEntry)
    requires ev.CompletedRun? && RowsBacked(ev.source.files, ev.source.tree)
    requires e in pe.files && OnlyActive(ev.source.files, pe)
    ensures var x := KeyIn(pe.pool, e);
            && At(x) in ev.source.tree.content && ev.source.tree.content[At(x)] == e.sha.of
    ensures exists f | f in ev.source.files ::
              ev.source.files[f].key == KeyIn(pe.pool, e) && ev.source.files[f].deletedAt.None?
              && ev.source.files[f].sha == e.sha
  {
    var files := ev.source.files;
    var f :| f in files && files[f].deletedAt.None? && files[f].key == KeyIn(pe.pool, e) && files[f].sha == e.sha;
    assert RowBacked(ev.source.tree, files[f]);
  }

  /** All active files of this key have one content: what is on disk. */
  lemma SavedHasDigest(d0: Disk, ev: Event, x: Key, pe: PoolEntry, e: FileEntry)
    requires ev.CompletedRun? && RowsBacked(ev.source.files, ev.source.tree)
    requires pe in ev.made.pools && e in pe.files && KeyIn(pe.pool, e) == x
    requires At(x) in ev.source.tree.content && ev.source.tree.content[At(x)] == e.sha.of
    requires exists f | f in ev.source.files ::
               ev.source.files[f].key == x && ev.source.files[f].deletedAt.None? && ev.source.files[f].sha == e.sha
    ensures Saved(d0, ev, x) <==> Twice(PoolIds(ev.made.pools), x.pool) || !Spoiled(d0, ev.plan, x, e.sha)
  {
    forall f | f in ev.source.files && ev.source.files[f].key == x ensures ev.source.files[f].sha == e.sha {
      assert RowBacked(ev.source.tree, ev.source.files[f]);
    }
  }

  lemma NotListedNotSaved(d0: Disk, ev: Event, x: Key)
    requires ev.CompletedRun? && LastOf(ev.made.pools, x).None?
    requires forall pe | pe in ev.made.pools :: Mirrors(ev.source.files, pe)
    ensures !Saved(d0, ev, x)
  {
    LastOfIsListed(ev.made.pools, x);
    if Saved(d0, ev, x) {
      var f :| f in ev.source.files && ev.source.files[f].key == x && ev.source.files[f].deletedAt.None?;
      var pe :| pe in ev.made.pools && pe.pool == x.pool;
      var e := EntryOfRow(ev.source.files, pe, f);
      assert Listed(ev.made.pools, x, e);
    }
  }

  lemma EntryOfRow(files: map<string, FileRow>, pe: PoolEntry, f: string) returns (e: FileEntry)
    requires EveryActive(files, pe) && f in files && files[f].deletedAt.None? && files[f].key.pool == pe.pool
    ensures e in pe.files && KeyIn(pe.pool, e) == files[f].key && e.sha == files[f].sha
  {
    assert ActiveRow(files, files[f]);
    e :| e in pe.files && KeyIn(pe.pool, e) == files[f].key && e.sha == files[f].sha;
  }
}
