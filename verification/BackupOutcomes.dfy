/** What the runs of a backup manager promise to whoever schedules them
    (internal/backup/manager.go): which options leave the other backups as they are, and
    keep every completed backup restorable. */
module BackupOutcomes {
  import opened Base
  import opened StorageModel
  import opened BackupStore
  import opened BackupHistory
  import opened BackupCopies
  import opened BackupPasses
  import opened BackupRetention
  import opened BackupRuns
  import opened BackupManager

  // ----- one run, and the jobs before it

  /** A run leaves every other job's files as they were exactly when what it wrote through
      shared inodes was there before; if no pool comes twice, that is always. */
  lemma OthersKeptIffSpared(c: Cipher, pools: seq<Pool>, s: State, opts: RunOptions, ch: Chance, a: Shelf,
                            r: Reply<Job>, ev: Event, b: Shelf)
    requires JobRan(c, pools, s, opts, ch, a, r, ev, b) && ev != Refused
    ensures OthersKept(a.disk, b.disk, opts.root, ch.jobId) <==> RewritesSpare(a.disk, ev.plan, ev.written)
    ensures OnePass(pools, opts) ==> ev.written == map[]
  {
    OthersKeptIff(a.disk, b.disk, opts.root, ch.jobId, ev.plan, ev.written);
    OnceIsDistinct(pools, opts, ev.job.pools);
    if OnePass(pools, opts) {
      OnceIsNothing(SetupOf(c, s, opts, ch, a), ev.job.pools, ev.written);
    }
  }

  lemma RunEnded(c: Cipher, pools: seq<Pool>, s: State, opts: RunOptions, ch: Chance, a: Shelf, j: Job, ev: Event,
                 b: Shelf)
    requires JobRan(c, pools, s, opts, ch, a, Good(j), ev, b)
    ensures var u := SetupOf(c, s, opts, ch, a);
            && ev.CompletedRun? && ev.plan == u.plan && Fit(u) && AskedFor(pools, opts.poolIds, j.pools)
            && Written(u, j.pools, ev.written) && RanWell(u, j.pools, ev.made, b.disk, ev.written)
            && OthersRewritten(a.disk, b.disk, opts.root, ch.jobId, u.plan, ev.written)
  {}

  /** A run that comes to its end leaves them as they were exactly when no file of a pool
      named twice was linked to bytes other than its plain content. */
  lemma CompletedSparesIff(c: Cipher, pools: seq<Pool>, s: State, opts: RunOptions, ch: Chance, a: Shelf, j: Job,
                           ev: Event, b: Shelf)
    requires JobRan(c, pools, s, opts, ch, a, Good(j), ev, b)
    ensures OthersKept(a.disk, b.disk, opts.root, ch.jobId)
       <==> NoneSpoiledTwice(SetupOf(c, s, opts, ch, a), j.pools)
  {
    RunEnded(c, pools, s, opts, ch, a, j, ev, b);
    OthersKeptIffSpared(c, pools, s, opts, ch, a, Good(j), ev, b);
    SparesIffNoneSpoiled(SetupOf(c, s, opts, ch, a), j.pools, ev.written);
  }

  /** The older manifest lists an active file of a pool named twice with its present content,
      it can be linked, and its ciphertext differs from that. */
  ghost predicate TwiceShares(c: Cipher, older: Manifest, pass: string, unlinkable: set<Key>,
                              files: map<string, FileRow>, ids: seq<string>) {
    exists pe, x, row | pe in older.pools && x in pe.files && ActiveRow(files, row) ::
      && KeyIn(pe.pool, x) == row.key && x.sha == row.sha && row.key !in unlinkable && Twice(ids, row.key.pool)
      && StreamChanges(c, c.kdf(pass, older.salt), x.iv, x.sha.of)
  }

  /** A plain incremental run after an encrypted job that comes to its end: the older job
      is still intact if and only if no file of a pool named twice shares its ciphertext. */
  lemma EncryptedSurvivesIff(c: Cipher, pools: seq<Pool>, s: State, opts: RunOptions, ch: Chance, a: Shelf, j: Job,
                             ev: Event, b: Shelf, pass: string, older: Manifest)
    requires JobRan(c, pools, s, opts, ch, a, Good(j), ev, b) && TableOk(a.disk, a.jobs, a.secrets)
    requires opts.incremental && !opts.encrypt && CompletedAt(a.jobs, opts.root) != []
    requires var last := CompletedAt(a.jobs, opts.root)[0];
             && Intact(c, a.disk, last, pass)
             && Read(a.disk, Place(opts.root, last.id, ManifestFile)) == Some(Doc(older))
    requires older.encrypted
    ensures Intact(c, b.disk, CompletedAt(a.jobs, opts.root)[0], pass)
       <==> !TwiceShares(c, older, pass, ch.unlinkable, s.files, j.pools)
  {
    var last := CompletedAt(a.jobs, opts.root)[0];
    assert last in CompletedAt(a.jobs, opts.root);
    var u := SetupOf(c, s, opts, ch, a);
    CompletedSparesIff(c, pools, s, opts, ch, a, j, ev, b);
    if NoneSpoiledTwice(u, j.pools) {
      IntactKept(c, a.disk, b.disk, last, pass);
      if TwiceShares(c, older, pass, ch.unlinkable, s.files, j.pools) {
        var pe, x, row :| pe in older.pools && x in pe.files && ActiveRow(s.files, row) && KeyIn(pe.pool, x) == row.key
                          && x.sha == row.sha && row.key !in ch.unlinkable && Twice(j.pools, row.key.pool)
                          && StreamChanges(c, c.kdf(pass, older.salt), x.iv, x.sha.of);
        RunSpoilsIff(c, a.disk, a.jobs, opts, ch, pass, older, pe, x, row.sha);
      }
    } else {
      var row :| ActiveRow(s.files, row) && Twice(j.pools, row.key.pool) && Spoiled(u.d0, u.plan, row.key, row.sha);
      var pe, x := SpoiledIsListed(c, a.disk, a.jobs, opts, ch, pass, older, row.key, row.sha);
      RunSpoilsIff(c, a.disk, a.jobs, opts, ch, pass, older, pe, x, row.sha);
      EncryptedIsLost(c, pools, s, opts, ch, a, j, ev, b, pass, older, pe, x, row);
    }
  }

  /** The copy that was shared holds the plain content now, and the older job is lost. */
  lemma EncryptedIsLost(c: Cipher, pools: seq<Pool>, s: State, opts: RunOptions, ch: Chance, a: Shelf, j: Job,
                        ev: Event, b: Shelf, pass: string, older: Manifest, pe: PoolEntry, x: FileEntry, row: FileRow)
    requires JobRan(c, pools, s, opts, ch, a, Good(j), ev, b) && TableOk(a.disk, a.jobs, a.secrets)
    requires opts.incremental && !opts.encrypt && CompletedAt(a.jobs, opts.root) != []
    requires var last := CompletedAt(a.jobs, opts.root)[0];
             && Intact(c, a.disk, last, pass)
             && Read(a.disk, Place(opts.root, last.id, ManifestFile)) == Some(Doc(older))
    requires older.encrypted && pe in older.pools && x in pe.files && ActiveRow(s.files, row)
    requires KeyIn(pe.pool, x) == row.key && x.sha == row.sha && row.key !in ch.unlinkable
    requires Twice(j.pools, row.key.pool) && StreamChanges(c, c.kdf(pass, older.salt), x.iv, x.sha.of)
    ensures var last := CompletedAt(a.jobs, opts.root)[0];
            && Read(b.disk, CopyOf(opts.root, last.id, pe.pool, x)) == Some(Raw(row.sha.of))
            && !Intact(c, b.disk, last, pass)
  {
    var last := CompletedAt(a.jobs, opts.root)[0];
    assert last in CompletedAt(a.jobs, opts.root);
    RunEnded(c, pools, s, opts, ch, a, j, ev, b);
    RunSpoilsIff(c, a.disk, a.jobs, opts, ch, pass, older, pe, x, row.sha);
    SharedIsLost(c, SetupOf(c, s, opts, ch, a), j.pools, b.disk, ev.written, last, pass, older, pe, x, row);
  }

  lemma SharedIsLost(c: Cipher, u: Setup, ids: seq<string>, d: Disk, w: Rewrites, last: Job, pass: string,
                     older: Manifest, pe: PoolEntry, x: FileEntry, row: FileRow)
    requires u.plan.job != u.job && OthersRewritten(u.d0, d, u.root, u.job, u.plan, w) && AllWritten(u, ids, w)
    requires u.plan.root == last.root && u.plan.job == last.id
    requires Read(u.d0, Place(last.root, last.id, ManifestFile)) == Some(Doc(older)) && older.encrypted
    requires pe in older.pools && x in pe.files && KeyIn(pe.pool, x) == row.key && x.sha == row.sha
    requires ActiveRow(u.src.files, row) && Twice(ids, row.key.pool) && Spoiled(u.d0, u.plan, row.key, row.sha)
    requires StreamChanges(c, c.kdf(pass, older.salt), x.iv, x.sha.of)
    ensures Read(d, CopyOf(last.root, last.id, pe.pool, x)) == Some(Raw(row.sha.of)) && !Intact(c, d, last, pass)
  {
    SpoiledIsPlainNow(u, ids, d, w, row);
    assert !OfJob(Place(last.root, last.id, ManifestFile), u.root, u.job);
    PlainIsNotIntact(c, d, last, pass, older, pe, x);
  }

  lemma PlainIsNotIntact(c: Cipher, d: Disk, j: Job, pass: string, m: Manifest, pe: PoolEntry, e: FileEntry)
    requires Read(d, Place(j.root, j.id, ManifestFile)) == Some(Doc(m)) && m.encrypted
    requires pe in m.pools && e in pe.files && Read(d, CopyOf(j.root, j.id, pe.pool, e)) == Some(Raw(e.sha.of))
    requires StreamChanges(c, c.kdf(pass, m.salt), e.iv, e.sha.of)
    ensures !Intact(c, d, j, pass)
  {
    StreamShows(c, c.kdf(pass, m.salt), e.iv, e.sha.of);
    assert !EntryOk(c, d, j.root, j.id, KeyOf(c, m, pass), pe.pool, e);
    assert !PoolOk(c, d, j.root, j.id, KeyOf(c, m, pass), pe);
  }

  lemma NamedTwice(pools: seq<Pool>, pool: Pool, got: seq<string>)
    requires AskedFor(pools, [pool.id, pool.id], got) && pool in pools && Eligible(pool)
    ensures Twice(got, pool.id)
  {
    assert Asked(pools, [pool.id, pool.id], pool);
    assert multiset(got)[pool.id] == TimesAsked(pools, [pool.id, pool.id], pool.id);
  }

  /** For one: a plain incremental run with a pool named twice, right after an encrypted one,
      with a file in it that has not changed. */
  lemma PoolTwiceAfterEncrypted(c: Cipher, pools: seq<Pool>, s: State, opts: RunOptions, ch: Chance, a: Shelf, j: Job,
                                ev: Event, b: Shelf, pass: string, older: Manifest, pool: Pool, pe: PoolEntry,
                                x: FileEntry, row: FileRow)
    requires JobRan(c, pools, s, opts, ch, a, Good(j), ev, b) && TableOk(a.disk, a.jobs, a.secrets)
    requires opts.poolIds == [pool.id, pool.id] && pool in pools && Eligible(pool)
    requires opts.incremental && !opts.encrypt && CompletedAt(a.jobs, opts.root) != []
    requires var last := CompletedAt(a.jobs, opts.root)[0];
             && Intact(c, a.disk, last, pass)
             && Read(a.disk, Place(opts.root, last.id, ManifestFile)) == Some(Doc(older))
    requires older.encrypted && pe in older.pools && x in pe.files && pe.pool == pool.id
    requires ActiveRow(s.files, row) && row.key == KeyIn(pe.pool, x) && row.sha == x.sha && row.key !in ch.unlinkable
    requires StreamChanges(c, c.kdf(pass, older.salt), x.iv, x.sha.of)
    ensures var last := CompletedAt(a.jobs, opts.root)[0];
            && Read(b.disk, CopyOf(opts.root, last.id, pe.pool, x)) == Some(Raw(x.sha.of))
            && !Intact(c, b.disk, last, pass)
  {
    RunEnded(c, pools, s, opts, ch, a, j, ev, b);
    NamedTwice(pools, pool, j.pools);
    EncryptedIsLost(c, pools, s, opts, ch, a, j, ev, b, pass, older, pe, x, row);
  }

  // ----- one run, and the job it makes

  /** The new job is intact if and only if no file of a pool named once was linked to bytes
      other than its plain content, and no encrypting run came back to a file with another
      key stream. */
  lemma CompletedIntactIff(c: Cipher, pools: seq<Pool>, s: State, opts: RunOptions, ch: Chance, a: Shelf, j: Job,
                           ev: Event, b: Shelf)
    requires JobRan(c, pools, s, opts, ch, a, Good(j), ev, b)
    ensures var u := SetupOf(c, s, opts, ch, a);
            && (Intact(c, b.disk, j, opts.passphrase)
                <==> NoneSpoiledOnce(u, j.pools) && SameStreams(u, j.pools))
            && (AllVerify(c, b.disk, j.root, j.id, u.key, ev.made.pools)
                <==> NoneSpoiledOnce(u, j.pools) && SameStreams(u, j.pools))
  {
    var u := SetupOf(c, s, opts, ch, a);
    RunEnded(c, pools, s, opts, ch, a, j, ev, b);
    RunCompleted(c, pools, s, opts, ch, a, j, ev, b);
    NewJobIntactIff(c, a, ev, b);
    AllGoodIff(u, j.pools, ev.made.pools);
    RunIsCopied(u, j.pools, b.disk, ev.made.pools);
    GoodIsVerified(c, a.disk, u.plan, b.disk, j.root, j.id, u.key, ev.made.pools);
  }

  lemma GoodIsVerified(c: Cipher, d0: Disk, plan: LinkPlan, d: Disk, root: string, job: string, key: Option<Bytes>,
                       entries: seq<PoolEntry>)
    requires FilesCopied(c, d0, plan, d, root, job, key, entries)
    ensures AllVerify(c, d, root, job, key, entries) <==> AllGood(c, d0, plan, entries, key)
  {}

  lemma {:induction false} AllTheSame(ids: seq<string>, id: string)
    requires forall i | 0 <= i < |ids| :: ids[i] == id
    ensures multiset(ids)[id] == |ids|
  {
    if ids != [] {
      AllTheSame(ids[1..], id);
      assert ids == [ids[0]] + ids[1..];
    }
  }

  lemma TwoPasses(pools: seq<Pool>, pool: Pool, got: seq<string>)
    requires AskedFor(pools, [pool.id, pool.id], got) && pool in pools && Eligible(pool)
    ensures got == [pool.id, pool.id]
  {
    var ids := [pool.id, pool.id];
    assert Asked(pools, ids, pool);
    forall i | 0 <= i < |got| ensures got[i] == pool.id {
      assert got[i] in got && multiset(got)[got[i]] == TimesAsked(pools, ids, got[i]);
    }
    AllTheSame(got, pool.id);
    assert multiset(got)[pool.id] == TimesAsked(pools, ids, pool.id);
  }

  /** For one: a run that encrypts, over one pool twice, and whose two vectors for some file
      give different key streams. It completes without any fault; but the second pass has
      written the copy under its own vector, and the first list still records the other. So
      verifying the job fails, and so does restoring it, though every file comes back. */
  lemma PoolTwiceEncrypted(c: Cipher, pools: seq<Pool>, s: State, opts: RunOptions, ch: Chance, a: Shelf, j: Job,
                           ev: Event, b: Shelf, pool: Pool, row: FileRow, o: Opened)
    requires JobRan(c, pools, s, opts, ch, a, Good(j), ev, b) && DistinctJobs(b.jobs)
    requires opts.encrypt && opts.poolIds == [pool.id, pool.id] && pool in pools && Eligible(pool)
    requires ActiveRow(s.files, row) && row.key.pool == pool.id
    requires !StreamsAgree(c, c.kdf(opts.passphrase, ch.salt), ch.ivs(0, row.key), ch.ivs(1, row.key), row.sha.of)
    requires IsOpened(c, b.disk, b.jobs, j.id, opts.passphrase, o)
    ensures j.status == Completed && CanOpen(b.disk, j, opts.passphrase)
    ensures !AllVerify(c, b.disk, o.job.root, j.id, o.key, o.manifest.pools)
    ensures forall x | ActiveRow(s.files, x) && x.key.pool == pool.id ::
              Lookup(PutAll(c, b.disk, o.job.root, j.id, o.key, o.manifest.pools, map[]), x.key) == Some(x.sha.of)
  {
    var u := SetupOf(c, s, opts, ch, a);
    RunEnded(c, pools, s, opts, ch, a, j, ev, b);
    OpenedIsMade(c, pools, s, opts, ch, a, j, ev, b, o);
    TwoPasses(pools, pool, j.pools);
    CompletedIntactIff(c, pools, s, opts, ch, a, j, ev, b);
    assert LastPass(j.pools, pool.id) == 1 && j.pools[0] == row.key.pool;
    forall x | ActiveRow(s.files, x) && x.key.pool == pool.id
      ensures Lookup(PutAll(c, b.disk, o.job.root, j.id, o.key, o.manifest.pools, map[]), x.key) == Some(x.sha.of)
    {
      TwiceComesBack(u, j.pools, b.disk, ev.made.pools, x);
    }
  }

  /** What opening the new job finds. */
  lemma OpenedIsMade(c: Cipher, pools: seq<Pool>, s: State, opts: RunOptions, ch: Chance, a: Shelf, j: Job,
                     ev: Event, b: Shelf, o: Opened)
    requires JobRan(c, pools, s, opts, ch, a, Good(j), ev, b) && DistinctJobs(b.jobs)
    requires IsOpened(c, b.disk, b.jobs, j.id, opts.passphrase, o)
    ensures o.job == j && o.manifest == ev.made && o.key == SetupOf(c, s, opts, ch, a).key
    ensures j.root == opts.root && j.id == ch.jobId && CanOpen(b.disk, j, opts.passphrase)
  {
    RunCompleted(c, pools, s, opts, ch, a, j, ev, b);
    assert b.jobs[0] == j && Read(b.disk, Place(j.root, j.id, ManifestFile)) == Some(Doc(ev.made));
    OneJobOfId(b.jobs, o.job, j);
  }

  lemma OneJobOfId(jobs: seq<Job>, i: Job, j: Job)
    requires DistinctJobs(jobs) && i in jobs && j in jobs && i.id == j.id
    ensures i == j
  {}

  // ----- schedules

  /** What a schedule consists of: runs, each with the storage it found and its answer, and
      retentions. */
  datatype Step =
    | RunStep(opts: RunOptions, ch: Chance, storage: State, reply: Reply<Job>)
    | RetentionStep(opts: RunOptions, ch: Chance)

  ghost predicate Took(c: Cipher, pools: seq<Pool>, a: Shelf, step: Step, ev: Event, b: Shelf) {
    match step
    case RunStep(opts, ch, s, r) => JobRan(c, pools, s, opts, ch, a, r, ev, b)
    case RetentionStep(opts, ch) => RetentionRan(c, opts, ch, a, ev, b)
  }

  ghost predicate IsSchedule(c: Cipher, pools: seq<Pool>, shelves: seq<Shelf>, steps: seq<Step>, events: seq<Event>) {
    && |shelves| == |steps| + 1 && |events| == |steps|
    && forall i {:trigger events[i]} | 0 <= i < |steps| ::
         Took(c, pools, shelves[i], steps[i], events[i], shelves[i + 1])
  }

  /** The newest completed job at the destination is encrypted. */
  predicate NewestEncrypted(d: Disk, jobs: seq<Job>, root: string) {
    var completed := CompletedAt(jobs, root);
    && completed != []
    && var b := Read(d, Place(root, completed[0].id, ManifestFile));
    b.Some? && b.value.Doc? && b.value.manifest.encrypted
  }

  /** Later passes over a pool find the files as they are recorded, and can write them. */
  ghost predicate Undisturbed(s: State, opts: RunOptions, ch: Chance) {
    RowsBacked(s.files, s.tree) && forall p | p in ch.unwritable :: !Twice(opts.poolIds, p.1.pool)
  }

  /** A run that does not encrypt a pool twice, and is not both plain and incremental after an
      encrypted one; if it is incremental and over a pool twice, no write there is cut short.
      A retention that meets no file that cannot be removed. */
  ghost predicate Careful(pools: seq<Pool>, a: Shelf, step: Step) {
    match step
    case RunStep(opts, ch, s, _) =>
      && (opts.encrypt ==> OnePass(pools, opts))
      && (opts.incremental && !opts.encrypt ==>
            && !NewestEncrypted(a.disk, a.jobs, opts.root) && (OnePass(pools, opts) || Undisturbed(s, opts, ch)))
    case RetentionStep(opts, ch) =>
      Stuck(a.disk, opts.root, VotedOut(a.jobs, opts, ch.prunedAt), ch.stubborn) == {}
  }

  lemma CarefulSpoils(c: Cipher, a: Shelf, opts: RunOptions, ch: Chance, k: Key, sha: Digest)
    requires HistoryOk(c, a.disk, a.jobs, a.secrets)
    requires opts.incremental && !opts.encrypt ==> !NewestEncrypted(a.disk, a.jobs, opts.root)
    ensures !Spoiled(a.disk, PlanOf(a.disk, a.jobs, opts, ch), k, sha)
  {
    var completed := CompletedAt(a.jobs, opts.root);
    assert completed != [] ==> completed[0] in completed;
    RunSpoilsNothing(c, a.disk, a.jobs, opts, ch, if completed != [] then a.secrets[completed[0].id] else "", k, sha);
  }

  /** Even over a pool twice, a run that comes to its end leaves every other job as it was,
      unless it is plain and incremental, after an encrypted job. */
  lemma CarefulKeepsOthers(c: Cipher, pools: seq<Pool>, s: State, opts: RunOptions, ch: Chance, a: Shelf, j: Job,
                           ev: Event, b: Shelf)
    requires HistoryOk(c, a.disk, a.jobs, a.secrets) && JobRan(c, pools, s, opts, ch, a, Good(j), ev, b)
    requires opts.incremental && !opts.encrypt ==> !NewestEncrypted(a.disk, a.jobs, opts.root)
    ensures OthersKept(a.disk, b.disk, opts.root, ch.jobId)
  {
    CompletedSparesIff(c, pools, s, opts, ch, a, j, ev, b);
    forall row | ActiveRow(s.files, row) ensures !Spoiled(a.disk, PlanOf(a.disk, a.jobs, opts, ch), row.key, row.sha) {
      CarefulSpoils(c, a, opts, ch, row.key, row.sha);
    }
  }

  /** What a careful run writes through was there. */
  lemma CarefulSpares(c: Cipher, pools: seq<Pool>, s: State, opts: RunOptions, ch: Chance, a: Shelf, r: Reply<Job>,
                      ev: Event, b: Shelf)
    requires HistoryOk(c, a.disk, a.jobs, a.secrets) && JobRan(c, pools, s, opts, ch, a, r, ev, b) && ev != Refused
    requires Careful(pools, a, RunStep(opts, ch, s, r))
    ensures RewritesSpare(a.disk, ev.plan, ev.written)
  {
    OthersKeptIffSpared(c, pools, s, opts, ch, a, r, ev, b);
    if !opts.incremental || opts.encrypt {
      UnlinkedIsNothing(SetupOf(c, s, opts, ch, a), ev.job.pools, ev.written);
    } else if !OnePass(pools, opts) {
      forall k | k in ev.written ensures Read(a.disk, LinkedFrom(ev.plan, k)) == Some(Raw(ev.written[k])) {
        WrittenWasThere(c, pools, s, opts, ch, a, ev.job.pools, ev.written, k);
      }
    }
  }

  /** A run that links to nothing writes through nothing. */
  lemma UnlinkedIsNothing(u: Setup, ids: seq<string>, w: Rewrites)
    requires Written(u, ids, w) && u.plan.digests == map[]
    ensures w == map[]
  {
    forall k | k in w ensures k in u.plan.digests {
      var row := RowOfWritten(u, ids, w, k);
    }
    assert forall k :: k !in w;
  }

  lemma WrittenWasThere(c: Cipher, pools: seq<Pool>, s: State, opts: RunOptions, ch: Chance, a: Shelf,
                        ids: seq<string>, w: Rewrites, k: Key)
    requires HistoryOk(c, a.disk, a.jobs, a.secrets) && AskedFor(pools, opts.poolIds, ids)
    requires Written(SetupOf(c, s, opts, ch, a), ids, w) && k in w && Undisturbed(s, opts, ch)
    requires opts.incremental && !opts.encrypt ==> !NewestEncrypted(a.disk, a.jobs, opts.root)
    ensures Read(a.disk, LinkedFrom(PlanOf(a.disk, a.jobs, opts, ch), k)) == Some(Raw(w[k]))
  {
    var u := SetupOf(c, s, opts, ch, a);
    var row := RowOfWritten(u, ids, w, k);
    assert multiset(ids)[k.pool] == TimesAsked(pools, opts.poolIds, k.pool);
    UndisturbedContent(u, ids, w, k, row);
    CarefulSpoils(c, a, opts, ch, k, row.sha);
  }

  lemma UndisturbedContent(u: Setup, ids: seq<string>, w: Rewrites, k: Key, row: FileRow)
    requires Written(u, ids, w) && k in w && RowsBacked(u.src.files, u.src.tree)
    requires forall n: nat :: (n, k) !in u.src.unwritable
    requires ActiveRow(u.src.files, row) && row.key == k
    ensures w[k] == row.sha.of
  {
    var n :| 0 <= n < |ids| && ids[n] == k.pool && k.pool in ids[..n] && Through(u, n, k, w[k]);
    var f :| f in u.src.files && u.src.files[f] == row;
    assert RowBacked(u.src.tree, u.src.files[f]);
  }

  lemma CarefulIsClean(c: Cipher, pools: seq<Pool>, a: Shelf, step: Step, ev: Event, b: Shelf)
    requires HistoryOk(c, a.disk, a.jobs, a.secrets) && Took(c, pools, a, step, ev, b) && Careful(pools, a, step)
    ensures Happens(c, a, ev, b) && Clean(c, a, ev)
  {
    if step.RunStep? && ev != Refused {
      CarefulRunIsClean(c, pools, step.storage, step.opts, step.ch, a, step.reply, ev, b);
    }
  }

  lemma CarefulRunIsClean(c: Cipher, pools: seq<Pool>, s: State, opts: RunOptions, ch: Chance, a: Shelf,
                          r: Reply<Job>, ev: Event, b: Shelf)
    requires HistoryOk(c, a.disk, a.jobs, a.secrets) && JobRan(c, pools, s, opts, ch, a, r, ev, b) && ev != Refused
    requires Careful(pools, a, RunStep(opts, ch, s, r))
    ensures Clean(c, a, ev)
  {
    CarefulSpares(c, pools, s, opts, ch, a, r, ev, b);
    if r.Good? {
      RunEnded(c, pools, s, opts, ch, a, r.value, ev, b);
      RunCompleted(c, pools, s, opts, ch, a, r.value, ev, b);
      CarefulIsGood(c, pools, s, opts, ch, a, r.value.pools, ev.made.pools);
    }
  }

  lemma CarefulIsGood(c: Cipher, pools: seq<Pool>, s: State, opts: RunOptions, ch: Chance, a: Shelf,
                      ids: seq<string>, entries: seq<PoolEntry>)
    requires HistoryOk(c, a.disk, a.jobs, a.secrets) && AskedFor(pools, opts.poolIds, ids)
    requires opts.incremental && !opts.encrypt ==> !NewestEncrypted(a.disk, a.jobs, opts.root)
    requires opts.encrypt ==> OnePass(pools, opts)
    requires Fit(SetupOf(c, s, opts, ch, a)) && ListedAs(SetupOf(c, s, opts, ch, a), ids, entries)
    ensures var u := SetupOf(c, s, opts, ch, a); AllGood(c, a.disk, u.plan, entries, u.key)
  {
    var u := SetupOf(c, s, opts, ch, a);
    AllGoodIff(u, ids, entries);
    forall row | ActiveRow(s.files, row) ensures !Spoiled(a.disk, u.plan, row.key, row.sha) {
      CarefulSpoils(c, a, opts, ch, row.key, row.sha);
    }
    if opts.encrypt {
      OnceIsDistinct(pools, opts, ids);
      OnceIsSame(u, ids);
    }
  }

  lemma OnceIsSame(u: Setup, ids: seq<string>)
    requires Distinct(ids)
    ensures SameStreams(u, ids)
  {
    forall n | 0 <= n < |ids| ensures LastPass(ids, ids[n]) == n {
      OftenIsTwice(ids);
      OnlyPass(ids, n);
    }
  }

  /** No file of these pools was linked to bytes other than its plain content. */
  ghost predicate NoneSpoiled(u: Setup, ids: seq<string>) {
    forall row | ActiveRow(u.src.files, row) && row.key.pool in ids :: !Spoiled(u.d0, u.plan, row.key, row.sha)
  }

  /** A run that comes to its end leaves every completed job intact exactly when it came back to
      no file with another key stream, and linked none to bytes other than its content. */
  lemma HistoryFollowsSpoiled(c: Cipher, pools: seq<Pool>, s: State, opts: RunOptions, ch: Chance, a: Shelf, j: Job,
                              ev: Event, b: Shelf)
    requires HistoryOk(c, a.disk, a.jobs, a.secrets)
    requires JobRan(c, pools, s, opts, ch, a, Good(j), ev, b)
    ensures var u := SetupOf(c, s, opts, ch, a);
            && (HistoryOk(c, b.disk, b.jobs, b.secrets) <==> SameStreams(u, j.pools) && NoneSpoiled(u, j.pools))
  {
    var u := SetupOf(c, s, opts, ch, a);
    OnceOrTwice(u, j.pools);
    if SameStreams(u, j.pools) && NoneSpoiled(u, j.pools) {
      UnspoiledKeepsHistory(c, pools, s, opts, ch, a, j, ev, b);
    } else if !NoneSpoiledTwice(u, j.pools) {
      NewestIsLost(c, pools, s, opts, ch, a, j, ev, b);
    } else {
      CompletedIntactIff(c, pools, s, opts, ch, a, j, ev, b);
      NewJobIsListed(c, pools, s, opts, ch, a, j, ev, b);
    }
  }

  lemma NewJobIsListed(c: Cipher, pools: seq<Pool>, s: State, opts: RunOptions, ch: Chance, a: Shelf, j: Job,
                       ev: Event, b: Shelf)
    requires JobRan(c, pools, s, opts, ch, a, Good(j), ev, b)
    ensures j in b.jobs && j.status == Completed && j.id in b.secrets && b.secrets[j.id] == opts.passphrase
  {
    RunCompleted(c, pools, s, opts, ch, a, j, ev, b);
    assert b.jobs[0] == j;
  }

  lemma UnspoiledKeepsHistory(c: Cipher, pools: seq<Pool>, s: State, opts: RunOptions, ch: Chance, a: Shelf, j: Job,
                              ev: Event, b: Shelf)
    requires HistoryOk(c, a.disk, a.jobs, a.secrets)
    requires JobRan(c, pools, s, opts, ch, a, Good(j), ev, b)
    requires var u := SetupOf(c, s, opts, ch, a); SameStreams(u, j.pools) && NoneSpoiled(u, j.pools)
    ensures HistoryOk(c, b.disk, b.jobs, b.secrets)
  {
    var u := SetupOf(c, s, opts, ch, a);
    RunEnded(c, pools, s, opts, ch, a, j, ev, b);
    RunCompleted(c, pools, s, opts, ch, a, j, ev, b);
    OnceOrTwice(u, j.pools);
    AllGoodIff(u, j.pools, ev.made.pools);
    SparesIffNoneSpoiled(u, j.pools, ev.written);
    CleanKeepsHistory(c, a, ev, b);
  }

  lemma OnceOrTwice(u: Setup, ids: seq<string>)
    ensures NoneSpoiled(u, ids) <==> NoneSpoiledOnce(u, ids) && NoneSpoiledTwice(u, ids)
  {
    forall id ensures Twice(ids, id) ==> id in ids {
      OnceIfNew(ids, id);
    }
  }

  /** A spoiled file of a pool named twice costs the job it was linked to. */
  lemma NewestIsLost(c: Cipher, pools: seq<Pool>, s: State, opts: RunOptions, ch: Chance, a: Shelf, j: Job,
                     ev: Event, b: Shelf)
    requires HistoryOk(c, a.disk, a.jobs, a.secrets)
    requires JobRan(c, pools, s, opts, ch, a, Good(j), ev, b)
    requires !NoneSpoiledTwice(SetupOf(c, s, opts, ch, a), j.pools)
    ensures !HistoryOk(c, b.disk, b.jobs, b.secrets)
  {
    var u := SetupOf(c, s, opts, ch, a);
    var row :| ActiveRow(s.files, row) && Twice(j.pools, row.key.pool) && Spoiled(a.disk, u.plan, row.key, row.sha);
    if !(opts.incremental && !opts.encrypt) || !NewestEncrypted(a.disk, a.jobs, opts.root) {
      CarefulSpoils(c, a, opts, ch, row.key, row.sha);
    }
    var newest := CompletedAt(a.jobs, opts.root)[0];
    assert newest in CompletedAt(a.jobs, opts.root);
    var older := Read(a.disk, Place(opts.root, newest.id, ManifestFile)).value.manifest;
    var pass := a.secrets[newest.id];
    var pe, x := SpoiledIsListed(c, a.disk, a.jobs, opts, ch, pass, older, row.key, row.sha);
    RunSpoilsIff(c, a.disk, a.jobs, opts, ch, pass, older, pe, x, row.sha);
    EncryptedIsLost(c, pools, s, opts, ch, a, j, ev, b, pass, older, pe, x, row);
    RunCompleted(c, pools, s, opts, ch, a, j, ev, b);
    EventKeepsTable(c, a, ev, b);
    assert newest in b.jobs && b.secrets[newest.id] == pass;
  }

  /** After an encrypted job, those are the files that share its ciphertext. */
  lemma SharedIsSpoiled(c: Cipher, s: State, opts: RunOptions, ch: Chance, a: Shelf, pass: string, older: Manifest,
                        ids: seq<string>, made: Manifest)
    requires opts.incremental && !opts.encrypt && CompletedAt(a.jobs, opts.root) != []
    requires var last := CompletedAt(a.jobs, opts.root)[0];
             && Intact(c, a.disk, last, pass)
             && Read(a.disk, Place(opts.root, last.id, ManifestFile)) == Some(Doc(older))
    requires older.encrypted
    requires Fit(SetupOf(c, s, opts, ch, a)) && ListedAs(SetupOf(c, s, opts, ch, a), ids, made.pools)
    ensures NoneSpoiled(SetupOf(c, s, opts, ch, a), ids) <==> !SharesCiphertext(c, older, pass, ch.unlinkable, made)
  {
    var u := SetupOf(c, s, opts, ch, a);
    forall n, y | 0 <= n < |ids| && y in made.pools[n].files
      ensures Spoiled(a.disk, u.plan, KeyIn(ids[n], y), y.sha)
         <==> SharesEntry(c, older, pass, ch.unlinkable, ids[n], y)
    {
      SpoiledIffShared(c, a.disk, a.jobs, opts, ch, pass, older, ids[n], y);
    }
    SpoiledByEntry(u, ids, made.pools);
  }

  /** It is the same to look at the rows or at the entries. */
  lemma SpoiledByEntry(u: Setup, ids: seq<string>, entries: seq<PoolEntry>)
    requires Fit(u) && ListedAs(u, ids, entries)
    ensures NoneSpoiled(u, ids)
       <==> forall n, y | 0 <= n < |ids| && y in entries[n].files :: !Spoiled(u.d0, u.plan, KeyIn(ids[n], y), y.sha)
  {
    forall row | ActiveRow(u.src.files, row) && row.key.pool in ids
      ensures exists n, y | 0 <= n < |ids| && y in entries[n].files ::
                KeyIn(ids[n], y) == row.key && y.sha == row.sha
    {
      EntryIsThere(u, ids, entries, LastPass(ids, row.key.pool), row);
    }
    forall n, y | 0 <= n < |ids| && y in entries[n].files
      ensures exists row :: ActiveRow(u.src.files, row) && row.key == KeyIn(ids[n], y) && row.sha == y.sha
    {
      assert FromRow(u, n, ids[n], y);
      var row := RowOfEntry(u, n, ids[n], y);
    }
  }

  /** Exactly when a run that comes to its end leaves every completed job intact: unless it is
      plain and incremental, after an encrypted job, with a file in common whose ciphertext
      differs from its content; or it encrypts, and comes back to a file with another key
      stream. */
  lemma RunKeepsHistoryIff(c: Cipher, pools: seq<Pool>, s: State, opts: RunOptions, ch: Chance, a: Shelf, j: Job,
                           ev: Event, b: Shelf)
    requires HistoryOk(c, a.disk, a.jobs, a.secrets)
    requires JobRan(c, pools, s, opts, ch, a, Good(j), ev, b)
    ensures HistoryOk(c, b.disk, b.jobs, b.secrets)
       <==> && SameStreams(SetupOf(c, s, opts, ch, a), j.pools)
            && !(opts.incremental && !opts.encrypt && NewestEncrypted(a.disk, a.jobs, opts.root)
                 && var newest := CompletedAt(a.jobs, opts.root)[0];
                    SharesCiphertext(c, Read(a.disk, Place(opts.root, newest.id, ManifestFile)).value.manifest,
                                     a.secrets[newest.id], ch.unlinkable, ev.made))
  {
    var u := SetupOf(c, s, opts, ch, a);
    RunEnded(c, pools, s, opts, ch, a, j, ev, b);
    HistoryFollowsSpoiled(c, pools, s, opts, ch, a, j, ev, b);
    if opts.incremental && !opts.encrypt && NewestEncrypted(a.disk, a.jobs, opts.root) {
      var newest := CompletedAt(a.jobs, opts.root)[0];
      assert newest in CompletedAt(a.jobs, opts.root);
      var older := Read(a.disk, Place(opts.root, newest.id, ManifestFile)).value.manifest;
      SharedIsSpoiled(c, s, opts, ch, a, a.secrets[newest.id], older, j.pools, ev.made);
    } else {
      forall row | ActiveRow(s.files, row) ensures !Spoiled(a.disk, u.plan, row.key, row.sha) {
        CarefulSpoils(c, a, opts, ch, row.key, row.sha);
      }
    }
  }

  lemma CarefulKeepsHistory(c: Cipher, pools: seq<Pool>, a: Shelf, step: Step, ev: Event, b: Shelf)
    requires HistoryOk(c, a.disk, a.jobs, a.secrets) && Took(c, pools, a, step, ev, b) && Careful(pools, a, step)
    ensures HistoryOk(c, b.disk, b.jobs, b.secrets)
  {
    CarefulIsClean(c, pools, a, step, ev, b);
    CleanKeepsHistory(c, a, ev, b);
  }

  /** Under a careful schedule every completed job listed at any time is intact under the
      passphrase it was run with, whatever the runs and retentions met. */
  lemma {:induction false} CarefulHistoryStaysOk(c: Cipher, pools: seq<Pool>, shelves: seq<Shelf>, steps: seq<Step>,
                                                 events: seq<Event>, k: nat)
    requires IsSchedule(c, pools, shelves, steps, events) && k <= |steps|
    requires HistoryOk(c, shelves[0].disk, shelves[0].jobs, shelves[0].secrets)
    requires forall i {:trigger steps[i]} | 0 <= i < k :: Careful(pools, shelves[i], steps[i])
    ensures HistoryOk(c, shelves[k].disk, shelves[k].jobs, shelves[k].secrets)
  {
    if k > 0 {
      CarefulHistoryStaysOk(c, pools, shelves, steps, events, k - 1);
      CarefulKeepsHistory(c, pools, shelves[k - 1], steps[k - 1], events[k - 1], shelves[k]);
    }
  }
}
