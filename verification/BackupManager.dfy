/** The backup manager (internal/backup/manager.go): runs, verification, restoring and
    retention over one medium. What the medium or the random source may do comes in as a
    parameter. */
module BackupManager {
  import opened Base
  import opened PhysicalTree
  import opened StorageModel
  import opened Service
  import opened BackupStore
  import opened BackupHistory
  import opened BackupCopies
  import opened BackupPasses
  import opened BackupRetention
  import opened BackupRuns

  datatype Pool = Pool(id: string, name: string, active: bool, policyOff: bool)

  datatype RunOptions = RunOptions(poolIds: seq<string>, root: string, retentionCount: int, retentionDays: int,
                                   incremental: bool, encrypt: bool, passphrase: string)

  /** What a run does not decide itself: its id, its random bytes, the clock, where reading and
      linking fail, which writes are cut short and what they leave, and which names cannot be
      removed. The passes over the pools asked for are numbered. A destination that cannot be
      opened has the effect of a file that cannot be read. */
  datatype Chance = Chance(jobId: string, salt: Bytes, ivs: (nat, Key) -> Bytes, startedAt: int, prunedAt: int,
                           unreadable: set<(nat, Key)>, unwritable: map<(nat, Key), Bytes>, unlinkable: set<Key>,
                           manifestCut: Option<Bytes>, stubborn: set<Place>)

  datatype BackupError =
    | PassphraseRequired | NoEligiblePools | NoSuchPool | NoSuchJob | NotRestorable | NoManifest
    | Unreadable | Unwritable | IntegrityMismatch | PoolNotActive | Several

  datatype Reply<+T> = Good(value: T) | Bad(error: BackupError)

  const SECONDS_A_DAY: int := 86400

  predicate Eligible(p: Pool) {
    p.active && !p.policyOff
  }

  /** One place may have changed; no other name reads differently. */
  ghost predicate OnlyPlace(d: Disk, d': Disk, p: Place) {
    && Sound(d')
    && (forall q | q != p :: Read(d', q) == Read(d, q))
    && d'.links.Keys <= d.links.Keys + {p}
  }

  function IdsOf(ps: seq<Pool>): (r: seq<string>)
    ensures |r| == |ps| && forall i | 0 <= i < |ps| :: r[i] == ps[i].id
  {
    seq(|ps|, i requires 0 <= i < |ps| => ps[i].id)
  }

  function OriginOf(s: State, ch: Chance): Origin {
    Origin(s.files, s.tree, ch.unreadable, ch.unwritable)
  }

  /** The initialisation vector of a file's copy, when the run encrypts. */
  function IvFor(key: Option<Bytes>, ch: Chance, n: nat, k: Key): Bytes {
    if key.Some? then ch.ivs(n, k) else []
  }

  datatype FileCheck = FileCheck(pool: string, entry: FileEntry, ok: bool)

  datatype VerifyResult = VerifyResult(ok: bool, files: seq<FileCheck>)

  datatype Opened = Opened(job: Job, manifest: Manifest, key: Option<Bytes>)

  /** A listed, completed job with its manifest and the key this passphrase gives. */
  ghost predicate IsOpened(c: Cipher, d: Disk, jobs: seq<Job>, id: string, pass: string, o: Opened) {
    && o.job in jobs && o.job.id == id && o.job.status == Completed
    && Read(d, Place(o.job.root, id, ManifestFile)) == Some(Doc(o.manifest))
    && o.key == KeyOf(c, o.manifest, pass)
  }

  /** A completed job whose manifest can be read, with some passphrase if it is encrypted. */
  predicate CanOpen(d: Disk, j: Job, pass: string) {
    var b := Read(d, Place(j.root, j.id, ManifestFile));
    j.status == Completed && b.Some? && b.value.Doc? && (b.value.manifest.encrypted ==> pass != "")
  }

  /** Why a backup cannot be opened: there is no such job, it is not completed, its manifest is
      missing or no manifest, or it is encrypted and no passphrase is given. */
  ghost predicate NotOpened(d: Disk, jobs: seq<Job>, id: string, pass: string, e: BackupError) {
    match e
    case NoSuchJob => forall j | j in jobs :: j.id != id
    case NotRestorable => exists j | j in jobs :: j.id == id && j.status != Completed
    case NoManifest =>
      exists j | j in jobs :: j.id == id && j.status == Completed && !ManifestThere(d, j)
    case PassphraseRequired =>
      exists j | j in jobs ::
        && j.id == id && j.status == Completed && ManifestThere(d, j) && pass == ""
        && Read(d, Place(j.root, id, ManifestFile)).value.manifest.encrypted
    case _ => false
  }

  predicate ManifestThere(d: Disk, j: Job) {
    var b := Read(d, Place(j.root, j.id, ManifestFile));
    b.Some? && b.value.Doc?
  }

  class Manager {
    const svc: FileService
    const dest: LocalDestination
    const cipher: Cipher
    const pools: seq<Pool>
    /** The job table, latest start first. */
    var jobs: seq<Job>
    /** The passphrase each job was run with. */
    ghost var secrets: map<string, string>

    constructor (svc: FileService, dest: LocalDestination, cipher: Cipher, pools: seq<Pool>)
      requires Tidy(dest.disk)
      ensures this.svc == svc && this.dest == dest && this.cipher == cipher && this.pools == pools
      ensures jobs == [] && secrets == map[] && Valid()
    {
      this.svc, this.dest, this.cipher, this.pools := svc, dest, cipher, pools;
      jobs, secrets := [], map[];
    }

    ghost predicate Valid()
      reads this, dest
    {
      TableOk(dest.disk, jobs, secrets) && NewestFirst(jobs)
    }

    ghost function Now(): Shelf
      reads this, dest
    {
      Shelf(dest.disk, jobs, secrets)
    }

    // ----- one file

    /** copyToDestination: the digest is that of the plain content; a copy that does not
        match the row is removed. The bytes go to the inode of the name, so every other name
        that shares it reads them from now on. */
    method CopyToDestination(p: Place, content: Bytes, expected: Digest, key: Option<Bytes>, iv: Bytes,
                           cut: Option<Bytes>)
      returns (r: Reply<nat>)
      requires Sound(dest.disk)
      modifies dest
      ensures Sound(dest.disk) && (p !in old(dest.disk).links ==> OnlyPlace(old(dest.disk), dest.disk, p))
      ensures r.Good? <==> cut.None? && Sha256(content) == expected
      ensures r.Bad? ==> r.error == if cut.Some? then Unwritable else IntegrityMismatch
      ensures r.Good? ==> r.value == |content| && Read(dest.disk, p) == Some(Raw(StoredAs(cipher, key, iv, content)))
      ensures r.Bad? ==> p !in dest.disk.links
      ensures forall q | q != p && SameInode(old(dest.disk), p, q) ::
                Read(dest.disk, q) == Some(Raw(BytesWritten(StoredAs(cipher, key, iv, content), cut)))
      ensures dest.disk == CopiedTo(old(dest.disk), p, StoredAs(cipher, key, iv, content), Sha256(content) == expected,
                                    cut)
    {
      var stored := if key.None? then content else Xor(cipher, key.value, iv, content);
      var ok := dest.WriteFile(p, Raw(stored), cut);
      if !ok {
        return Bad(Unwritable);
      }
      if Sha256(content) != expected {
        dest.RemoveFile(p);
        return Bad(IntegrityMismatch);
      }
      r := Good(|content|);
    }

    /** Links the file to the planned job when its digest has not changed, and copies it
        otherwise, or when the link cannot be made. The last two clauses are about a second
        pass over a file already linked, as with a pool asked for twice: the name is taken,
        so it is written through the shared inode, and the older job's copy stays as it was
        exactly when nothing is read, or the bytes written were there. */
    method BackupFile(root: string, job: string, row: FileRow, plan: LinkPlan, key: Option<Bytes>, n: nat, ch: Chance)
      returns (r: Reply<FileEntry>)
      requires Sound(dest.disk) && row.size == |row.sha.of| && plan.job != job
      requires key.Some? ==> plan.digests == map[]
      modifies dest
      ensures Sound(dest.disk) && (r.Good? ==> r.value == EntryFor(row, IvFor(key, ch, n, row.key)))
      ensures var src := OriginOf(svc.St(), ch);
              var got, cut := Got(src, n, row.key), CutShort(src, n, row.key);
              && dest.disk == AfterFile(cipher, old(dest.disk), root, job, row, plan, key, IvFor(key, ch, n, row.key),
                                        got, cut)
              && (r.Good? <==> FileGoes(old(dest.disk), root, job, row, plan, got, cut))
              && (r.Bad? ==> r.error == if got.None? then Unreadable else if cut.Some? then Unwritable
                                        else IntegrityMismatch)
      ensures CopyPlace(root, job, row.key) !in old(dest.disk).links ==>
                var p := CopyPlace(root, job, row.key);
                && OnlyPlace(old(dest.disk), dest.disk, p)
                && (r.Good? ==> EntryCopied(cipher, old(dest.disk), plan, dest.disk, root, job, key, row.key.pool,
                                            r.value))
                && (Links(old(dest.disk), plan, row.key, row.sha) ==>
                      SameInode(dest.disk, LinkedFrom(plan, row.key), p))
      ensures SameInode(old(dest.disk), CopyPlace(root, job, row.key), LinkedFrom(plan, row.key)) ==>
                var src := OriginOf(svc.St(), ch);
                var got, cut := Got(src, n, row.key), CutShort(src, n, row.key);
                Read(dest.disk, LinkedFrom(plan, row.key))
                == if got.None? then Read(old(dest.disk), LinkedFrom(plan, row.key))
                   else Some(Raw(BytesWritten(StoredAs(cipher, key, IvFor(key, ch, n, row.key), got.value), cut)))
      ensures SameInode(old(dest.disk), CopyPlace(root, job, row.key), LinkedFrom(plan, row.key)) && key.None? ==>
                var src, older := OriginOf(svc.St(), ch), LinkedFrom(plan, row.key);
                var got, cut := Got(src, n, row.key), CutShort(src, n, row.key);
                && (Read(dest.disk, older) == Read(old(dest.disk), older)
                    <==> got.None? || Read(old(dest.disk), older) == Some(Raw(BytesWritten(got.value, cut))))
    {
      var p := CopyPlace(root, job, row.key);
      ghost var d := dest.disk;
      if row.key in plan.digests && plan.digests[row.key] == row.sha {
        var linked := dest.Link(LinkedFrom(plan, row.key), p, row.key in plan.unlinkable);
        if linked {
          LinkIsEntry(cipher, d, plan, root, job, row);
          return Good(EntryFor(row, []));
        }
      }
      if (n, row.key) in ch.unreadable || At(row.key) !in svc.prov.tree.content {
        return Bad(Unreadable);
      }
      var content := svc.prov.tree.content[At(row.key)];
      var iv := if key.Some? then ch.ivs(n, row.key) else [];
      var cut := if (n, row.key) in ch.unwritable then Some(ch.unwritable[(n, row.key)]) else None;
      var copied := CopyToDestination(p, content, row.sha, key, iv, cut);
      if copied.Bad? {
        return Bad(copied.error);
      }
      r := Good(EntryFor(row, iv).(size := copied.value));
    }

    // ----- one pool

    /** The active files of a pool. */
    method ListFilesByPool(pool: string) returns (rows: seq<FileRow>)
      requires UniqueKeys(svc.files, svc.directories)
      ensures Lists(svc.files, pool, rows)
    {
      var all := set f | f in svc.files && svc.files[f].key.pool == pool && svc.files[f].deletedAt.None?;
      var ids := FileService.Enumerate(all);
      rows := [];
      var i := 0;
      while i < |ids|
        invariant 0 <= i <= |ids| && |rows| == i
        invariant forall j | 0 <= j < i :: ids[j] in all && rows[j] == svc.files[ids[j]]
      {
        assert ids[i] in ids;
        rows := rows + [svc.files[ids[i]]];
        i := i + 1;
      }
      forall f | f in all ensures svc.files[f] in rows {
        assert f in ids;
        var j :| 0 <= j < |ids| && ids[j] == f;
        assert rows[j] == svc.files[f];
      }
      forall r | r in rows ensures r.key.pool == pool && ActiveRow(svc.files, r) {
        var j :| 0 <= j < |rows| && rows[j] == r;
        assert ids[j] in all;
      }
    }

    /** A run as this manager makes it. */
    ghost predicate Runs(u: Setup, root: string, job: string, plan: LinkPlan, key: Option<Bytes>, ch: Chance)
      reads svc, svc.prov
    {
      u == Setup(cipher, u.d0, root, job, plan, key, ch.ivs, OriginOf(svc.St(), ch)) && Fit(u)
    }

    /** The copies of one pool, with its entry for the manifest, when the run has been over
        the pools with these ids. */
    method BackupPool(root: string, job: string, pool: Pool, plan: LinkPlan, key: Option<Bytes>, n: nat, ch: Chance,
                      ghost u: Setup, ghost ids: seq<string>, ghost w: Rewrites)
      returns (r: Reply<PoolEntry>, count: nat, bytes: nat, ghost w': Rewrites)
      requires Runs(u, root, job, plan, key, ch) && UniqueKeys(svc.files, svc.directories)
      requires RunAt(u, ids, dest.disk, w) && n == |ids|
      modifies dest
      ensures PoolPart(u, old(dest.disk), dest.disk, n, pool.id, pool.id in ids, w, w')
      ensures r.Good? ==>
                && r.value.pool == pool.id && r.value.name == pool.name
                && PoolDone(u, dest.disk, n, pool.id, pool.id in ids, w') && EntriesOf(u, n, r.value)
                && count == |r.value.files| && bytes == SizeOf(r.value.files)
      ensures (r.Good? <==> PoolObtained(u, n, pool.id, pool.id in ids)) && (r.Bad? ==> CopyError(r.error))
    {
      ghost var d1, again := dest.disk, pool.id in ids;
      var rows := ListFilesByPool(pool.id);
      PassBegins(u, ids, d1, w, pool.id, rows);
      EachRowObtained(u, n, pool.id, rows, again);
      var entries;
      entries, count, bytes, w' := BackupRows(root, job, pool.id, rows, plan, key, n, ch, u, d1, again, w);
      if entries.Bad? {
        return Bad(entries.error), count, bytes, w';
      }
      PassEnds(u, d1, dest.disk, n, pool.id, rows, entries.value, again, w, w');
      assert rows[..|rows|] == rows;
      var pe := PoolEntry(pool.id, pool.name, entries.value);
      EntriesMirror(u, n, pe, rows);
      r := Good(pe);
    }

    method BackupRows(root: string, job: string, pool: string, rows: seq<FileRow>, plan: LinkPlan, key: Option<Bytes>,
                      n: nat, ch: Chance, ghost u: Setup, ghost d1: Disk, ghost again: bool, ghost w: Rewrites)
      returns (r: Reply<seq<FileEntry>>, count: nat, bytes: nat, ghost w': Rewrites)
      requires Runs(u, root, job, plan, key, ch) && Lists(svc.files, pool, rows)
      requires PassAt(u, d1, dest.disk, n, pool, rows, 0, [], again, w, w)
      requires !again ==> forall k | k in w :: k.pool != pool
      modifies dest
      ensures PoolPart(u, d1, dest.disk, n, pool, again, w, w')
      ensures r.Good? ==>
                && PassAt(u, d1, dest.disk, n, pool, rows, |rows|, r.value, again, w, w')
                && count == |r.value| && bytes == SizeOf(r.value)
      ensures (r.Good? <==> RowsObtained(u, n, rows, |rows|, again)) && (r.Bad? ==> CopyError(r.error))
    {
      w' := w;
      var entries: seq<FileEntry> := [];
      count, bytes := 0, 0;
      var i := 0;
      while i < |rows|
        invariant PassAt(u, d1, dest.disk, n, pool, rows, i, entries, again, w, w')
        invariant count == |entries| && bytes == SizeOf(entries)
        invariant RowsObtained(u, n, rows, i, again)
      {
        var e;
        e, w' := BackupRow(root, job, pool, rows, i, plan, key, n, ch, u, d1, entries, again, w, w');
        if e.Bad? {
          return Bad(e.error), count, bytes, w';
        }
        assert (entries + [e.value])[..|entries|] == entries;
        entries := entries + [e.value];
        count, bytes := count + 1, bytes + e.value.size;
        i := i + 1;
      }
      r := Good(entries);
    }

    /** One file of the pass. */
    method BackupRow(root: string, job: string, pool: string, rows: seq<FileRow>, i: nat, plan: LinkPlan,
                     key: Option<Bytes>, n: nat, ch: Chance, ghost u: Setup, ghost d1: Disk,
                     ghost entries: seq<FileEntry>, ghost again: bool, ghost w: Rewrites, ghost w1: Rewrites)
      returns (e: Reply<FileEntry>, ghost w': Rewrites)
      requires Runs(u, root, job, plan, key, ch) && Lists(svc.files, pool, rows) && i < |rows|
      requires PassAt(u, d1, dest.disk, n, pool, rows, i, entries, again, w, w1) && RowsObtained(u, n, rows, i, again)
      requires !again ==> forall k | k in w :: k.pool != pool
      modifies dest
      ensures PoolPart(u, d1, dest.disk, n, pool, again, w, w')
      ensures e.Good? ==> PassAt(u, d1, dest.disk, n, pool, rows, i + 1, entries + [e.value], again, w, w')
      ensures e.Good? ==> RowsObtained(u, n, rows, i + 1, again)
      ensures e.Bad? ==> !RowsObtained(u, n, rows, |rows|, again) && CopyError(e.error)
    {
      ghost var d := dest.disk;
      assert rows[i] in rows && ActiveRow(svc.files, rows[i]);
      e := BackupFile(root, job, rows[i], plan, key, n, ch);
      GoesIffObtained(u, d, n, rows[i], again, w1);
      w' := RewritesNext(u, n, rows[i], again, w1);
      PartNext(u, d1, d, n, pool, rows[i], again, w, w1);
      if e.Good? {
        PassNext(u, d1, d, n, pool, rows, i, entries, again, w, w1, e.value);
      }
    }

    // ----- all pools

    /** The copies of every pool. */
    method CopyAll(root: string, job: string, candidates: seq<Pool>, plan: LinkPlan, key: Option<Bytes>, ch: Chance,
                   ghost u: Setup)
      returns (r: Reply<seq<PoolEntry>>, count: nat, bytes: nat, ghost w: Rewrites)
      requires Runs(u, root, job, plan, key, ch) && UniqueKeys(svc.files, svc.directories) && dest.disk == u.d0
      modifies dest
      ensures TracedTo(u, dest.disk, w) && Written(u, IdsOf(candidates), w)
      ensures r.Good? ==>
                && RunAt(u, IdsOf(candidates), dest.disk, w) && Covers(u, candidates, r.value)
                && count == CountIn(r.value) && bytes == SizeIn(r.value)
      ensures (r.Good? <==> AllObtained(u, IdsOf(candidates))) && (r.Bad? ==> CopyError(r.error))
    {
      var entries: seq<PoolEntry> := [];
      count, bytes := 0, 0;
      w := map[];
      CopyingBegins(u, candidates);
      var i := 0;
      while i < |candidates|
        invariant CopiedSoFar(u, candidates, i, dest.disk, entries, w)
        invariant count == CountIn(entries) && bytes == SizeIn(entries)
        invariant ObtainedSoFar(u, IdsOf(candidates), i)
      {
        var e, n, b;
        e, n, b, w := CopyNext(root, job, candidates, i, plan, key, ch, u, entries, w);
        count, bytes := count + n, bytes + b;
        if e.Bad? {
          return Bad(e.error), count, bytes, w;
        }
        entries := entries + [e.value];
        i := i + 1;
      }
      CopyingEnds(u, candidates, dest.disk, entries, w);
      r := Good(entries);
    }

    method CopyNext(root: string, job: string, candidates: seq<Pool>, i: nat, plan: LinkPlan, key: Option<Bytes>,
                    ch: Chance, ghost u: Setup, ghost entries: seq<PoolEntry>, ghost w: Rewrites)
      returns (r: Reply<PoolEntry>, count: nat, bytes: nat, ghost w': Rewrites)
      requires Runs(u, root, job, plan, key, ch) && UniqueKeys(svc.files, svc.directories) && i < |candidates|
      requires CopiedSoFar(u, candidates, i, dest.disk, entries, w) && ObtainedSoFar(u, IdsOf(candidates), i)
      modifies dest
      ensures TracedTo(u, dest.disk, w') && Written(u, IdsOf(candidates), w')
      ensures r.Good? ==>
                && CopiedSoFar(u, candidates, i + 1, dest.disk, entries + [r.value], w')
                && CountIn(entries + [r.value]) == CountIn(entries) + count
                && SizeIn(entries + [r.value]) == SizeIn(entries) + bytes
      ensures r.Good? ==> ObtainedSoFar(u, IdsOf(candidates), i + 1)
      ensures r.Bad? ==> !AllObtained(u, IdsOf(candidates)) && CopyError(r.error)
    {
      ghost var d1 := dest.disk;
      r, count, bytes, w' := BackupPool(root, job, candidates[i], plan, key, i, ch, u, IdsOf(candidates)[..i], w);
      WrittenByNow(u, IdsOf(candidates), i, w, w');
      if r.Good? {
        NextPool(u, candidates, i, d1, dest.disk, entries, w, w', r.value);
        OneMoreCounted(entries, r.value);
      }
    }

    // ----- what an incremental run starts from

    /** completedJobsAtDestination. */
    method CompletedJobs(root: string) returns (completed: seq<Job>)
      ensures completed == CompletedAt(jobs, root)
    {
      completed := [];
      var i := |jobs|;
      while i > 0
        invariant 0 <= i <= |jobs| && completed == CompletedAt(jobs[i..], root)
      {
        i := i - 1;
        assert jobs[i..][1..] == jobs[i + 1..];
        if jobs[i].status == Completed && jobs[i].root == root {
          completed := [jobs[i]] + completed;
        } else {
          assert [] + completed == completed;
        }
      }
      assert jobs[0..] == jobs;
    }

    /** What an incremental run links to: the newest completed job at the destination, with
        the digests of its manifest if that can be read. */
    method PlanLinks(root: string, unlinkable: set<Key>) returns (plan: LinkPlan)
      ensures plan == IncrementalPlan(dest.disk, jobs, root, unlinkable)
    {
      plan := LinkPlan(root, "", map[], unlinkable);
      var completed := CompletedJobs(root);
      if completed == [] {
        return;
      }
      var b := dest.OpenFile(Place(root, completed[0].id, ManifestFile));
      if b.None? || b.value.Raw? {
        return LinkPlan(root, completed[0].id, map[], unlinkable);
      }
      var digests := Digests(b.value.manifest.pools);
      plan := LinkPlan(root, completed[0].id, digests, unlinkable);
    }

    method Digests(entries: seq<PoolEntry>) returns (digests: map<Key, Digest>)
      ensures digests == DigestsOf(entries)
    {
      digests := map[];
      var i := 0;
      while i < |entries|
        invariant 0 <= i <= |entries| && digests == DigestsOf(entries[..i])
      {
        var pe := entries[i];
        ghost var before := digests;
        assert entries[..i + 1][..i] == entries[..i];
        var k := 0;
        while k < |pe.files|
          invariant 0 <= k <= |pe.files| && digests == before + DigestsIn(pe, k)
        {
          digests := digests[KeyIn(pe.pool, pe.files[k]) := pe.files[k].sha];
          k := k + 1;
        }
        i := i + 1;
      }
      assert entries[..i] == entries;
    }

    // ----- a run

    /** resolveCandidatePools: the pools asked for, or all; a pool that is not active or
        has backups off never takes part. */
    method ResolveCandidates(ids: seq<string>) returns (r: Reply<seq<Pool>>)
      ensures r.Good? ==> r.value != [] && forall p | p in r.value :: Asked(pools, ids, p)
      ensures r.Good? && DistinctPools(pools) ==>
                AskedFor(pools, ids, IdsOf(r.value)) && IdsOf(r.value) == Passes(pools, ids)
      ensures r.Good? && DistinctPools(pools) ==> forall p | Asked(pools, ids, p) :: p in r.value
      ensures r == Bad(NoSuchPool) <==> exists id | id in ids :: !Known(pools, id)
      ensures r.Bad? ==> r.error == NoSuchPool || r.error == NoEligiblePools
      ensures DistinctPools(pools) && (forall id | id in ids :: Known(pools, id)) ==>
                (r == Bad(NoEligiblePools) <==> !exists p :: Asked(pools, ids, p))
    {
      var asked := pools;
      if ids != [] {
        asked := [];
        var i := 0;
        while i < |ids|
          invariant 0 <= i <= |ids| && |asked| == i
          invariant forall j | 0 <= j < i :: asked[j] in pools && asked[j].id == ids[j]
        {
          if p :| p in pools && p.id == ids[i] {
            asked := asked + [p];
          } else {
            assert ids[i] in ids && !Known(pools, ids[i]);
            return Bad(NoSuchPool);
          }
          i := i + 1;
        }
        AllKnown(pools, ids, asked);
      }
      if DistinctPools(pools) && ids != [] {
        AskedAreAll(pools, ids, asked);
      }
      var eligible := OnlyEligible(asked);
      if DistinctPools(pools) {
        EachAsOften(pools, ids, asked);
        EligibleInOrder(pools, asked);
        assert ids != [] ==> IdsOf(asked) == ids;
      }
      assert eligible != [] ==> eligible[0] in eligible;
      r := if eligible == [] then Bad(NoEligiblePools) else Good(eligible);
    }

    /** The id of a run has never been used, and the clock has not gone back. */
    ghost predicate NewRun(ch: Chance)
      reads this, dest
    {
      && ch.jobId != "" && ch.jobId !in secrets
      && (forall j | j in jobs :: j.startedAt <= ch.startedAt)
      && (forall q | q in dest.disk.links :: q.job != ch.jobId)
    }

    /** The files of a run and its manifest, which is written last. */
    method CopyWithManifest(opts: RunOptions, candidates: seq<Pool>, ch: Chance)
      returns (r: Reply<Manifest>, count: nat, bytes: nat, ghost w: Rewrites)
      requires Valid() && NewRun(ch) && UniqueKeys(svc.files, svc.directories) && SizesTrue(svc.files)
      requires opts.encrypt ==> opts.passphrase != ""
      modifies dest
      ensures Ran(SetupOf(cipher, svc.St(), opts, ch, old(Now())), IdsOf(candidates), dest.disk, w)
      ensures r.Good? ==>
                && r.value == Manifest(ch.jobId, ch.startedAt, r.value.pools, opts.encrypt,
                                       if opts.encrypt then ch.salt else [])
                && RanWell(SetupOf(cipher, svc.St(), opts, ch, old(Now())), IdsOf(candidates), r.value, dest.disk, w)
                && Covers(SetupOf(cipher, svc.St(), opts, ch, old(Now())), candidates, r.value.pools)
                && count == CountIn(r.value.pools) && bytes == SizeIn(r.value.pools)
      ensures r.Bad? ==> Place(opts.root, ch.jobId, ManifestFile) !in dest.disk.links && CopyError(r.error)
      ensures r.Good? <==>
                && AllObtained(SetupOf(cipher, svc.St(), opts, ch, old(Now())), IdsOf(candidates))
                && ch.manifestCut.None?
    {
      ghost var u := SetupOf(cipher, svc.St(), opts, ch, Now());
      PlanIsOlder(dest.disk, jobs, secrets, opts, ch);
      var key: Option<Bytes> := if opts.encrypt then Some(cipher.kdf(opts.passphrase, ch.salt)) else None;
      var plan := LinkPlan(opts.root, "", map[], ch.unlinkable);
      if opts.incremental && !opts.encrypt {
        plan := PlanLinks(opts.root, ch.unlinkable);
      }
      var entries;
      entries, count, bytes, w := CopyAll(opts.root, ch.jobId, candidates, plan, key, ch, u);
      if entries.Bad? {
        return Bad(entries.error), count, bytes, w;
      }
      var m := Manifest(ch.jobId, ch.startedAt, entries.value, opts.encrypt, if opts.encrypt then ch.salt else []);
      ManifestWritten(u, IdsOf(candidates), dest.disk, w, m, ch.manifestCut);
      var ok := dest.WriteFile(Place(opts.root, ch.jobId, ManifestFile), Doc(m), ch.manifestCut);
      r := if ok then Good(m) else Bad(Unwritable);
    }

    /** One run without its retention. */
    method RunJob(opts: RunOptions, ch: Chance) returns (r: Reply<Job>, ghost ev: Event)
      requires Valid() && NewRun(ch) && UniqueKeys(svc.files, svc.directories) && SizesTrue(svc.files)
      requires DistinctPools(pools)
      modifies this, dest
      ensures Valid() && JobRan(cipher, pools, svc.St(), opts, ch, old(Now()), r, ev, Now())
      ensures secrets == old(secrets) || secrets == old(secrets)[ch.jobId := opts.passphrase]
      ensures r.Good? ==> secrets == old(secrets)[ch.jobId := opts.passphrase]
      ensures ev == Refused <==> RefusalOf(pools, opts).Some?
      ensures ev == Refused ==> r == Bad(RefusalOf(pools, opts).value)
      ensures ev != Refused ==>
                && (r.Bad? ==> CopyError(r.error))
                && (r.Good? <==>
                      && AllObtained(SetupOf(cipher, svc.St(), opts, ch, old(Now())), ev.job.pools)
                      && ch.manifestCut.None?)
    {
      ev := Refused;
      var candidates := Admit(opts);
      if candidates.Bad? {
        return Bad(candidates.error), ev;
      }
      r, ev := RunOver(opts, candidates.value, ch);
    }

    /** The checks before a run leaves a row. */
    method Admit(opts: RunOptions) returns (r: Reply<seq<Pool>>)
      requires DistinctPools(pools)
      ensures RefusalOf(pools, opts) == if r.Bad? then Some(r.error) else None
      ensures r.Good? ==>
                && AskedFor(pools, opts.poolIds, IdsOf(r.value)) && IdsOf(r.value) == Passes(pools, opts.poolIds)
                && (opts.encrypt ==> opts.passphrase != "")
                && (forall p | p in r.value :: Asked(pools, opts.poolIds, p))
                && (forall p | Asked(pools, opts.poolIds, p) :: p in r.value)
    {
      if opts.encrypt && opts.passphrase == "" {
        return Bad(PassphraseRequired);
      }
      r := ResolveCandidates(opts.poolIds);
      assert r.Good? ==> r.value != [] && Asked(pools, opts.poolIds, r.value[0]);
    }

    /** The part of a run that leaves a row. */
    method RunOver(opts: RunOptions, candidates: seq<Pool>, ch: Chance) returns (r: Reply<Job>, ghost ev: Event)
      requires Valid() && NewRun(ch) && UniqueKeys(svc.files, svc.directories) && SizesTrue(svc.files)
      requires AskedFor(pools, opts.poolIds, IdsOf(candidates)) && (opts.encrypt ==> opts.passphrase != "")
      requires IdsOf(candidates) == Passes(pools, opts.poolIds)
      requires forall p | p in candidates :: Asked(pools, opts.poolIds, p)
      requires forall p | Asked(pools, opts.poolIds, p) :: p in candidates
      modifies this, dest
      ensures Valid() && JobRan(cipher, pools, svc.St(), opts, ch, old(Now()), r, ev, Now())
      ensures secrets == old(secrets)[ch.jobId := opts.passphrase]
      ensures ev != Refused && (r.Bad? ==> CopyError(r.error))
      ensures r.Good? <==>
                && AllObtained(SetupOf(cipher, svc.St(), opts, ch, old(Now())), ev.job.pools)
                && ch.manifestCut.None?
    {
      ghost var a := Now();
      var m, count, bytes, w := CopyWithManifest(opts, candidates, ch);
      var job := Job(ch.jobId, if m.Good? then Completed else Failed, opts.root, IdsOf(candidates), count, bytes,
                     ch.startedAt);
      LatestFirst(job, jobs);
      jobs, secrets := [job] + jobs, secrets[ch.jobId := opts.passphrase];
      ev := EventOf(svc.St(), opts, ch, a, job, m, w);
      ItRan(cipher, pools, svc.St(), opts, ch, a, candidates, job, m, w, Now());
      r := if m.Good? then Good(job) else Bad(m.error);
    }

    // ----- retention

    /** One job voted out: its files first, and its row unless some file could not be
        removed. */
    method RemoveBackup(root: string, id: string, stubborn: set<Place>, ghost d0: Disk, ghost jobs0: seq<Job>,
                        ghost voted: set<string>)
      requires Valid() && id !in voted && Without(d0, jobs0, root, voted, stubborn, dest.disk, jobs)
      modifies this`jobs, dest
      ensures Valid() && Without(d0, jobs0, root, voted + {id}, stubborn, dest.disk, jobs)
    {
      OneMoreOut(d0, jobs0, root, voted, id, stubborn);
      KeepDistinct(jobs, {id});
      KeepSorted(jobs, {id});
      SweptIsTidy(dest.disk, root, {id}, stubborn);
      var ok := dest.RemoveJob(root, id, stubborn);
      if ok {
        jobs := Keep(jobs, {id});
      }
    }

    /** pruneOldBackups: every job the votes are against; what cannot be removed from the
        medium keeps its row. */
    method PruneOldBackups(root: string, count: int, days: int, cutoff: int, stubborn: set<Place>)
      requires Valid() && (count > 0 || days > 0)
      modifies this`jobs, dest
      ensures Valid()
      ensures var c := CompletedAt(old(jobs), root);
              Without(old(dest.disk), old(jobs), root, Ids(c[KeepCount(c, count, days, cutoff)..]), stubborn,
                      dest.disk, jobs)
    {
      var completed := CompletedJobs(root);
      ghost var n := KeepCount(completed, count, days, cutoff);
      CompletedOrdered(jobs, root);
      CompletedDistinct(jobs, root);
      forall i | 0 <= i < |completed| ensures Pruned(completed[i], i, count, days, cutoff) <==> n <= i {
        VotesKeepAPrefix(completed, count, days, cutoff, i);
      }
      PruneVoted(completed, root, count, days, cutoff, stubborn, n);
    }

    method PruneVoted(completed: seq<Job>, root: string, count: int, days: int, cutoff: int, stubborn: set<Place>,
                      ghost n: nat)
      requires Valid() && n <= |completed| && DistinctJobs(completed)
      requires forall i | 0 <= i < |completed| :: Pruned(completed[i], i, count, days, cutoff) <==> n <= i
      modifies this`jobs, dest
      ensures Valid() && Without(old(dest.disk), old(jobs), root, Ids(completed[n..]), stubborn, dest.disk, jobs)
    {
      ghost var d0, jobs0 := dest.disk, jobs;
      NothingVoted(d0, jobs0, root, stubborn);
      var i := 0;
      while i < |completed|
        invariant 0 <= i <= |completed| && Valid()
        invariant Without(d0, jobs0, root, Voted(completed, n, i), stubborn, dest.disk, jobs)
      {
        PruneOne(completed, i, root, count, days, cutoff, stubborn, n, d0, jobs0);
        i := i + 1;
      }
      AllVoted(completed, n);
    }

    method PruneOne(completed: seq<Job>, i: nat, root: string, count: int, days: int, cutoff: int,
                    stubborn: set<Place>, ghost n: nat, ghost d0: Disk, ghost jobs0: seq<Job>)
      requires Valid() && n <= |completed| && i < |completed| && DistinctJobs(completed)
      requires Pruned(completed[i], i, count, days, cutoff) <==> n <= i
      requires Without(d0, jobs0, root, Voted(completed, n, i), stubborn, dest.disk, jobs)
      modifies this`jobs, dest
      ensures Valid() && Without(d0, jobs0, root, Voted(completed, n, i + 1), stubborn, dest.disk, jobs)
    {
      VotedGrows(completed, n, i);
      if Pruned(completed[i], i, count, days, cutoff) {
        RemoveBackup(root, completed[i].id, stubborn, d0, jobs0, Voted(completed, n, i));
      }
    }

    /** Retention, when any policy is active. */
    method ApplyRetention(opts: RunOptions, ch: Chance) returns (ghost ev: Event)
      requires Valid()
      modifies this`jobs, dest
      ensures Valid() && RetentionRan(cipher, opts, ch, old(Now()), ev, Now())
    {
      ghost var a, voted := Now(), VotedOut(jobs, opts, ch.prunedAt);
      if opts.retentionCount <= 0 && opts.retentionDays <= 0 {
        NothingVoted(dest.disk, jobs, opts.root, ch.stubborn);
        assert voted == {};
      } else {
        PruneOldBackups(opts.root, opts.retentionCount, opts.retentionDays, CutoffOf(opts, ch.prunedAt), ch.stubborn);
      }
      ev := Retired(opts.root, voted - Stuck(a.disk, opts.root, voted, ch.stubborn), voted);
      RetentionHappens(cipher, a, opts.root, voted, ch.stubborn, Now());
    }

    /** Run: a job, and then the retention asked for, which does not follow a failure. */
    method Run(opts: RunOptions, ch: Chance)
      returns (r: Reply<Job>, ghost ev: Event, ghost mid: Shelf, ghost after: Event)
      requires Valid() && NewRun(ch) && UniqueKeys(svc.files, svc.directories) && SizesTrue(svc.files)
      requires DistinctPools(pools)
      modifies this, dest
      ensures Valid() && JobRan(cipher, pools, svc.St(), opts, ch, old(Now()), r, ev, mid)
      ensures ev == Refused <==> RefusalOf(pools, opts).Some?
      ensures ev == Refused ==> r == Bad(RefusalOf(pools, opts).value)
      ensures ev != Refused ==>
                && (r.Bad? ==> CopyError(r.error))
                && (r.Good? <==>
                      && AllObtained(SetupOf(cipher, svc.St(), opts, ch, old(Now())), ev.job.pools)
                      && ch.manifestCut.None?)
      ensures secrets == old(secrets) || secrets == old(secrets)[ch.jobId := opts.passphrase]
      ensures r.Good? ==> secrets == old(secrets)[ch.jobId := opts.passphrase]
      ensures r.Bad? ==> mid == Now()
      ensures r.Good? ==> RetentionRan(cipher, opts, ch, mid, after, Now())
      ensures r.Good? && Stuck(mid.disk, opts.root, VotedOut(mid.jobs, opts, ch.prunedAt), ch.stubborn) == {} ==>
                var all := [r.value] + CompletedAt(old(jobs), opts.root);
                CompletedAt(jobs, opts.root) == all[..Retained(all, opts, ch.prunedAt)]
    {
      ghost var jobs0 := jobs;
      r, ev := RunJob(opts, ch);
      mid, after := Now(), Refused;
      if r.Bad? {
        return;
      }
      after := ApplyRetention(opts, ch);
      PrefixAfterRun(cipher, pools, svc.St(), opts, ch, mid, jobs0, r, ev, after, Now());
    }

    // ----- verifying and restoring

    /** The manifest of a completed job, and the key its files are under. */
    method OpenBackup(jobId: string, pass: string) returns (r: Reply<Opened>)
      ensures r.Good? ==> IsOpened(cipher, dest.disk, jobs, jobId, pass, r.value)
      ensures r.Bad? ==> NotOpened(dest.disk, jobs, jobId, pass, r.error)
      ensures DistinctJobs(jobs) ==> (r.Good? <==> exists j | j in jobs :: j.id == jobId && CanOpen(dest.disk, j, pass))
    {
      if j :| j in jobs && j.id == jobId {
        if j.status != Completed {
          return Bad(NotRestorable);
        }
        var b := dest.OpenFile(Place(j.root, j.id, ManifestFile));
        if b.None? || b.value.Raw? {
          return Bad(NoManifest);
        }
        var m := b.value.manifest;
        if m.encrypted && pass == "" {
          return Bad(PassphraseRequired);
        }
        r := Good(Opened(j, m, if m.encrypted then Some(cipher.kdf(pass, m.salt)) else None));
      } else {
        r := Bad(NoSuchJob);
      }
    }

    /** verifyFileHash. */
    method VerifyFile(root: string, job: string, key: Option<Bytes>, pool: string, e: FileEntry) returns (ok: bool)
      ensures ok == Verifies(cipher, dest.disk, root, job, key, pool, e)
    {
      var b := dest.OpenFile(CopyOf(root, job, pool, e));
      ok := b.Some? && b.value.Raw? && Sha256(Plain(cipher, key, e.iv, b.value.bytes)) == e.sha;
    }

    /** Verify: one verdict per file, and one for the job. */
    method Verify(jobId: string, pass: string) returns (r: Reply<VerifyResult>, ghost o: Opened)
      ensures r.Bad? ==> NotOpened(dest.disk, jobs, jobId, pass, r.error)
      ensures DistinctJobs(jobs) ==> (r.Good? <==> exists j | j in jobs :: j.id == jobId && CanOpen(dest.disk, j, pass))
      ensures r.Good? ==>
                && IsOpened(cipher, dest.disk, jobs, jobId, pass, o)
                && (forall ck | ck in r.value.files ::
                      ck.ok == Verifies(cipher, dest.disk, o.job.root, jobId, o.key, ck.pool, ck.entry))
                && (forall pe, e | pe in o.manifest.pools && e in pe.files ::
                      exists ck | ck in r.value.files :: ck.pool == pe.pool && ck.entry == e)
                && |r.value.files| == CountIn(o.manifest.pools)
                && (r.value.ok <==> AllVerify(cipher, dest.disk, o.job.root, jobId, o.key, o.manifest.pools))
      ensures forall j | DistinctJobs(jobs) && j in jobs && j.id == jobId && j.status == Completed
                         && Intact(cipher, dest.disk, j, pass) :: r.Good? && r.value.ok
    {
      var found := OpenBackup(jobId, pass);
      if found.Bad? {
        o := Opened(Job("", Failed, "", [], 0, 0, 0), Manifest("", 0, [], false, []), None);
        return Bad(found.error), o;
      }
      o := found.value;
      var root, key, entries := found.value.job.root, found.value.key, found.value.manifest.pools;
      var checks: seq<FileCheck>, ok := [], true;
      var i := 0;
      while i < |entries|
        invariant 0 <= i <= |entries| && |checks| == CountIn(entries[..i])
        invariant forall ck | ck in checks ::
                    && ck.ok == Verifies(cipher, dest.disk, root, jobId, key, ck.pool, ck.entry)
                    && exists pe | pe in entries :: pe.pool == ck.pool && ck.entry in pe.files
        invariant forall a, e | 0 <= a < i && e in entries[a].files :: exists ck | ck in checks ::
                    ck.pool == entries[a].pool && ck.entry == e
        invariant ok <==> forall ck | ck in checks :: ck.ok
      {
        var more, good := VerifyPool(root, jobId, key, entries[i]);
        assert entries[..i + 1][..i] == entries[..i];
        ghost var all := checks + more;
        forall a, e | 0 <= a < i + 1 && e in entries[a].files
          ensures exists ck | ck in all :: ck.pool == entries[a].pool && ck.entry == e
        {
          if a < i {
            var ck :| ck in checks && ck.pool == entries[a].pool && ck.entry == e;
            assert ck in all;
          } else {
            var ck :| ck in more && ck.entry == e;
            assert ck in all;
          }
        }
        checks, ok := checks + more, ok && good;
        i := i + 1;
      }
      assert entries[..i] == entries;
      forall j | DistinctJobs(jobs) && j in jobs && j.id == jobId && j.status == Completed
                 && Intact(cipher, dest.disk, j, pass)
        ensures ok
      {
        OpenedIsIntact(cipher, dest.disk, jobs, j, pass, o);
        EntryVerifies(cipher, dest.disk, root, jobId, key, entries);
      }
      r := Good(VerifyResult(ok, checks));
    }

    method VerifyPool(root: string, job: string, key: Option<Bytes>, pe: PoolEntry)
      returns (checks: seq<FileCheck>, ok: bool)
      ensures forall ck | ck in checks ::
                ck.pool == pe.pool && ck.entry in pe.files
                && ck.ok == Verifies(cipher, dest.disk, root, job, key, pe.pool, ck.entry)
      ensures |checks| == |pe.files| && forall e | e in pe.files :: exists ck | ck in checks :: ck.entry == e
      ensures ok <==> forall ck | ck in checks :: ck.ok
    {
      checks, ok := [], true;
      var i := 0;
      while i < |pe.files|
        invariant 0 <= i <= |pe.files| && |checks| == i
        invariant forall k | 0 <= k < i ::
                    checks[k] == FileCheck(pe.pool, pe.files[k],
                                           Verifies(cipher, dest.disk, root, job, key, pe.pool, pe.files[k]))
        invariant ok <==> forall k | 0 <= k < i :: checks[k].ok
      {
        var good := VerifyFile(root, job, key, pe.pool, pe.files[i]);
        checks, ok := checks + [FileCheck(pe.pool, pe.files[i], good)], ok && good;
        i := i + 1;
      }
      forall e | e in pe.files ensures exists ck | ck in checks :: ck.entry == e {
        var k :| 0 <= k < |pe.files| && pe.files[k] == e;
        assert checks[k] in checks;
      }
    }

    /** Restore: every file that can be, each checked against the manifest first. */
    method Restore(jobId: string, pass: string, into: Restored) returns (r: Reply<()>, out: Restored, ghost o: Opened)
      ensures r.Bad? && r != Bad(Several) ==> NotOpened(dest.disk, jobs, jobId, pass, r.error)
      ensures DistinctJobs(jobs) ==>
                (r.Good? || r == Bad(Several) <==> exists j | j in jobs :: j.id == jobId && CanOpen(dest.disk, j, pass))
      ensures r.Good? || r == Bad(Several) ==>
                && IsOpened(cipher, dest.disk, jobs, jobId, pass, o)
                && out == PutAll(cipher, dest.disk, o.job.root, jobId, o.key, o.manifest.pools, into)
                && (forall k :: Lookup(out, k) == LeftOf(cipher, dest.disk, o.job.root, jobId, o.key, k,
                                                         LastOf(o.manifest.pools, k), Lookup(into, k)))
                && (r.Good? <==> AllVerify(cipher, dest.disk, o.job.root, jobId, o.key, o.manifest.pools))
      ensures r.Bad? && r != Bad(Several) ==> out == into
      ensures forall j | DistinctJobs(jobs) && j in jobs && j.id == jobId && j.status == Completed
                         && Intact(cipher, dest.disk, j, pass) ::
                r.Good? && forall pe | pe in o.manifest.pools :: GivenBack(out, pe)
    {
      out := into;
      var found := OpenBackup(jobId, pass);
      if found.Bad? {
        o := Opened(Job("", Failed, "", [], 0, 0, 0), Manifest("", 0, [], false, []), None);
        return Bad(found.error), out, o;
      }
      o := found.value;
      var ok;
      out, ok := RestoreAll(found.value.job.root, jobId, found.value.key, found.value.manifest.pools, into);
      forall j | DistinctJobs(jobs) && j in jobs && j.id == jobId && j.status == Completed
                 && Intact(cipher, dest.disk, j, pass)
        ensures ok && forall pe | pe in o.manifest.pools :: GivenBack(out, pe)
      {
        AllGivenBack(cipher, dest.disk, jobs, j, pass, o, into);
      }
      forall k
        ensures Lookup(out, k) == LeftOf(cipher, dest.disk, o.job.root, jobId, o.key, k, LastOf(o.manifest.pools, k),
                                         Lookup(into, k))
      {
        PutAllExact(cipher, dest.disk, o.job.root, jobId, o.key, o.manifest.pools, k, into);
      }
      r := if ok then Good(()) else Bad(Several);
    }

    method RestoreAll(root: string, job: string, key: Option<Bytes>, entries: seq<PoolEntry>, into: Restored)
      returns (out: Restored, ok: bool)
      ensures out == PutAll(cipher, dest.disk, root, job, key, entries, into)
      ensures ok <==> AllVerify(cipher, dest.disk, root, job, key, entries)
    {
      out, ok := into, true;
      var i := 0;
      while i < |entries|
        invariant 0 <= i <= |entries|
        invariant out == PutAll(cipher, dest.disk, root, job, key, entries[..i], into)
        invariant ok <==> forall a | 0 <= a < i :: PoolVerifies(cipher, dest.disk, root, job, key, entries[a])
      {
        assert entries[..i + 1][..i] == entries[..i];
        var good;
        out, good := RestorePool(root, job, key, entries[i], out);
        ok := ok && good;
        i := i + 1;
      }
      assert entries[..i] == entries;
      EachPoolVerifies(cipher, dest.disk, root, job, key, entries);
    }

    method RestorePool(root: string, job: string, key: Option<Bytes>, pe: PoolEntry, into: Restored)
      returns (out: Restored, ok: bool)
      ensures out == PutFiles(cipher, dest.disk, root, job, key, pe.pool, pe.files, into)
      ensures ok == PoolVerifies(cipher, dest.disk, root, job, key, pe)
    {
      out, ok := into, true;
      var i := 0;
      while i < |pe.files|
        invariant 0 <= i <= |pe.files|
        invariant out == PutFiles(cipher, dest.disk, root, job, key, pe.pool, pe.files[..i], into)
        invariant ok <==> forall k | 0 <= k < i :: Verifies(cipher, dest.disk, root, job, key, pe.pool, pe.files[k])
      {
        assert pe.files[..i + 1][..i] == pe.files[..i];
        var good;
        out, good := RestoreOneFile(root, job, key, pe.pool, pe.files[i], out);
        ok := ok && good;
        i := i + 1;
      }
      assert pe.files[..i] == pe.files;
    }

    method RestoreOneFile(root: string, job: string, key: Option<Bytes>, pool: string, e: FileEntry, into: Restored)
      returns (out: Restored, ok: bool)
      ensures out == PutFile(cipher, dest.disk, root, job, key, pool, e, into)
      ensures ok == Verifies(cipher, dest.disk, root, job, key, pool, e)
    {
      var b := dest.OpenFile(CopyOf(root, job, pool, e));
      if b.None? || b.value.Doc? {
        return into, false;
      }
      var plain := Plain(cipher, key, e.iv, b.value.bytes);
      ok := Sha256(plain) == e.sha;
      out := if ok then into[KeyIn(pool, e) := plain] else into - {KeyIn(pool, e)};
    }

    /** The recount of a received backup: what CompleteInboundBackup registers is what the
        sender counted while copying. */
    method Recount(m: Manifest) returns (count: nat, bytes: nat)
      ensures count == CountIn(m.pools) && bytes == SizeIn(m.pools)
    {
      count, bytes := 0, 0;
      var i := 0;
      while i < |m.pools|
        invariant 0 <= i <= |m.pools| && count == CountIn(m.pools[..i]) && bytes == SizeIn(m.pools[..i])
      {
        assert m.pools[..i + 1][..i] == m.pools[..i];
        var files := m.pools[i].files;
        ghost var before := bytes;
        var k := 0;
        while k < |files|
          invariant 0 <= k <= |files| && count == CountIn(m.pools[..i]) + k && bytes == before + SizeOf(files[..k])
        {
          assert files[..k + 1][..k] == files[..k];
          count, bytes := count + 1, bytes + files[k].size;
          k := k + 1;
        }
        assert files[..k] == files;
        i := i + 1;
      }
      assert m.pools[..i] == m.pools;
    }
  }

  /** An active pool with backups not switched off, that was asked for. */
  ghost predicate Asked(pools: seq<Pool>, ids: seq<string>, p: Pool) {
    p in pools && p.active && !p.policyOff && (ids == [] || p.id in ids)
  }

  /** Why a run does not begin. */
  ghost function RefusalOf(pools: seq<Pool>, opts: RunOptions): Option<BackupError> {
    if opts.encrypt && opts.passphrase == "" then Some(PassphraseRequired)
    else if exists id | id in opts.poolIds :: !Known(pools, id) then Some(NoSuchPool)
    else if !exists p :: Asked(pools, opts.poolIds, p) then Some(NoEligiblePools)
    else None
  }

  /** What stops a run that has begun. */
  predicate CopyError(e: BackupError) {
    e == Unreadable || e == Unwritable || e == IntegrityMismatch
  }

  ghost predicate Known(pools: seq<Pool>, id: string) {
    exists p | p in pools :: p.id == id
  }

  /** The completed row, the counters right, and a manifest of exactly the eligible pools
      asked for. */
  ghost predicate RunMade(pools: seq<Pool>, j: Job, m: Manifest, opts: RunOptions, ch: Chance) {
    && j.id == ch.jobId && j.status == Completed && j.root == opts.root && j.startedAt == ch.startedAt
    && j.fileCount == CountIn(m.pools) && j.totalBytes == SizeIn(m.pools)
    && m.encrypted == opts.encrypt && m.createdAt == ch.startedAt
    && SavesAsked(pools, opts.poolIds, m)
  }

  ghost predicate SavesAsked(pools: seq<Pool>, ids: seq<string>, m: Manifest) {
    && (forall pe | pe in m.pools :: exists p | p in pools ::
          p.active && !p.policyOff && (ids == [] || p.id in ids) && p.id == pe.pool && p.name == pe.name)
    && (forall p | Asked(pools, ids, p) :: SavedPool(m, p.id))
  }

  /** How often a pool comes in a run. */
  ghost function TimesAsked(pools: seq<Pool>, ids: seq<string>, id: string): nat {
    if !exists p :: Asked(pools, ids, p) && p.id == id then 0 else if ids == [] then 1 else multiset(ids)[id]
  }

  /** Each eligible pool as often as it was asked for, and no other. */
  ghost predicate AskedFor(pools: seq<Pool>, ids: seq<string>, got: seq<string>) {
    forall id :: multiset(got)[id] == TimesAsked(pools, ids, id)
  }

  /** The passes of a run, in the order asked for. */
  ghost function Passes(pools: seq<Pool>, ids: seq<string>): seq<string> {
    OfEligible(pools, if ids == [] then IdsOf(pools) else ids)
  }

  ghost function OfEligible(pools: seq<Pool>, ids: seq<string>): seq<string> {
    if ids == [] then []
    else
      (if exists p | p in pools :: p.id == ids[0] && p.active && !p.policyOff then [ids[0]] else [])
      + OfEligible(pools, ids[1..])
  }

  lemma {:induction false} EligibleInOrder(pools: seq<Pool>, ps: seq<Pool>)
    requires DistinctPools(pools) && forall q | q in ps :: q in pools
    ensures IdsOf(OnlyEligible(ps)) == OfEligible(pools, IdsOf(ps))
  {
    if ps != [] {
      EligibleInOrder(pools, ps[1..]);
      assert ps[0] in pools && IdsOf(ps)[1..] == IdsOf(ps[1..]);
      assert [] + OnlyEligible(ps[1..]) == OnlyEligible(ps[1..]);
      assert [] + OfEligible(pools, IdsOf(ps[1..])) == OfEligible(pools, IdsOf(ps[1..]));
      assert IdsOf([ps[0]] + OnlyEligible(ps[1..])) == [ps[0].id] + IdsOf(OnlyEligible(ps[1..]));
    }
  }

  /** No eligible pool is named more than once. */
  ghost predicate OnePass(pools: seq<Pool>, opts: RunOptions) {
    forall p | Asked(pools, opts.poolIds, p) :: !Twice(opts.poolIds, p.id)
  }

  ghost function SetupOf(c: Cipher, s: State, opts: RunOptions, ch: Chance, a: Shelf): Setup {
    Setup(c, a.disk, opts.root, ch.jobId, PlanOf(a.disk, a.jobs, opts, ch),
          if opts.encrypt then Some(c.kdf(opts.passphrase, ch.salt)) else None, ch.ivs, OriginOf(s, ch))
  }

  /** What a run over these pools may have done to the medium, its manifest included. */
  ghost predicate Ran(u: Setup, ids: seq<string>, d: Disk, w: Rewrites) {
    && Fit(u) && Tidy(d) && OthersRewritten(u.d0, d, u.root, u.job, u.plan, w) && Written(u, ids, w)
    && forall k | k in w :: LinkedFrom(u.plan, k) in u.d0.links
  }

  /** And what it has done when it comes to its end: a manifest with a list for every pass, and
      copies that hold what the last pass over their pool left. */
  ghost predicate RanWell(u: Setup, ids: seq<string>, m: Manifest, d: Disk, w: Rewrites) {
    && Read(d, Place(u.root, u.job, ManifestFile)) == Some(Doc(m))
    && AllHold(u, ids, d) && ListedAs(u, ids, m.pools) && AllWritten(u, ids, w)
  }

  /** What one run without its retention has made of the table and the medium: nothing, or
      a failed row without manifest, or a completed row with its manifest. Every other job's
      files and passphrase stay, but for copies written through, which are none unless a
      pool comes twice. */
  ghost predicate JobRan(c: Cipher, pools: seq<Pool>, s: State, opts: RunOptions, ch: Chance, a: Shelf, r: Reply<Job>,
                         ev: Event, b: Shelf) {
    var u := SetupOf(c, s, opts, ch, a);
    && Happens(c, a, ev, b) && !ev.Retired? && (ev == Refused ==> r.Bad?)
    && (ev != Refused ==>
          && Fit(u) && ev.job.id == ch.jobId && ev.job.root == opts.root && ev.pass == opts.passphrase
          && ev.job.startedAt == ch.startedAt && ev.job.pools == Passes(pools, opts.poolIds)
          && ev.plan == u.plan && AskedFor(pools, opts.poolIds, ev.job.pools) && Written(u, ev.job.pools, ev.written))
    && match r
       case Bad(_) => !ev.CompletedRun? && Place(opts.root, ch.jobId, ManifestFile) !in b.disk.links
       case Good(j) =>
         && ev.CompletedRun? && ev.job == j && ev.source == s && RunMade(pools, j, ev.made, opts, ch)
         && ev.made.salt == (if opts.encrypt then ch.salt else []) && RanWell(u, j.pools, ev.made, b.disk, ev.written)
  }

  /** What retention has made of it: everything voted out is gone, rows and files, but for
      what cannot be removed. */
  ghost predicate RetentionRan(c: Cipher, opts: RunOptions, ch: Chance, a: Shelf, ev: Event, b: Shelf) {
    var voted := VotedOut(a.jobs, opts, ch.prunedAt);
    && Happens(c, a, ev, b)
    && ev == Retired(opts.root, voted - Stuck(a.disk, opts.root, voted, ch.stubborn), voted)
    && Without(a.disk, a.jobs, opts.root, voted, ch.stubborn, b.disk, b.jobs)
  }

  lemma LatestFirst(j: Job, jobs: seq<Job>)
    requires NewestFirst(jobs) && forall k | k in jobs :: k.startedAt <= j.startedAt
    ensures NewestFirst([j] + jobs)
  {}

  /** The event a run with this row is, and with this manifest if it came to its end. */
  ghost function EventOf(s: State, opts: RunOptions, ch: Chance, a: Shelf, j: Job, m: Reply<Manifest>,
                         w: Rewrites): Event {
    var plan := PlanOf(a.disk, a.jobs, opts, ch);
    if m.Good? then CompletedRun(j, opts.passphrase, plan, w, m.value, s) else FailedRun(j, opts.passphrase, plan, w)
  }

  lemma ItRan(c: Cipher, pools: seq<Pool>, s: State, opts: RunOptions, ch: Chance, a: Shelf, candidates: seq<Pool>,
              j: Job, m: Reply<Manifest>, w: Rewrites, b: Shelf)
    requires TableOk(a.disk, a.jobs, a.secrets) && ch.jobId !in a.secrets && j.pools == IdsOf(candidates)
    requires Ran(SetupOf(c, s, opts, ch, a), j.pools, b.disk, w) && AskedFor(pools, opts.poolIds, j.pools)
    requires b.jobs == [j] + a.jobs && b.secrets == a.secrets[ch.jobId := opts.passphrase]
    requires j.id == ch.jobId && j.root == opts.root && j.startedAt == ch.startedAt
    requires j.pools == Passes(pools, opts.poolIds)
    requires j.status == if m.Good? then Completed else Failed
    requires m.Bad? ==> Place(opts.root, ch.jobId, ManifestFile) !in b.disk.links
    requires m.Good? ==>
               && RanWell(SetupOf(c, s, opts, ch, a), j.pools, m.value, b.disk, w)
               && j.fileCount == CountIn(m.value.pools) && j.totalBytes == SizeIn(m.value.pools)
               && m.value == Manifest(ch.jobId, ch.startedAt, m.value.pools, opts.encrypt,
                                      if opts.encrypt then ch.salt else [])
               && Covers(SetupOf(c, s, opts, ch, a), candidates, m.value.pools)
    requires opts.encrypt ==> opts.passphrase != ""
    requires forall p | p in candidates :: Asked(pools, opts.poolIds, p)
    requires forall p | Asked(pools, opts.poolIds, p) :: p in candidates
    ensures var r := if m.Good? then Good(j) else Bad(m.error);
            JobRan(c, pools, s, opts, ch, a, r, EventOf(s, opts, ch, a, j, m, w), b)
    ensures TableOk(b.disk, b.jobs, b.secrets)
  {
    if m.Good? {
      CoversAsked(SetupOf(c, s, opts, ch, a), pools, opts.poolIds, candidates, m.value);
      SuccessHappens(c, s, opts, ch, a, j, m.value, w, b);
    }
    EventKeepsTable(c, a, EventOf(s, opts, ch, a, j, m, w), b);
  }

  lemma SuccessHappens(c: Cipher, s: State, opts: RunOptions, ch: Chance, a: Shelf, j: Job, m: Manifest, w: Rewrites,
                       b: Shelf)
    requires TableOk(a.disk, a.jobs, a.secrets) && ch.jobId !in a.secrets
    requires Ran(SetupOf(c, s, opts, ch, a), j.pools, b.disk, w)
    requires RanWell(SetupOf(c, s, opts, ch, a), j.pools, m, b.disk, w)
    requires b.jobs == [j] + a.jobs && b.secrets == a.secrets[ch.jobId := opts.passphrase]
    requires j.id == ch.jobId && j.status == Completed && j.root == opts.root
    requires m == Manifest(ch.jobId, ch.startedAt, m.pools, opts.encrypt, if opts.encrypt then ch.salt else [])
    requires opts.encrypt ==> opts.passphrase != ""
    ensures Happens(c, a, EventOf(s, opts, ch, a, j, Good(m), w), b)
  {
    ListsAgree(SetupOf(c, s, opts, ch, a), j.pools, m.pools);
    RunIsCopied(SetupOf(c, s, opts, ch, a), j.pools, b.disk, m.pools);
  }

  /** No eligible pool is named twice exactly when none comes twice. */
  lemma OnceIsDistinct(pools: seq<Pool>, opts: RunOptions, got: seq<string>)
    requires AskedFor(pools, opts.poolIds, got)
    ensures OnePass(pools, opts) <==> Distinct(got)
  {
    OftenIsTwice(got);
    if !Distinct(got) {
      var id :| Twice(got, id);
      var p :| Asked(pools, opts.poolIds, p) && p.id == id;
    }
    forall p | Asked(pools, opts.poolIds, p) && Twice(opts.poolIds, p.id) ensures Twice(got, p.id) {}
  }

  lemma {:induction false} OftenIsTwice(ids: seq<string>)
    ensures Distinct(ids) <==> forall id :: !Twice(ids, id)
  {
    if ids != [] {
      var n := |ids| - 1;
      var rest, last := ids[..n], ids[n];
      assert ids == rest + [last];
      OftenIsTwice(rest);
      TwiceNow(rest, last, last);
      forall id ensures Twice(rest, id) ==> Twice(ids, id) {
        TwiceNow(rest, last, id);
      }
      forall id | Twice(ids, id) ensures Twice(rest, id) || last in rest {
        TwiceNow(rest, last, id);
      }
    }
  }

  /** The job linked to was run before. */
  lemma PlanIsOlder(d: Disk, jobs: seq<Job>, secrets: map<string, string>, opts: RunOptions, ch: Chance)
    requires TableOk(d, jobs, secrets) && ch.jobId != "" && ch.jobId !in secrets
    ensures var plan := PlanOf(d, jobs, opts, ch);
            plan.root == opts.root && plan.job != ch.jobId && (opts.encrypt ==> plan.digests == map[])
  {
    var completed := CompletedAt(jobs, opts.root);
    assert completed != [] ==> completed[0] in completed;
  }

  /** What an incremental run links to. */
  ghost function IncrementalPlan(d: Disk, jobs: seq<Job>, root: string, unlinkable: set<Key>): LinkPlan {
    var completed := CompletedAt(jobs, root);
    if completed == [] then LinkPlan(root, "", map[], unlinkable)
    else
      var b := Read(d, Place(root, completed[0].id, ManifestFile));
      var digests := if b.Some? && b.value.Doc? then DigestsOf(b.value.manifest.pools) else map[];
      LinkPlan(root, completed[0].id, digests, unlinkable)
  }

  /** An encrypting run links to nothing, and neither does one that is not incremental. */
  ghost function PlanOf(d: Disk, jobs: seq<Job>, opts: RunOptions, ch: Chance): LinkPlan {
    if opts.incremental && !opts.encrypt then IncrementalPlan(d, jobs, opts.root, ch.unlinkable)
    else LinkPlan(opts.root, "", map[], ch.unlinkable)
  }

  /** A run that does not link, or follows a plain job that is intact, spoils nothing. */
  lemma RunSpoilsNothing(c: Cipher, d: Disk, jobs: seq<Job>, opts: RunOptions, ch: Chance, pass: string, k: Key,
                         sha: Digest)
    requires opts.incremental && !opts.encrypt && CompletedAt(jobs, opts.root) != [] ==>
               var last := CompletedAt(jobs, opts.root)[0];
               && Intact(c, d, last, pass)
               && !Read(d, Place(opts.root, last.id, ManifestFile)).value.manifest.encrypted
    ensures !Spoiled(d, PlanOf(d, jobs, opts, ch), k, sha)
  {
    var completed := CompletedAt(jobs, opts.root);
    if opts.incremental && !opts.encrypt && completed != [] {
      assert completed[0] in completed;
      var m := Read(d, Place(opts.root, completed[0].id, ManifestFile)).value.manifest;
      PlainSpoilsNothing(c, d, completed[0], pass, m, PlanOf(d, jobs, opts, ch), k, sha);
    }
  }

  /** The older manifest lists this file with the same content, it can be linked, and its
      ciphertext there differs from that. */
  ghost predicate SharesEntry(c: Cipher, older: Manifest, pass: string, unlinkable: set<Key>, pool: string,
                              y: FileEntry) {
    exists a, x | a in older.pools && x in a.files ::
      && KeyIn(a.pool, x) == KeyIn(pool, y) && x.sha == y.sha && KeyIn(pool, y) !in unlinkable
      && StreamChanges(c, c.kdf(pass, older.salt), x.iv, x.sha.of)
  }

  ghost predicate SharesCiphertext(c: Cipher, older: Manifest, pass: string, unlinkable: set<Key>, newer: Manifest) {
    exists b, y | b in newer.pools && y in b.files :: SharesEntry(c, older, pass, unlinkable, b.pool, y)
  }

  /** A file of a pool that the newer manifest lists once. */
  ghost predicate SharesOnce(c: Cipher, older: Manifest, pass: string, unlinkable: set<Key>, newer: Manifest) {
    exists b, y | b in newer.pools && y in b.files && !Twice(PoolIds(newer.pools), b.pool) ::
      SharesEntry(c, older, pass, unlinkable, b.pool, y)
  }

  lemma RunCompleted(c: Cipher, pools: seq<Pool>, s: State, opts: RunOptions, ch: Chance, a: Shelf, j: Job, ev: Event,
                     b: Shelf)
    requires JobRan(c, pools, s, opts, ch, a, Good(j), ev, b)
    ensures Happens(c, a, ev, b) && ev.CompletedRun? && ev.job == j && ev.pass == opts.passphrase
    ensures ev.plan == PlanOf(a.disk, a.jobs, opts, ch) && ev.made.encrypted == opts.encrypt
    ensures KeyOf(c, ev.made, opts.passphrase) == SetupOf(c, s, opts, ch, a).key
  {}

  /** A plain incremental run after an encrypted job: the new job is intact if and only if
      no unchanged, linkable file of a pool saved once has a ciphertext that differs from its
      content. */
  lemma PlainAfterEncrypted(c: Cipher, pools: seq<Pool>, s: State, opts: RunOptions, ch: Chance, a: Shelf, j: Job,
                            ev: Event, b: Shelf, pass: string, older: Manifest)
    requires JobRan(c, pools, s, opts, ch, a, Good(j), ev, b)
    requires opts.incremental && !opts.encrypt && CompletedAt(a.jobs, opts.root) != []
    requires var last := CompletedAt(a.jobs, opts.root)[0];
             && Intact(c, a.disk, last, pass)
             && Read(a.disk, Place(opts.root, last.id, ManifestFile)) == Some(Doc(older))
    requires older.encrypted
    ensures Intact(c, b.disk, j, opts.passphrase) <==> !SharesOnce(c, older, pass, ch.unlinkable, ev.made)
  {
    RunCompleted(c, pools, s, opts, ch, a, j, ev, b);
    NewJobIntactIff(c, a, ev, b);
    forall q, y | q in ev.made.pools && y in q.files
      ensures Spoiled(a.disk, ev.plan, KeyIn(q.pool, y), y.sha)
         <==> SharesEntry(c, older, pass, ch.unlinkable, q.pool, y)
    {
      SpoiledIffShared(c, a.disk, a.jobs, opts, ch, pass, older, q.pool, y);
    }
  }

  lemma SpoiledIffShared(c: Cipher, d: Disk, jobs: seq<Job>, opts: RunOptions, ch: Chance, pass: string,
                         older: Manifest, pool: string, y: FileEntry)
    requires opts.incremental && !opts.encrypt && CompletedAt(jobs, opts.root) != []
    requires var last := CompletedAt(jobs, opts.root)[0];
             && Intact(c, d, last, pass)
             && Read(d, Place(opts.root, last.id, ManifestFile)) == Some(Doc(older))
    requires older.encrypted
    ensures Spoiled(d, PlanOf(d, jobs, opts, ch), KeyIn(pool, y), y.sha)
       <==> SharesEntry(c, older, pass, ch.unlinkable, pool, y)
  {
    forall p, x | p in older.pools && x in p.files && KeyIn(p.pool, x) == KeyIn(pool, y)
      ensures Spoiled(d, PlanOf(d, jobs, opts, ch), KeyIn(pool, y), y.sha) <==>
                && x.sha == y.sha && KeyIn(pool, y) !in ch.unlinkable
                && StreamChanges(c, c.kdf(pass, older.salt), x.iv, x.sha.of)
    {
      RunSpoilsIff(c, d, jobs, opts, ch, pass, older, p, x, y.sha);
    }
    if Spoiled(d, PlanOf(d, jobs, opts, ch), KeyIn(pool, y), y.sha) {
      var p, x := SpoiledIsListed(c, d, jobs, opts, ch, pass, older, KeyIn(pool, y), y.sha);
    }
  }

  lemma RunSpoilsIff(c: Cipher, d: Disk, jobs: seq<Job>, opts: RunOptions, ch: Chance, pass: string, m: Manifest,
                     pe: PoolEntry, e: FileEntry, sha: Digest)
    requires opts.incremental && !opts.encrypt && CompletedAt(jobs, opts.root) != []
    requires var last := CompletedAt(jobs, opts.root)[0];
             && Intact(c, d, last, pass)
             && Read(d, Place(opts.root, last.id, ManifestFile)) == Some(Doc(m))
    requires m.encrypted && pe in m.pools && e in pe.files
    ensures Spoiled(d, PlanOf(d, jobs, opts, ch), KeyIn(pe.pool, e), sha) <==>
            && e.sha == sha && KeyIn(pe.pool, e) !in ch.unlinkable
            && StreamChanges(c, c.kdf(pass, m.salt), e.iv, sha.of)
  {
    var last := CompletedAt(jobs, opts.root)[0];
    assert last in CompletedAt(jobs, opts.root);
    EncryptedSpoilsIff(c, d, last, pass, m, PlanOf(d, jobs, opts, ch), pe, e, sha);
  }

  lemma SpoiledIsListed(c: Cipher, d: Disk, jobs: seq<Job>, opts: RunOptions, ch: Chance, pass: string, m: Manifest,
                        k: Key, sha: Digest)
    returns (pe: PoolEntry, e: FileEntry)
    requires opts.incremental && !opts.encrypt && CompletedAt(jobs, opts.root) != []
    requires var last := CompletedAt(jobs, opts.root)[0];
             && Intact(c, d, last, pass)
             && Read(d, Place(opts.root, last.id, ManifestFile)) == Some(Doc(m))
    requires Spoiled(d, PlanOf(d, jobs, opts, ch), k, sha)
    ensures pe in m.pools && e in pe.files && KeyIn(pe.pool, e) == k && e.sha == sha
  {
    var last := CompletedAt(jobs, opts.root)[0];
    assert last in CompletedAt(jobs, opts.root);
    DigestsExact(m.pools, k, sha);
    e :| Listed(m.pools, k, e) && e.sha == sha;
    pe :| pe in m.pools && e in pe.files && KeyIn(pe.pool, e) == k;
  }

  function CutoffOf(opts: RunOptions, now: int): int {
    now - opts.retentionDays * SECONDS_A_DAY
  }

  /** How many of the completed jobs stay after a run. */
  function Retained(completed: seq<Job>, opts: RunOptions, now: int): (n: nat)
    ensures n <= |completed|
  {
    if opts.retentionCount > 0 || opts.retentionDays > 0
    then KeepCount(completed, opts.retentionCount, opts.retentionDays, CutoffOf(opts, now))
    else |completed|
  }

  /** Job i of those listed latest first stays if no policy is active, or it is among the latest as
      many as the count policy names, or it is younger than the days of the age policy, of 24
      hours each. */
  lemma StaysByPolicy(completed: seq<Job>, opts: RunOptions, now: int, i: nat)
    requires NewestFirst(completed) && i < |completed|
    ensures i < Retained(completed, opts, now) <==>
              || (opts.retentionCount <= 0 && opts.retentionDays <= 0)
              || i < opts.retentionCount
              || (opts.retentionDays > 0 && now - completed[i].startedAt < opts.retentionDays * 24 * 60 * 60)
  {
    if opts.retentionCount > 0 || opts.retentionDays > 0 {
      VotesKeepAPrefix(completed, opts.retentionCount, opts.retentionDays, CutoffOf(opts, now), i);
    }
  }

  /** The completed jobs of the destination beyond those retention asks for. */
  function VotedOut(jobs: seq<Job>, opts: RunOptions, now: int): set<string> {
    var c := CompletedAt(jobs, opts.root);
    Ids(c[Retained(c, opts, now)..])
  }

  /** The jobs among these with a name that cannot be removed. */
  function Stuck(d: Disk, root: string, voted: set<string>, stubborn: set<Place>): set<string> {
    set p | p in stubborn && p in d.links && p.root == root && p.job in voted :: p.job
  }

  /** Some jobs of one destination were voted out: their names are gone but for those that
      cannot be removed, and their rows but for those of jobs with such a name. */
  ghost predicate Without(d: Disk, jobs: seq<Job>, root: string, voted: set<string>, stubborn: set<Place>, d': Disk,
                          jobs': seq<Job>) {
    && jobs' == Keep(jobs, voted - Stuck(d, root, voted, stubborn))
    && d' == Swept(d, root, voted, stubborn)
  }

  /** One more job is voted out: its names are swept, and its row goes if none is left. */
  lemma OneMoreOut(d: Disk, jobs: seq<Job>, root: string, voted: set<string>, id: string, stubborn: set<Place>)
    requires id !in voted
    ensures var d1, jobs1 := Swept(d, root, voted, stubborn), Keep(jobs, voted - Stuck(d, root, voted, stubborn));
            var d2 := Swept(d1, root, {id}, stubborn);
            var all := forall p | p in d2.links :: !(p.root == root && p.job == id);
            Without(d, jobs, root, voted + {id}, stubborn, d2, if all then Keep(jobs1, {id}) else jobs1)
  {
    var stuck, stuck' := Stuck(d, root, voted, stubborn), Stuck(d, root, voted + {id}, stubborn);
    var d2 := Swept(Swept(d, root, voted, stubborn), root, {id}, stubborn);
    assert d2 == Swept(d, root, voted + {id}, stubborn);
    if forall p | p in d2.links :: !(p.root == root && p.job == id) {
      KeepTwice(jobs, voted - stuck, {id});
      assert (voted + {id}) - stuck' == (voted - stuck) + {id};
    } else {
      assert (voted + {id}) - stuck' == voted - stuck;
    }
  }

  /** When everything voted out could be removed, the table lists the first completed jobs. */
  lemma PrefixLeft(jobs: seq<Job>, opts: RunOptions, now: int)
    requires DistinctJobs(jobs)
    ensures var c := CompletedAt(jobs, opts.root);
            CompletedAt(Keep(jobs, VotedOut(jobs, opts, now)), opts.root) == c[..Retained(c, opts, now)]
  {
    var c := CompletedAt(jobs, opts.root);
    CompletedDistinct(jobs, opts.root);
    CompletedKept(jobs, opts.root, VotedOut(jobs, opts, now));
    KeepHead(c, Retained(c, opts, now));
  }

  lemma PrefixAfterRun(c: Cipher, pools: seq<Pool>, s: State, opts: RunOptions, ch: Chance, mid: Shelf,
                       jobs0: seq<Job>, r: Reply<Job>, ev: Event, after: Event, now: Shelf)
    requires r.Good? && r.value.status == Completed && r.value.root == opts.root && mid.jobs == [r.value] + jobs0
    requires DistinctJobs(mid.jobs) && RetentionRan(c, opts, ch, mid, after, now)
    ensures Stuck(mid.disk, opts.root, VotedOut(mid.jobs, opts, ch.prunedAt), ch.stubborn) == {} ==>
              var all := [r.value] + CompletedAt(jobs0, opts.root);
              CompletedAt(now.jobs, opts.root) == all[..Retained(all, opts, ch.prunedAt)]
  {
    var voted := VotedOut(mid.jobs, opts, ch.prunedAt);
    if Stuck(mid.disk, opts.root, voted, ch.stubborn) == {} {
      assert voted - Stuck(mid.disk, opts.root, voted, ch.stubborn) == voted;
      assert mid.jobs[1..] == jobs0;
      PrefixLeft(mid.jobs, opts, ch.prunedAt);
    }
  }

  lemma SweptIsTidy(d: Disk, root: string, gone: set<string>, stubborn: set<Place>)
    requires Tidy(d)
    ensures Tidy(Swept(d, root, gone, stubborn))
  {}

  lemma RetentionHappens(c: Cipher, a: Shelf, root: string, voted: set<string>, stubborn: set<Place>, b: Shelf)
    requires Without(a.disk, a.jobs, root, voted, stubborn, b.disk, b.jobs) && b.secrets == a.secrets && Tidy(a.disk)
    ensures Happens(c, a, Retired(root, voted - Stuck(a.disk, root, voted, stubborn), voted), b)
  {}

  lemma NothingVoted(d: Disk, jobs: seq<Job>, root: string, stubborn: set<Place>)
    ensures Without(d, jobs, root, {}, stubborn, d, jobs)
  {
    KeepAll(jobs);
    var none: set<string> := {};
    assert none - Stuck(d, root, none, stubborn) == none;
    assert Swept(d, root, none, stubborn).links == d.links;
  }

  lemma AllVoted(completed: seq<Job>, n: nat)
    requires n <= |completed|
    ensures Voted(completed, n, |completed|) == Ids(completed[n..])
  {}

  function OnlyEligible(ps: seq<Pool>): (r: seq<Pool>)
    ensures forall p :: p in r <==> p in ps && Eligible(p)
  {
    if ps == [] then [] else (if Eligible(ps[0]) then [ps[0]] else []) + OnlyEligible(ps[1..])
  }

  lemma OneMoreId(p: Pool, ps: seq<Pool>, id: string)
    ensures multiset(IdsOf([p] + ps))[id] == (if p.id == id then 1 else 0) + multiset(IdsOf(ps))[id]
  {
    assert IdsOf([p] + ps) == [p.id] + IdsOf(ps);
  }

  lemma {:induction false} EligibleTimes(pools: seq<Pool>, ps: seq<Pool>, p: Pool)
    requires DistinctPools(pools) && p in pools && forall q | q in ps :: q in pools
    ensures multiset(IdsOf(OnlyEligible(ps)))[p.id] == if Eligible(p) then multiset(IdsOf(ps))[p.id] else 0
  {
    if ps != [] {
      EligibleTimes(pools, ps[1..], p);
      OneMoreId(ps[0], ps[1..], p.id);
      OneMoreId(ps[0], OnlyEligible(ps[1..]), p.id);
      assert ps == [ps[0]] + ps[1..] && ps[0] in pools;
      assert [] + OnlyEligible(ps[1..]) == OnlyEligible(ps[1..]);
    }
  }

  lemma NoSuchId(ps: seq<Pool>, id: string)
    requires forall p | p in ps :: p.id != id
    ensures multiset(IdsOf(ps))[id] == 0
  {
    assert id !in IdsOf(ps);
  }

  lemma OncePerPool(pools: seq<Pool>, p: Pool)
    requires DistinctPools(pools) && p in pools
    ensures multiset(IdsOf(pools))[p.id] == 1
  {
    var i :| 0 <= i < |pools| && pools[i] == p;
    var ids := IdsOf(pools);
    assert ids == ids[..i] + [p.id] + ids[i + 1..];
    assert p.id !in ids[..i] && p.id !in ids[i + 1..];
  }

  /** Every eligible pool asked for comes as often as it was asked for. */
  lemma EachAsOften(pools: seq<Pool>, ids: seq<string>, asked: seq<Pool>)
    requires DistinctPools(pools)
    requires if ids == [] then asked == pools
             else |asked| == |ids| && forall j | 0 <= j < |ids| :: asked[j] in pools && asked[j].id == ids[j]
    ensures AskedFor(pools, ids, IdsOf(OnlyEligible(asked)))
  {
    forall id ensures multiset(IdsOf(OnlyEligible(asked)))[id] == TimesAsked(pools, ids, id) {
      AsOften(pools, ids, asked, id);
    }
  }

  lemma AsOften(pools: seq<Pool>, ids: seq<string>, asked: seq<Pool>, id: string)
    requires DistinctPools(pools)
    requires if ids == [] then asked == pools
             else |asked| == |ids| && forall j | 0 <= j < |ids| :: asked[j] in pools && asked[j].id == ids[j]
    ensures multiset(IdsOf(OnlyEligible(asked)))[id] == TimesAsked(pools, ids, id)
  {
    assert ids != [] ==> IdsOf(asked) == ids;
    if p :| p in pools && p.id == id {
      EligibleTimes(pools, asked, p);
      OncePerPool(pools, p);
    } else {
      NoSuchId(OnlyEligible(asked), id);
    }
  }

  lemma AllKnown(pools: seq<Pool>, ids: seq<string>, asked: seq<Pool>)
    requires |asked| == |ids| && forall j | 0 <= j < |ids| :: asked[j] in pools && asked[j].id == ids[j]
    ensures forall id | id in ids :: Known(pools, id)
    ensures forall p | p in asked :: p in pools && p.id in ids
  {}

  lemma AskedAreAll(pools: seq<Pool>, ids: seq<string>, asked: seq<Pool>)
    requires DistinctPools(pools) && |asked| == |ids|
    requires forall j | 0 <= j < |ids| :: asked[j] in pools && asked[j].id == ids[j]
    ensures forall p | p in pools && p.id in ids :: p in asked
  {}

  lemma CoversAsked(u: Setup, pools: seq<Pool>, ids: seq<string>, candidates: seq<Pool>, m: Manifest)
    requires Covers(u, candidates, m.pools)
    requires forall p | p in candidates :: Asked(pools, ids, p)
    requires forall p | Asked(pools, ids, p) :: p in candidates
    ensures SavesAsked(pools, ids, m)
  {
    forall pe | pe in m.pools
      ensures exists p | p in pools ::
                p.active && !p.policyOff && (ids == [] || p.id in ids) && p.id == pe.pool && p.name == pe.name
    {
      var i :| 0 <= i < |m.pools| && m.pools[i] == pe;
      assert candidates[i] in candidates && Asked(pools, ids, candidates[i]);
    }
    forall p | Asked(pools, ids, p) ensures SavedPool(m, p.id) {
      var i :| 0 <= i < |candidates| && candidates[i] == p;
      assert m.pools[i] in m.pools;
    }
  }

  ghost predicate DistinctPools(ps: seq<Pool>) {
    forall i, j | 0 <= i < j < |ps| :: ps[i].id != ps[j].id
  }

  /** One entry per pool, in order, each listing the pool's active files. */
  ghost predicate Covers(u: Setup, candidates: seq<Pool>, entries: seq<PoolEntry>) {
    && ListedAs(u, IdsOf(candidates), entries)
    && forall i | 0 <= i < |candidates| :: entries[i].name == candidates[i].name
  }

  /** The jobs the first i votes are against, when the first n stay. */
  function Voted(completed: seq<Job>, n: nat, i: nat): set<string>
    requires n <= |completed| && i <= |completed|
  {
    if i <= n then {} else Ids(completed[n..i])
  }

  lemma VotedGrows(completed: seq<Job>, n: nat, i: nat)
    requires n <= |completed| && i < |completed| && DistinctJobs(completed)
    ensures n <= i ==> Voted(completed, n, i + 1) == Voted(completed, n, i) + {completed[i].id}
    ensures n <= i ==> completed[i].id !in Voted(completed, n, i)
    ensures n > i ==> Voted(completed, n, i + 1) == Voted(completed, n, i)
  {}

  lemma {:induction false} KeepAll(jobs: seq<Job>)
    ensures Keep(jobs, {}) == jobs
  {
    if jobs != [] {
      KeepAll(jobs[1..]);
    }
  }

  /** A file of some pass that is not linked cannot be read, or its writing is cut short. */
  ghost predicate MeetsFault(u: Setup, ids: seq<string>) {
    exists n, row | 0 <= n < |ids| && ActiveRow(u.src.files, row) && row.key.pool == ids[n] ::
      && !(ids[n] !in ids[..n] && IsLinked(u, row))
      && ((n, row.key) in u.src.unreadable || (n, row.key) in u.src.unwritable)
  }

  /** From a storage in agreement with its disk only such faults keep a run from its end. */
  lemma OnlyFaultsStopARun(s: State, u: Setup, ids: seq<string>)
    requires Agreement(s) && u.src.files == s.files && u.src.tree == s.tree
    ensures UniqueKeys(s.files, s.dirs) && SizesTrue(s.files)
    ensures AllObtained(u, ids) <==> !MeetsFault(u, ids)
  {
    forall row | ActiveRow(s.files, row)
      ensures At(row.key) in s.tree.content && s.tree.content[At(row.key)] == row.sha.of
    {
      var f :| f in s.files && s.files[f] == row;
      assert RowBacked(s.tree, s.files[f]);
    }
    StoppedByFaults(s, u, ids);
  }

  lemma StoppedByFaults(s: State, u: Setup, ids: seq<string>)
    requires u.src.files == s.files && u.src.tree == s.tree
    requires forall row | ActiveRow(s.files, row) ::
               At(row.key) in s.tree.content && s.tree.content[At(row.key)] == row.sha.of
    ensures AllObtained(u, ids) <==> !MeetsFault(u, ids)
  {
    forall n, row | 0 <= n < |ids| && ActiveRow(s.files, row) && row.key.pool == ids[n]
      ensures Obtained(u, n, row, ids[n] in ids[..n]) <==>
                || (ids[n] !in ids[..n] && IsLinked(u, row))
                || ((n, row.key) !in u.src.unreadable && (n, row.key) !in u.src.unwritable)
    {}
  }

  ghost predicate PoolVerifies(c: Cipher, d: Disk, root: string, job: string, key: Option<Bytes>, pe: PoolEntry) {
    forall e | e in pe.files :: Verifies(c, d, root, job, key, pe.pool, e)
  }

  /** Every listed copy gives back what the manifest records. */
  ghost predicate AllVerify(c: Cipher, d: Disk, root: string, job: string, key: Option<Bytes>,
                            entries: seq<PoolEntry>) {
    forall pe, e | pe in entries && e in pe.files :: Verifies(c, d, root, job, key, pe.pool, e)
  }

  lemma EachPoolVerifies(c: Cipher, d: Disk, root: string, job: string, key: Option<Bytes>, entries: seq<PoolEntry>)
    ensures (forall a | 0 <= a < |entries| :: PoolVerifies(c, d, root, job, key, entries[a]))
       <==> AllVerify(c, d, root, job, key, entries)
  {}

  lemma OpenedIsIntact(c: Cipher, d: Disk, jobs: seq<Job>, j: Job, pass: string, o: Opened)
    requires DistinctJobs(jobs) && Intact(c, d, j, pass) && j in jobs && j.status == Completed
    requires IsOpened(c, d, jobs, j.id, pass, o)
    ensures FilesOk(c, d, o.job.root, j.id, o.key, o.manifest.pools) && OneDigest(o.manifest.pools)
  {}

  lemma AllGivenBack(c: Cipher, d: Disk, jobs: seq<Job>, j: Job, pass: string, o: Opened, into: Restored)
    requires DistinctJobs(jobs) && Intact(c, d, j, pass) && j in jobs && j.status == Completed
    requires IsOpened(c, d, jobs, j.id, pass, o)
    ensures AllVerify(c, d, o.job.root, j.id, o.key, o.manifest.pools)
    ensures forall pe | pe in o.manifest.pools ::
              GivenBack(PutAll(c, d, o.job.root, j.id, o.key, o.manifest.pools, into), pe)
  {
    OpenedIsIntact(c, d, jobs, j, pass, o);
    EntryVerifies(c, d, o.job.root, j.id, o.key, o.manifest.pools);
    PutAllGives(c, d, o.job.root, j.id, o.key, o.manifest.pools, into);
  }

  /** The first i pools have been copied and listed. */
  ghost predicate CopiedSoFar(u: Setup, candidates: seq<Pool>, i: nat, d: Disk, entries: seq<PoolEntry>,
                              w: Rewrites) {
    i <= |candidates| && RunAt(u, IdsOf(candidates)[..i], d, w) && Covers(u, candidates[..i], entries)
  }

  lemma CopyingBegins(u: Setup, candidates: seq<Pool>)
    requires Fit(u)
    ensures CopiedSoFar(u, candidates, 0, u.d0, [], map[])
  {
    RunBegins(u);
    assert IdsOf(candidates)[..0] == [];
  }

  lemma CopyingEnds(u: Setup, candidates: seq<Pool>, d: Disk, entries: seq<PoolEntry>, w: Rewrites)
    requires CopiedSoFar(u, candidates, |candidates|, d, entries, w)
    ensures RunAt(u, IdsOf(candidates), d, w) && Covers(u, candidates, entries)
  {
    assert candidates[..|candidates|] == candidates && IdsOf(candidates)[..|candidates|] == IdsOf(candidates);
  }

  /** One more pool for the manifest. */
  lemma NextPool(u: Setup, candidates: seq<Pool>, i: nat, d1: Disk, d: Disk, entries: seq<PoolEntry>, w: Rewrites,
                 w': Rewrites, e: PoolEntry)
    requires i < |candidates| && CopiedSoFar(u, candidates, i, d1, entries, w)
    requires e.pool == candidates[i].id && e.name == candidates[i].name && EntriesOf(u, i, e)
    requires PoolPart(u, d1, d, i, e.pool, e.pool in IdsOf(candidates)[..i], w, w')
    requires PoolDone(u, d, i, e.pool, e.pool in IdsOf(candidates)[..i], w')
    ensures CopiedSoFar(u, candidates, i + 1, d, entries + [e], w')
  {
    IdsSoFar(candidates, i);
    RunNext(u, IdsOf(candidates)[..i], d1, d, w, w', e.pool);
    OneMoreCovered(u, candidates, i, entries, e);
  }

  lemma IdsSoFar(candidates: seq<Pool>, i: nat)
    requires i < |candidates|
    ensures IdsOf(candidates)[..i + 1] == IdsOf(candidates)[..i] + [candidates[i].id]
  {}

  lemma OneMoreCovered(u: Setup, candidates: seq<Pool>, i: nat, entries: seq<PoolEntry>, e: PoolEntry)
    requires i < |candidates| && Covers(u, candidates[..i], entries)
    requires e.pool == candidates[i].id && e.name == candidates[i].name && EntriesOf(u, i, e)
    ensures Covers(u, candidates[..i + 1], entries + [e])
  {}

  lemma OneMoreCounted(entries: seq<PoolEntry>, e: PoolEntry)
    ensures CountIn(entries + [e]) == CountIn(entries) + |e.files|
    ensures SizeIn(entries + [e]) == SizeIn(entries) + SizeOf(e.files)
  {
    assert (entries + [e])[..|entries|] == entries;
  }

  lemma LinkIsEntry(c: Cipher, d: Disk, plan: LinkPlan, root: string, job: string, row: FileRow)
    requires Sound(d) && row.size == |row.sha.of| && row.key !in plan.unlinkable
    requires row.key in plan.digests && plan.digests[row.key] == row.sha
    requires CanLink(d, LinkedFrom(plan, row.key), Place(root, job, DataFile(row.key)))
    ensures var b := Place(root, job, DataFile(row.key));
            var d' := Linked(d, LinkedFrom(plan, row.key), b);
            && OnlyPlace(d, d', b) && Links(d, plan, row.key, row.sha)
            && EntryCopied(c, d, plan, d', root, job, None, row.key.pool, EntryFor(row, []))
  {}
}
