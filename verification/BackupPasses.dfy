/** The passes of a run over its pools: a pool that comes for the first time is linked or
    copied under free names; one that comes again is written over what is there, through
    the inodes of an older job where the first pass linked
    (internal/backup/manager.go). */
module BackupPasses {
  import opened Base
  import opened PhysicalTree
  import opened StorageModel
  import opened BackupStore
  import opened BackupHistory
  import opened BackupCopies

  /** The storage a run copies, the files it cannot read, and what is left in those whose
      writing is cut short, by pass. */
  datatype Origin = Origin(files: map<string, FileRow>, tree: Tree, unreadable: set<(nat, Key)>,
                           unwritable: map<(nat, Key), Bytes>)

  /** What stays the same during a run: the medium it found, and what it was asked to do. */
  datatype Setup = Setup(c: Cipher, d0: Disk, root: string, job: string, plan: LinkPlan, key: Option<Bytes>,
                         ivs: (nat, Key) -> Bytes, src: Origin)

  /** A new job, which links only when it does not encrypt. */
  ghost predicate Fit(u: Setup) {
    && Tidy(u.d0) && SizesTrue(u.src.files) && UniqueKeys(u.src.files, map[])
    && u.plan.root == u.root && u.plan.job != u.job && (u.key.Some? ==> u.plan.digests == map[])
    && forall q | q in u.d0.links :: q.job != u.job
  }

  /** What pass n reads of a file. */
  function Got(src: Origin, n: nat, k: Key): Option<Bytes> {
    if (n, k) in src.unreadable || At(k) !in src.tree.content then None else Some(src.tree.content[At(k)])
  }

  function CutShort(src: Origin, n: nat, k: Key): Option<Bytes> {
    if (n, k) in src.unwritable then Some(src.unwritable[(n, k)]) else None
  }

  /** The initialisation vector of a file's copy, when the run encrypts. */
  function IvAt(u: Setup, n: nat, k: Key): Bytes {
    if u.key.Some? then u.ivs(n, k) else []
  }

  function AfterPass(u: Setup, d: Disk, n: nat, row: FileRow): Disk {
    AfterFile(u.c, d, u.root, u.job, row, u.plan, u.key, IvAt(u, n, row.key), Got(u.src, n, row.key),
              CutShort(u.src, n, row.key))
  }

  predicate Goes(u: Setup, d: Disk, n: nat, row: FileRow) {
    FileGoes(d, u.root, u.job, row, u.plan, Got(u.src, n, row.key), CutShort(u.src, n, row.key))
  }

  predicate IsLinked(u: Setup, row: FileRow) {
    Links(u.d0, u.plan, row.key, row.sha)
  }

  /** A first pass links the file; else it can be read, has the content the row records, and is
      written to the end. */
  predicate Obtained(u: Setup, n: nat, row: FileRow, again: bool) {
    || (!again && IsLinked(u, row))
    || (Got(u.src, n, row.key) == Some(row.sha.of) && CutShort(u.src, n, row.key).None?)
  }

  ghost predicate PoolObtained(u: Setup, n: nat, pool: string, again: bool) {
    forall row | ActiveRow(u.src.files, row) && row.key.pool == pool :: Obtained(u, n, row, again)
  }

  predicate RowsObtained(u: Setup, n: nat, rows: seq<FileRow>, i: nat, again: bool) {
    i <= |rows| && forall j | 0 <= j < i :: Obtained(u, n, rows[j], again)
  }

  /** Every file of every pass. */
  ghost predicate AllObtained(u: Setup, ids: seq<string>) {
    ObtainedSoFar(u, ids, |ids|)
  }

  ghost predicate ObtainedSoFar(u: Setup, ids: seq<string>, i: nat) {
    i <= |ids| && forall n | 0 <= n < i :: PoolObtained(u, n, ids[n], ids[n] in ids[..n])
  }

  ghost predicate Stands(u: Setup, d: Disk, row: FileRow) {
    Placed(u.d0, d, u.root, u.job, u.plan, row)
  }

  ghost predicate TracedTo(u: Setup, d: Disk, w: Rewrites) {
    Traced(u.d0, d, u.root, u.job, u.plan, w)
  }

  /** What a copy holds that pass n has dealt with. */
  ghost predicate Holds(u: Setup, d: Disk, n: nat, row: FileRow, again: bool) {
    Read(d, CopyPlace(u.root, u.job, row.key))
    == if !again && IsLinked(u, row) then Read(u.d0, LinkedFrom(u.plan, row.key))
       else Some(Raw(StoredAs(u.c, u.key, IvAt(u, n, row.key), row.sha.of)))
  }

  /** Pass n wrote x through the inode of the older copy of an active file. */
  ghost predicate Through(u: Setup, n: nat, k: Key, x: Bytes) {
    && (exists row :: ActiveRow(u.src.files, row) && row.key == k && IsLinked(u, row))
    && Got(u.src, n, k).Some? && x == BytesWritten(Got(u.src, n, k).value, CutShort(u.src, n, k))
  }

  // ----- one pool

  /** The rows ListFilesByPool answers: every active file of the pool, once. */
  ghost predicate Lists(files: map<string, FileRow>, pool: string, rows: seq<FileRow>) {
    && (forall i, j | 0 <= i < j < |rows| :: rows[i].key != rows[j].key)
    && (forall r | r in rows :: r.key.pool == pool && ActiveRow(files, r))
    && (forall f | f in files && files[f].key.pool == pool && files[f].deletedAt.None? :: files[f] in rows)
  }

  /** The manifest entry for a file row. */
  function EntryFor(row: FileRow, iv: Bytes): FileEntry {
    FileEntry(row.key.owner, row.key.parent, row.key.name, row.size, row.sha, iv)
  }

  function EntryAt(u: Setup, n: nat, row: FileRow): FileEntry {
    EntryFor(row, IvAt(u, n, row.key))
  }

  ghost predicate EntriesFor(u: Setup, n: nat, rows: seq<FileRow>, entries: seq<FileEntry>) {
    |entries| == |rows| && forall j | 0 <= j < |rows| :: entries[j] == EntryAt(u, n, rows[j])
  }

  /** The entry of an active file of the pool, as pass n writes it. */
  ghost predicate FromRow(u: Setup, n: nat, pool: string, e: FileEntry) {
    exists f | f in u.src.files ::
      && u.src.files[f].deletedAt.None? && u.src.files[f].key.pool == pool && e == EntryAt(u, n, u.src.files[f])
  }

  ghost predicate EntriesOf(u: Setup, n: nat, pe: PoolEntry) {
    Mirrors(u.src.files, pe) && forall e | e in pe.files :: FromRow(u, n, pe.pool, e)
  }

  lemma EntriesMirror(u: Setup, n: nat, pe: PoolEntry, rows: seq<FileRow>)
    requires Lists(u.src.files, pe.pool, rows) && EntriesFor(u, n, rows, pe.files)
    ensures EntriesOf(u, n, pe)
  {
    forall e | e in pe.files ensures FromRow(u, n, pe.pool, e) {
      var j :| 0 <= j < |rows| && pe.files[j] == e;
      assert rows[j] in rows && ActiveRow(u.src.files, rows[j]);
    }
    forall row | ActiveRow(u.src.files, row) && row.key.pool == pe.pool ensures ListsFile(pe, row) {
      var j :| 0 <= j < |rows| && rows[j] == row;
      assert pe.files[j] in pe.files;
    }
  }

  predicate InPool(q: Place, root: string, job: string, pool: string) {
    OfJob(q, root, job) && q.rel.DataFile? && q.rel.key.pool == pool
  }

  /** In the job, only names of this pool may have come or changed. */
  ghost predicate PoolOnly(d: Disk, d': Disk, root: string, job: string, pool: string) {
    forall q: Place | OfJob(q, root, job) && !InPool(q, root, job, pool) ::
      (q in d'.links <==> q in d.links) && (q in d.links ==> d'.links[q] == d.links[q]) && Read(d', q) == Read(d, q)
  }

  /** Nothing has been written through the first time, and else only files of this pool. */
  ghost predicate RewrittenBy(u: Setup, n: nat, pool: string, again: bool, w: Rewrites, w': Rewrites) {
    && (!again ==> w' == w)
    && (forall k | k in w :: k in w')
    && (forall k | k in w' :: (k in w && w'[k] == w[k]) || (k.pool == pool && Through(u, n, k, w'[k])))
  }

  /** Whatever became of this pass: where the run stands. */
  ghost predicate PoolPart(u: Setup, d1: Disk, d: Disk, n: nat, pool: string, again: bool, w: Rewrites,
                           w': Rewrites) {
    TracedTo(u, d, w') && PoolOnly(d1, d, u.root, u.job, pool) && RewrittenBy(u, n, pool, again, w, w')
  }

  /** A file this pass has dealt with. */
  ghost predicate RowDone(u: Setup, d: Disk, n: nat, row: FileRow, again: bool, w: Rewrites) {
    && Stands(u, d, row) && Holds(u, d, n, row, again)
    && (again && IsLinked(u, row) ==> row.key in w && w[row.key] == row.sha.of)
  }

  /** A file whose turn is yet to come. */
  ghost predicate RowAhead(u: Setup, d: Disk, row: FileRow, again: bool) {
    if again then Stands(u, d, row) else CopyPlace(u.root, u.job, row.key) !in d.links
  }

  ghost predicate RowsDone(u: Setup, d: Disk, n: nat, rows: seq<FileRow>, i: nat, again: bool, w: Rewrites)
    requires i <= |rows|
  {
    && (forall j | 0 <= j < i :: RowDone(u, d, n, rows[j], again, w))
    && (forall j | i <= j < |rows| :: RowAhead(u, d, rows[j], again))
  }

  /** A pass that has come to row i. */
  ghost predicate PassAt(u: Setup, d1: Disk, d: Disk, n: nat, pool: string, rows: seq<FileRow>, i: nat,
                         entries: seq<FileEntry>, again: bool, w: Rewrites, w': Rewrites) {
    && i <= |rows| && PoolPart(u, d1, d, n, pool, again, w, w') && RowsDone(u, d, n, rows, i, again, w')
    && EntriesFor(u, n, rows[..i], entries)
  }

  function RewritesNext(u: Setup, n: nat, row: FileRow, again: bool, w: Rewrites): Rewrites {
    RewritesAfter(u.d0, u.plan, row, Got(u.src, n, row.key), CutShort(u.src, n, row.key), again, w)
  }

  /** One more file: what the pass leaves behind when it stops there. */
  lemma PartNext(u: Setup, d1: Disk, d: Disk, n: nat, pool: string, row: FileRow, again: bool, w: Rewrites,
                 w': Rewrites)
    requires Fit(u) && PoolPart(u, d1, d, n, pool, again, w, w') && RowAhead(u, d, row, again)
    requires row.key.pool == pool && ActiveRow(u.src.files, row)
    ensures var d' := AfterPass(u, d, n, row);
            && PoolPart(u, d1, d', n, pool, again, w, RewritesNext(u, n, row, again, w'))
            && JobKeptBut(d, d', u.root, u.job, CopyPlace(u.root, u.job, row.key))
            && (Goes(u, d, n, row) ==> Stands(u, d', row))
  {
    FileIsTraced(u.c, u.d0, d, u.root, u.job, row, u.plan, u.key, IvAt(u, n, row.key), Got(u.src, n, row.key),
                 CutShort(u.src, n, row.key), again, w');
    OnlyNext(d1, d, AfterPass(u, d, n, row), u.root, u.job, row.key);
    RewrittenNext(u, n, row, again, w, w');
  }

  /** Whether a file goes does not depend on how far the run has come. */
  lemma GoesIffObtained(u: Setup, d: Disk, n: nat, row: FileRow, again: bool, w: Rewrites)
    requires Fit(u) && TracedTo(u, d, w) && RowAhead(u, d, row, again)
    ensures Goes(u, d, n, row) <==> Obtained(u, n, row, again)
  {
    LinksAsBefore(u.d0, d, u.root, u.job, u.plan, row.key, row.sha);
  }

  lemma EachRowObtained(u: Setup, n: nat, pool: string, rows: seq<FileRow>, again: bool)
    requires Lists(u.src.files, pool, rows)
    ensures RowsObtained(u, n, rows, |rows|, again) <==> PoolObtained(u, n, pool, again)
  {
    forall row | ActiveRow(u.src.files, row) && row.key.pool == pool ensures row in rows {}
    forall j | 0 <= j < |rows| ensures ActiveRow(u.src.files, rows[j]) && rows[j].key.pool == pool {
      assert rows[j] in rows;
    }
  }

  lemma OnlyNext(d1: Disk, d: Disk, d': Disk, root: string, job: string, k: Key)
    requires PoolOnly(d1, d, root, job, k.pool) && JobKeptBut(d, d', root, job, CopyPlace(root, job, k))
    ensures PoolOnly(d1, d', root, job, k.pool)
  {}

  lemma RewrittenNext(u: Setup, n: nat, row: FileRow, again: bool, w: Rewrites, w': Rewrites)
    requires RewrittenBy(u, n, row.key.pool, again, w, w') && ActiveRow(u.src.files, row)
    ensures RewrittenBy(u, n, row.key.pool, again, w, RewritesNext(u, n, row, again, w'))
  {
    if again && Got(u.src, n, row.key).Some? && IsLinked(u, row) {
      assert Through(u, n, row.key, BytesWritten(Got(u.src, n, row.key).value, CutShort(u.src, n, row.key)));
    }
  }

  /** And what it has done when it can go on. */
  lemma PassNext(u: Setup, d1: Disk, d: Disk, n: nat, pool: string, rows: seq<FileRow>, i: nat,
                 entries: seq<FileEntry>, again: bool, w: Rewrites, w': Rewrites, e: FileEntry)
    requires Fit(u) && Lists(u.src.files, pool, rows) && i < |rows|
    requires PassAt(u, d1, d, n, pool, rows, i, entries, again, w, w')
    requires !again ==> forall k | k in w :: k.pool != pool
    requires Goes(u, d, n, rows[i]) && e == EntryAt(u, n, rows[i])
    ensures PassAt(u, d1, AfterPass(u, d, n, rows[i]), n, pool, rows, i + 1, entries + [e], again, w,
                   RewritesNext(u, n, rows[i], again, w'))
  {
    var row := rows[i];
    assert row in rows;
    PartNext(u, d1, d, n, pool, row, again, w, w');
    FileHolds(u.c, u.d0, d, u.root, u.job, row, u.plan, u.key, IvAt(u, n, row.key), Got(u.src, n, row.key),
              CutShort(u.src, n, row.key), again, w');
    RowsNext(u, d, AfterPass(u, d, n, row), rows, i, again, n, w');
  }

  lemma RowsNext(u: Setup, d: Disk, d': Disk, rows: seq<FileRow>, i: nat, again: bool, n: nat, w: Rewrites)
    requires i < |rows| && RowsDone(u, d, n, rows, i, again, w)
    requires forall a, b | 0 <= a < b < |rows| :: rows[a].key != rows[b].key
    requires JobKeptBut(d, d', u.root, u.job, CopyPlace(u.root, u.job, rows[i].key))
    requires Stands(u, d', rows[i]) && Holds(u, d', n, rows[i], again)
    requires again ==> Goes(u, d, n, rows[i])
    ensures RowsDone(u, d', n, rows, i + 1, again, RewritesNext(u, n, rows[i], again, w))
  {}

  // ----- all pools

  /** Every file written through belongs to a pool that had been there before, and holds
      what some such pass wrote. */
  ghost predicate Written(u: Setup, ids: seq<string>, w: Rewrites) {
    forall k | k in w :: exists n | 0 <= n < |ids| :: ids[n] == k.pool && k.pool in ids[..n] && Through(u, n, k, w[k])
  }

  /** Every linked file of a pool named twice holds its content now, in the older job too. */
  ghost predicate AllWritten(u: Setup, ids: seq<string>, w: Rewrites) {
    forall row | ActiveRow(u.src.files, row) && Twice(ids, row.key.pool) && IsLinked(u, row) ::
      row.key in w && w[row.key] == row.sha.of
  }

  /** The last pass over a pool. */
  function LastPass(ids: seq<string>, pool: string): (n: nat)
    requires pool in ids
    ensures n < |ids| && ids[n] == pool && pool !in ids[n + 1..]
  {
    if ids[|ids| - 1] == pool then |ids| - 1 else LastPass(ids[..|ids| - 1], pool)
  }

  /** Every copy holds what the last pass over its pool left. */
  ghost predicate AllHold(u: Setup, ids: seq<string>, d: Disk) {
    forall row | ActiveRow(u.src.files, row) && row.key.pool in ids ::
      Holds(u, d, LastPass(ids, row.key.pool), row, Twice(ids, row.key.pool))
  }

  /** One list for each pass. */
  ghost predicate ListedAs(u: Setup, ids: seq<string>, entries: seq<PoolEntry>) {
    && |entries| == |ids|
    && forall n | 0 <= n < |ids| :: entries[n].pool == ids[n] && EntriesOf(u, n, entries[n])
  }

  /** Only pools that had their turn have names in the job, and all their files do. */
  ghost predicate OnlySeen(u: Setup, ids: seq<string>, d: Disk) {
    && (forall q: Place | OfJob(q, u.root, u.job) && q in d.links :: q.rel.DataFile? && q.rel.key.pool in ids)
    && (forall row | ActiveRow(u.src.files, row) && row.key.pool in ids :: Stands(u, d, row))
  }

  /** The run has been over these pools. */
  ghost predicate RunAt(u: Setup, ids: seq<string>, d: Disk, w: Rewrites) {
    TracedTo(u, d, w) && OnlySeen(u, ids, d) && Written(u, ids, w) && AllWritten(u, ids, w) && AllHold(u, ids, d)
  }

  /** Every active file of the pool has been dealt with. */
  ghost predicate PoolDone(u: Setup, d: Disk, n: nat, pool: string, again: bool, w: Rewrites) {
    forall row | ActiveRow(u.src.files, row) && row.key.pool == pool :: RowDone(u, d, n, row, again, w)
  }

  lemma RunBegins(u: Setup)
    requires Fit(u)
    ensures RunAt(u, [], u.d0, map[])
  {
    TracedBegins(u.d0, u.root, u.job, u.plan);
  }

  /** A pool that comes for the first time finds its names free; one that comes again finds
      all its files. */
  lemma PassBegins(u: Setup, ids: seq<string>, d: Disk, w: Rewrites, pool: string, rows: seq<FileRow>)
    requires RunAt(u, ids, d, w) && Lists(u.src.files, pool, rows)
    ensures PassAt(u, d, d, |ids|, pool, rows, 0, [], pool in ids, w, w)
    ensures pool !in ids ==> forall k | k in w :: k.pool != pool
  {
    var again := pool in ids;
    forall j | 0 <= j < |rows| ensures RowAhead(u, d, rows[j], again) {
      assert rows[j] in rows;
    }
    forall k | k in w ensures k.pool in ids {
      var n :| 0 <= n < |ids| && ids[n] == k.pool;
    }
  }

  lemma PassEnds(u: Setup, d1: Disk, d: Disk, n: nat, pool: string, rows: seq<FileRow>, entries: seq<FileEntry>,
                 again: bool, w: Rewrites, w': Rewrites)
    requires PassAt(u, d1, d, n, pool, rows, |rows|, entries, again, w, w') && Lists(u.src.files, pool, rows)
    ensures PoolDone(u, d, n, pool, again, w')
  {
    forall row | ActiveRow(u.src.files, row) && row.key.pool == pool ensures RowDone(u, d, n, row, again, w') {
      var j :| 0 <= j < |rows| && rows[j] == row;
    }
  }

  lemma TwiceNow(ids: seq<string>, pool: string, id: string)
    ensures Twice(ids + [pool], id) <==> Twice(ids, id) || (id == pool && pool in ids)
  {}

  /** What a pass leaves behind when the run stops there. */
  lemma WrittenNext(u: Setup, ids: seq<string>, pool: string, w: Rewrites, w': Rewrites)
    requires Written(u, ids, w) && RewrittenBy(u, |ids|, pool, pool in ids, w, w')
    ensures Written(u, ids + [pool], w')
  {
    var all := ids + [pool];
    assert all[..|ids|] == ids;
    forall k | k in w'
      ensures exists n | 0 <= n < |all| :: all[n] == k.pool && k.pool in all[..n] && Through(u, n, k, w'[k])
    {
      if k in w && w'[k] == w[k] {
        var n :| 0 <= n < |ids| && ids[n] == k.pool && k.pool in ids[..n] && Through(u, n, k, w[k]);
        assert all[n] == ids[n] && all[..n] == ids[..n];
      } else {
        assert all[|ids|] == pool;
      }
    }
  }

  lemma AllWrittenNext(u: Setup, ids: seq<string>, d: Disk, pool: string, w: Rewrites, w': Rewrites)
    requires AllWritten(u, ids, w) && RewrittenBy(u, |ids|, pool, pool in ids, w, w')
    requires PoolDone(u, d, |ids|, pool, pool in ids, w')
    ensures AllWritten(u, ids + [pool], w')
  {
    forall row | ActiveRow(u.src.files, row) && Twice(ids + [pool], row.key.pool) && IsLinked(u, row)
      ensures row.key in w' && w'[row.key] == row.sha.of
    {
      TwiceNow(ids, pool, row.key.pool);
      assert row.key.pool == pool ==> RowDone(u, d, |ids|, row, pool in ids, w');
    }
  }

  lemma OnlySeenNext(u: Setup, ids: seq<string>, d1: Disk, d: Disk, pool: string, w: Rewrites)
    requires OnlySeen(u, ids, d1) && PoolOnly(d1, d, u.root, u.job, pool)
    requires PoolDone(u, d, |ids|, pool, pool in ids, w)
    ensures OnlySeen(u, ids + [pool], d)
  {
    forall row | ActiveRow(u.src.files, row) && row.key.pool in ids + [pool] ensures Stands(u, d, row) {
      if row.key.pool == pool {
        assert RowDone(u, d, |ids|, row, pool in ids, w);
      }
    }
  }

  lemma AllHoldNext(u: Setup, ids: seq<string>, d1: Disk, d: Disk, pool: string, w: Rewrites)
    requires AllHold(u, ids, d1) && PoolOnly(d1, d, u.root, u.job, pool)
    requires PoolDone(u, d, |ids|, pool, pool in ids, w)
    ensures AllHold(u, ids + [pool], d)
  {
    var all := ids + [pool];
    assert all[..|ids|] == ids;
    forall row | ActiveRow(u.src.files, row) && row.key.pool in all
      ensures Holds(u, d, LastPass(all, row.key.pool), row, Twice(all, row.key.pool))
    {
      TwiceNow(ids, pool, row.key.pool);
      if row.key.pool == pool {
        OnceIfNew(ids, pool);
        assert RowDone(u, d, |ids|, row, pool in ids, w);
      }
    }
  }

  lemma OnceIfNew(ids: seq<string>, id: string)
    ensures id !in ids ==> !Twice(ids, id)
  {}

  /** One more pool. */
  lemma RunNext(u: Setup, ids: seq<string>, d1: Disk, d: Disk, w: Rewrites, w': Rewrites, pool: string)
    requires RunAt(u, ids, d1, w) && PoolPart(u, d1, d, |ids|, pool, pool in ids, w, w')
    requires PoolDone(u, d, |ids|, pool, pool in ids, w')
    ensures RunAt(u, ids + [pool], d, w')
  {
    WrittenNext(u, ids, pool, w, w');
    AllWrittenNext(u, ids, d, pool, w, w');
    OnlySeenNext(u, ids, d1, d, pool, w');
    AllHoldNext(u, ids, d1, d, pool, w');
  }

  // ----- what has been written through

  /** When every pool comes once, nothing. */
  lemma OnceIsNothing(u: Setup, ids: seq<string>, w: Rewrites)
    requires Distinct(ids) && Written(u, ids, w)
    ensures w == map[]
  {
    assert forall n | 0 <= n < |ids| :: ids[n] !in ids[..n];
    assert forall k :: k !in w;
  }

  /** No file of a pool named twice was linked to bytes other than its plain content. */
  ghost predicate NoneSpoiledTwice(u: Setup, ids: seq<string>) {
    forall row | ActiveRow(u.src.files, row) && Twice(ids, row.key.pool) :: !Spoiled(u.d0, u.plan, row.key, row.sha)
  }

  /** A run that comes to its end writes through only what was there exactly then. */
  lemma SparesIffNoneSpoiled(u: Setup, ids: seq<string>, w: Rewrites)
    requires Written(u, ids, w) && AllWritten(u, ids, w)
    ensures RewritesSpare(u.d0, u.plan, w) <==> NoneSpoiledTwice(u, ids)
  {
    if RewritesSpare(u.d0, u.plan, w) {
      forall row | ActiveRow(u.src.files, row) && Twice(ids, row.key.pool)
        ensures !Spoiled(u.d0, u.plan, row.key, row.sha)
      {
        assert IsLinked(u, row) ==> row.key in w;
      }
    }
    if NoneSpoiledTwice(u, ids) {
      forall k | k in w ensures Read(u.d0, LinkedFrom(u.plan, k)) == Some(Raw(w[k])) {
        var row := RowOfWritten(u, ids, w, k);
        assert !Spoiled(u.d0, u.plan, k, row.sha);
      }
    }
  }

  lemma SeenIsTwice(ids: seq<string>, n: nat)
    requires n < |ids| && ids[n] in ids[..n]
    ensures Twice(ids, ids[n])
  {
    assert ids == ids[..n] + [ids[n]] + ids[n + 1..];
  }

  lemma RowOfWritten(u: Setup, ids: seq<string>, w: Rewrites, k: Key) returns (row: FileRow)
    requires Written(u, ids, w) && k in w
    ensures ActiveRow(u.src.files, row) && row.key == k && IsLinked(u, row) && Twice(ids, k.pool)
  {
    var n :| 0 <= n < |ids| && ids[n] == k.pool && k.pool in ids[..n] && Through(u, n, k, w[k]);
    SeenIsTwice(ids, n);
    row :| ActiveRow(u.src.files, row) && row.key == k && IsLinked(u, row);
  }

  /** The older copy of a file that was spoiled holds the plain content now. */
  lemma SpoiledIsPlainNow(u: Setup, ids: seq<string>, d: Disk, w: Rewrites, row: FileRow)
    requires u.plan.job != u.job && OthersRewritten(u.d0, d, u.root, u.job, u.plan, w) && AllWritten(u, ids, w)
    requires ActiveRow(u.src.files, row) && Twice(ids, row.key.pool) && Spoiled(u.d0, u.plan, row.key, row.sha)
    ensures Read(d, LinkedFrom(u.plan, row.key)) == Some(Raw(row.sha.of))
  {
    assert IsLinked(u, row) && row.key in w;
    var q := LinkedFrom(u.plan, row.key);
    assert !OfJob(q, u.root, u.job) && Hits(u.d0, u.plan, w, q);
  }

  lemma WrittenLonger(u: Setup, ids: seq<string>, i: nat, w: Rewrites)
    requires i <= |ids| && Written(u, ids[..i], w)
    ensures Written(u, ids, w)
  {
    forall k | k in w
      ensures exists n | 0 <= n < |ids| :: ids[n] == k.pool && k.pool in ids[..n] && Through(u, n, k, w[k])
    {
      var n :| 0 <= n < i && ids[..i][n] == k.pool && k.pool in ids[..i][..n] && Through(u, n, k, w[k]);
      assert ids[..i][..n] == ids[..n];
    }
  }

  lemma WrittenByNow(u: Setup, ids: seq<string>, i: nat, w: Rewrites, w': Rewrites)
    requires i < |ids| && Written(u, ids[..i], w) && RewrittenBy(u, i, ids[i], ids[i] in ids[..i], w, w')
    ensures Written(u, ids, w')
  {
    WrittenNext(u, ids[..i], ids[i], w, w');
    assert ids[..i + 1] == ids[..i] + [ids[i]];
    WrittenLonger(u, ids, i + 1, w');
  }

  // ----- the manifest

  /** The manifest is written last, or its failure leaves nothing. */
  lemma ManifestWritten(u: Setup, ids: seq<string>, d: Disk, w: Rewrites, m: Manifest,
                        cut: Option<Bytes>)
    requires Fit(u) && TracedTo(u, d, w)
    ensures var p := Place(u.root, u.job, ManifestFile);
            var d' := if cut.None? then Write(d, p, Doc(m)) else Unlinked(Write(d, p, Raw(cut.value)), p);
            && p !in d.links && Tidy(d') && OthersRewritten(u.d0, d', u.root, u.job, u.plan, w)
            && (cut.None? ==> Read(d', p) == Some(Doc(m)))
            && (AllHold(u, ids, d) ==> AllHold(u, ids, d'))
  {
    var p := Place(u.root, u.job, ManifestFile);
    var d' := if cut.None? then Write(d, p, Doc(m)) else Unlinked(Write(d, p, Raw(cut.value)), p);
    NewNameIsTidy(d, p, if cut.None? then Doc(m) else Raw(cut.value));
    assert forall q: Place | q.rel.DataFile? :: Read(d', q) == Read(d, q);
  }

  lemma NewNameIsTidy(d: Disk, p: Place, x: Blob)
    requires Tidy(d) && p !in d.links
    ensures var d' := Write(d, p, x);
            && Tidy(d') && Tidy(Unlinked(d', p)) && Read(d', p) == Some(x)
            && forall q: Place | q != p :: Read(d', q) == Read(d, q) && Read(Unlinked(d', p), q) == Read(d, q)
  {}

  // ----- what the copies and the manifest say about each other

  /** Of a file that has one, the last entry is that of the last pass over its pool. */
  lemma {:induction false} LastIsOfLastPass(u: Setup, ids: seq<string>, entries: seq<PoolEntry>, row: FileRow)
    requires UniqueKeys(u.src.files, map[]) && ListedAs(u, ids, entries)
    requires ActiveRow(u.src.files, row) && row.key.pool in ids
    ensures LastOf(entries, row.key) == Some(EntryAt(u, LastPass(ids, row.key.pool), row))
  {
    var n := |ids| - 1;
    var last, rest := entries[n], entries[..n];
    LastInIsListed(last.pool, last.files, row.key, LastOf(rest, row.key));
    assert EntriesOf(u, n, last);
    if ids[n] == row.key.pool {
      assert ListsFile(last, row);
      var e := LastIn(last.pool, last.files, row.key, LastOf(rest, row.key));
      EntryOfKey(u, n, last.pool, e.value, row);
    } else {
      LastIsOfLastPass(u, ids[..n], rest, row);
    }
  }

  lemma EntryOfKey(u: Setup, n: nat, pool: string, e: FileEntry, row: FileRow)
    requires UniqueKeys(u.src.files, map[]) && FromRow(u, n, pool, e)
    requires ActiveRow(u.src.files, row) && KeyIn(pool, e) == row.key
    ensures e == EntryAt(u, n, row)
  {
    var f :| f in u.src.files && u.src.files[f].key.pool == pool && e == EntryAt(u, n, u.src.files[f]);
    var g :| g in u.src.files && u.src.files[g] == row;
  }

  /** Every entry is that of an active file. */
  lemma RowOfEntry(u: Setup, n: nat, pool: string, e: FileEntry) returns (row: FileRow)
    requires FromRow(u, n, pool, e)
    ensures ActiveRow(u.src.files, row) && row.key == KeyIn(pool, e) && e == EntryAt(u, n, row)
  {
    var f :| f in u.src.files && u.src.files[f].deletedAt.None? && u.src.files[f].key.pool == pool
             && e == EntryAt(u, n, u.src.files[f]);
    row := u.src.files[f];
  }

  lemma ListsAgree(u: Setup, ids: seq<string>, entries: seq<PoolEntry>)
    requires UniqueKeys(u.src.files, map[]) && ListedAs(u, ids, entries)
    ensures OneDigest(entries) && PoolIds(entries) == ids
    ensures forall pe | pe in entries :: Mirrors(u.src.files, pe)
  {
    forall pe, e, qe, x | pe in entries && e in pe.files && qe in entries && x in qe.files
                          && KeyIn(pe.pool, e) == KeyIn(qe.pool, x)
      ensures e.sha == x.sha
    {
      var i :| 0 <= i < |entries| && entries[i] == pe;
      var j :| 0 <= j < |entries| && entries[j] == qe;
      var row := RowOfEntry(u, i, pe.pool, e);
      EntryOfKey(u, j, qe.pool, x, row);
    }
    assert PoolIds(entries) == ids;
  }

  /** What pass m has listed, and pass n written. */
  lemma VerdictOnBytes(u: Setup, d: Disk, row: FileRow, m: nat, n: nat, again: bool)
    requires Fit(u) && Holds(u, d, n, row, again) && (again || m == n)
    ensures Verifies(u.c, d, u.root, u.job, u.key, row.key.pool, EntryAt(u, m, row))
       <==> if !again then !Spoiled(u.d0, u.plan, row.key, row.sha)
            else u.key.Some? ==>
                   StreamsAgree(u.c, u.key.value, u.ivs(m, row.key), u.ivs(n, row.key), row.sha.of)
  {
    assert CopyOf(u.root, u.job, row.key.pool, EntryAt(u, m, row)) == CopyPlace(u.root, u.job, row.key);
    if u.key.Some? {
      OtherStream(u.c, u.key.value, u.ivs(m, row.key), u.ivs(n, row.key), row.sha.of);
    }
  }

  lemma OnlyPass(ids: seq<string>, n: nat)
    requires n < |ids| && !Twice(ids, ids[n])
    ensures LastPass(ids, ids[n]) == n
  {
    var m := LastPass(ids, ids[n]);
    if m != n {
      SeenIsTwice(ids, m);
    }
  }

  /** Exactly the good copies give back their content. */
  lemma EntryIsCopied(u: Setup, ids: seq<string>, d: Disk, entries: seq<PoolEntry>, n: nat, e: FileEntry)
    requires Fit(u) && AllHold(u, ids, d) && ListedAs(u, ids, entries) && n < |ids| && e in entries[n].files
    ensures e.size == |e.sha.of|
    ensures Verifies(u.c, d, u.root, u.job, u.key, ids[n], e)
       <==> EntryGood(u.c, u.d0, u.plan, entries, u.key, ids[n], e)
  {
    assert FromRow(u, n, ids[n], e);
    var row := RowOfEntry(u, n, ids[n], e);
    ListsAgree(u, ids, entries);
    LastIsOfLastPass(u, ids, entries, row);
    if !Twice(ids, ids[n]) {
      OnlyPass(ids, n);
    }
    VerdictOnBytes(u, d, row, n, LastPass(ids, row.key.pool), Twice(ids, ids[n]));
  }

  lemma RunIsCopied(u: Setup, ids: seq<string>, d: Disk, entries: seq<PoolEntry>)
    requires Fit(u) && AllHold(u, ids, d) && ListedAs(u, ids, entries)
    ensures FilesCopied(u.c, u.d0, u.plan, d, u.root, u.job, u.key, entries)
  {
    forall pe, e | pe in entries && e in pe.files
      ensures e.size == |e.sha.of|
      ensures Verifies(u.c, d, u.root, u.job, u.key, pe.pool, e)
         <==> EntryGood(u.c, u.d0, u.plan, entries, u.key, pe.pool, e)
    {
      var n :| 0 <= n < |entries| && entries[n] == pe;
      EntryIsCopied(u, ids, d, entries, n, e);
    }
  }

  /** No file of a pool named once was linked to bytes other than its plain content. */
  ghost predicate NoneSpoiledOnce(u: Setup, ids: seq<string>) {
    forall row | ActiveRow(u.src.files, row) && row.key.pool in ids && !Twice(ids, row.key.pool) ::
      !Spoiled(u.d0, u.plan, row.key, row.sha)
  }

  /** Wherever an encrypting run comes back to a file, the key stream of the earlier pass is
      that of the last one, as far as the content goes. */
  ghost predicate SameStreams(u: Setup, ids: seq<string>) {
    u.key.Some? ==>
      forall row, n | ActiveRow(u.src.files, row) && 0 <= n < |ids| && ids[n] == row.key.pool ::
        StreamsAgree(u.c, u.key.value, u.ivs(n, row.key), u.ivs(LastPass(ids, row.key.pool), row.key), row.sha.of)
  }

  /** All copies are good exactly then. */
  lemma AllGoodIff(u: Setup, ids: seq<string>, entries: seq<PoolEntry>)
    requires Fit(u) && ListedAs(u, ids, entries)
    ensures AllGood(u.c, u.d0, u.plan, entries, u.key) <==> NoneSpoiledOnce(u, ids) && SameStreams(u, ids)
  {
    forall n, e | 0 <= n < |ids| && e in entries[n].files
      ensures NoneSpoiledOnce(u, ids) && SameStreams(u, ids) ==>
                EntryGood(u.c, u.d0, u.plan, entries, u.key, ids[n], e)
    {
      assert FromRow(u, n, ids[n], e);
      var row := RowOfEntry(u, n, ids[n], e);
      GoodForRow(u, ids, entries, n, row);
    }
    forall row, n | ActiveRow(u.src.files, row) && 0 <= n < |ids| && ids[n] == row.key.pool
      ensures AllGood(u.c, u.d0, u.plan, entries, u.key) ==> RowGood(u, ids, n, row)
    {
      GoodForRow(u, ids, entries, n, row);
      EntryIsThere(u, ids, entries, n, row);
      assert entries[n] in entries;
    }
    EachRowGood(u, ids);
  }

  ghost predicate RowGood(u: Setup, ids: seq<string>, n: nat, row: FileRow) {
    && row.key.pool in ids
    && (!Twice(ids, row.key.pool) ==> !Spoiled(u.d0, u.plan, row.key, row.sha))
    && (u.key.Some? ==>
          StreamsAgree(u.c, u.key.value, u.ivs(n, row.key), u.ivs(LastPass(ids, row.key.pool), row.key), row.sha.of))
  }

  lemma EachRowGood(u: Setup, ids: seq<string>)
    ensures NoneSpoiledOnce(u, ids) && SameStreams(u, ids)
       <==> forall row, n | ActiveRow(u.src.files, row) && 0 <= n < |ids| && ids[n] == row.key.pool ::
              RowGood(u, ids, n, row)
  {
    if forall row, n | ActiveRow(u.src.files, row) && 0 <= n < |ids| && ids[n] == row.key.pool ::
         RowGood(u, ids, n, row)
    {
      forall row | ActiveRow(u.src.files, row) && row.key.pool in ids && !Twice(ids, row.key.pool)
        ensures !Spoiled(u.d0, u.plan, row.key, row.sha)
      {
        assert RowGood(u, ids, LastPass(ids, row.key.pool), row);
      }
      forall row, n | ActiveRow(u.src.files, row) && 0 <= n < |ids| && ids[n] == row.key.pool && u.key.Some?
        ensures StreamsAgree(u.c, u.key.value, u.ivs(n, row.key), u.ivs(LastPass(ids, row.key.pool), row.key),
                             row.sha.of)
      {
        assert RowGood(u, ids, n, row);
      }
    }
  }

  lemma EntryIsThere(u: Setup, ids: seq<string>, entries: seq<PoolEntry>, n: nat, row: FileRow)
    requires UniqueKeys(u.src.files, map[]) && ListedAs(u, ids, entries) && n < |ids|
    requires ActiveRow(u.src.files, row) && ids[n] == row.key.pool
    ensures EntryAt(u, n, row) in entries[n].files
  {
    assert EntriesOf(u, n, entries[n]) && ListsFile(entries[n], row);
    var e :| e in entries[n].files && KeyIn(entries[n].pool, e) == row.key;
    EntryOfKey(u, n, ids[n], e, row);
  }

  lemma GoodForRow(u: Setup, ids: seq<string>, entries: seq<PoolEntry>, n: nat, row: FileRow)
    requires Fit(u) && ListedAs(u, ids, entries) && n < |ids|
    requires ActiveRow(u.src.files, row) && ids[n] == row.key.pool
    ensures EntryGood(u.c, u.d0, u.plan, entries, u.key, ids[n], EntryAt(u, n, row)) <==> RowGood(u, ids, n, row)
  {
    ListsAgree(u, ids, entries);
    LastIsOfLastPass(u, ids, entries, row);
    if !Twice(ids, ids[n]) {
      OnlyPass(ids, n);
    } else {
      assert u.key.Some? ==> EntryAt(u, n, row).iv == u.ivs(n, row.key);
    }
  }

  /** A file of a pool named twice always comes back, from the last list. */
  lemma TwiceComesBack(u: Setup, ids: seq<string>, d: Disk, entries: seq<PoolEntry>, row: FileRow)
    requires Fit(u) && AllHold(u, ids, d) && ListedAs(u, ids, entries)
    requires ActiveRow(u.src.files, row) && Twice(ids, row.key.pool)
    ensures Lookup(PutAll(u.c, d, u.root, u.job, u.key, entries, map[]), row.key) == Some(row.sha.of)
  {
    OnceIfNew(ids, row.key.pool);
    LastIsOfLastPass(u, ids, entries, row);
    var n := LastPass(ids, row.key.pool);
    VerdictOnBytes(u, d, row, n, n, true);
    PutAllFresh(u.c, d, u.root, u.job, u.key, entries, row.key);
  }
}
