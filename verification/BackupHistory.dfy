/** What a history of backups promises: every completed job's files are there under
    their names and decrypt to what its manifest records
    (internal/backup/manager.go, job.go). */
module BackupHistory {
  import opened Base
  import opened StorageModel
  import opened BackupStore

  datatype Status = Running | Completed | Failed

  datatype Job = Job(id: string, status: Status, root: string, pools: seq<string>, fileCount: nat, totalBytes: nat,
                     startedAt: int)

  function KeyOf(c: Cipher, m: Manifest, pass: string): Option<Bytes> {
    if m.encrypted then Some(c.kdf(pass, m.salt)) else None
  }

  function CopyOf(root: string, job: string, pool: string, e: FileEntry): Place {
    Place(root, job, DataFile(KeyIn(pool, e)))
  }

  /** The stored copy gives back the recorded content. */
  ghost predicate EntryOk(c: Cipher, d: Disk, root: string, job: string, key: Option<Bytes>, pool: string,
                          e: FileEntry) {
    var b := Read(d, CopyOf(root, job, pool, e));
    && b.Some? && b.value.Raw?
    && Plain(c, key, e.iv, b.value.bytes) == e.sha.of
    && e.size == |e.sha.of|
  }

  ghost predicate PoolOk(c: Cipher, d: Disk, root: string, job: string, key: Option<Bytes>, pe: PoolEntry) {
    forall e | e in pe.files :: EntryOk(c, d, root, job, key, pe.pool, e)
  }

  ghost predicate FilesOk(c: Cipher, d: Disk, root: string, job: string, key: Option<Bytes>, pools: seq<PoolEntry>) {
    forall pe | pe in pools :: PoolOk(c, d, root, job, key, pe)
  }

  /** A file that is listed more than once has one digest. */
  ghost predicate OneDigest(pools: seq<PoolEntry>) {
    forall pe, e, qe, x | pe in pools && e in pe.files && qe in pools && x in qe.files
                          && KeyIn(pe.pool, e) == KeyIn(qe.pool, x) :: e.sha == x.sha
  }

  /** A job that can be restored whole with this passphrase. */
  ghost predicate Intact(c: Cipher, d: Disk, j: Job, pass: string) {
    var b := Read(d, Place(j.root, j.id, ManifestFile));
    && b.Some? && b.value.Doc? && b.value.manifest.job == j.id
    && (b.value.manifest.encrypted ==> pass != "") && OneDigest(b.value.manifest.pools)
    && FilesOk(c, d, j.root, j.id, KeyOf(c, b.value.manifest, pass), b.value.manifest.pools)
  }

  ghost predicate DistinctJobs(jobs: seq<Job>) {
    forall i, k | 0 <= i < k < |jobs| :: jobs[i].id != jobs[k].id
  }

  /** Ids are unique, and the passphrase of every job is on record. */
  ghost predicate TableOk(d: Disk, jobs: seq<Job>, secrets: map<string, string>) {
    Tidy(d) && DistinctJobs(jobs) && forall j | j in jobs :: j.id in secrets
  }

  /** Every completed job is intact under the passphrase it was made with. */
  ghost predicate HistoryOk(c: Cipher, d: Disk, jobs: seq<Job>, secrets: map<string, string>) {
    TableOk(d, jobs, secrets) && forall j | j in jobs && j.status == Completed :: Intact(c, d, j, secrets[j.id])
  }

  /** Without encryption any passphrase does. */
  lemma AnyPassphrase(c: Cipher, d: Disk, j: Job, pass: string, other: string)
    requires Intact(c, d, j, pass)
    requires var b := Read(d, Place(j.root, j.id, ManifestFile)); !b.value.manifest.encrypted
    ensures Intact(c, d, j, other)
  {}

  // ----- what keeps a job intact

  lemma IntactKept(c: Cipher, d: Disk, d': Disk, j: Job, pass: string)
    requires Intact(c, d, j, pass)
    requires forall p: Place | p.root == j.root && p.job == j.id :: Read(d', p) == Read(d, p)
    ensures Intact(c, d', j, pass)
  {}

  /** The job table without some jobs. */
  function Keep(jobs: seq<Job>, gone: set<string>): (r: seq<Job>)
    ensures forall j :: j in r <==> j in jobs && j.id !in gone
  {
    if jobs == [] then []
    else (if jobs[0].id in gone then [] else [jobs[0]]) + Keep(jobs[1..], gone)
  }

  lemma {:induction false} KeepDistinct(jobs: seq<Job>, gone: set<string>)
    requires DistinctJobs(jobs)
    ensures DistinctJobs(Keep(jobs, gone))
  {
    if jobs != [] {
      KeepDistinct(jobs[1..], gone);
      var rest := Keep(jobs[1..], gone);
      forall k | k in rest ensures k.id != jobs[0].id {
        var i :| 0 <= i < |jobs[1..]| && jobs[1..][i] == k;
        assert jobs[i + 1] == k;
      }
    }
  }

  lemma {:induction false} KeepTwice(jobs: seq<Job>, a: set<string>, b: set<string>)
    ensures Keep(Keep(jobs, a), b) == Keep(jobs, a + b)
  {
    if jobs != [] {
      KeepTwice(jobs[1..], a, b);
      var rest := Keep(jobs[1..], a);
      if jobs[0].id !in a {
        assert ([jobs[0]] + rest)[1..] == rest;
      } else {
        assert [] + rest == rest;
      }
    }
  }

  /** Removing a job's files and row leaves the rest of the history as good as before,
      jobs that share bytes with it included. */
  lemma JobRemoved(c: Cipher, d: Disk, jobs: seq<Job>, secrets: map<string, string>, root: string, id: string,
                   stubborn: set<Place>)
    requires HistoryOk(c, d, jobs, secrets)
    ensures HistoryOk(c, Swept(d, root, {id}, stubborn), Keep(jobs, {id}), secrets)
  {
    var d' := Swept(d, root, {id}, stubborn);
    KeepDistinct(jobs, {id});
    forall j | j in Keep(jobs, {id}) && j.status == Completed ensures Intact(c, d', j, secrets[j.id]) {
      IntactKept(c, d, d', j, secrets[j.id]);
    }
  }

  // ----- what a manifest lists

  /** Recorded sizes are the sizes of what was digested. */
  predicate SizesTrue(files: map<string, FileRow>) {
    forall f | f in files :: files[f].size == |files[f].sha.of|
  }

  /** The entry of a pool's manifest lists every active file of the pool once, with its
      digest. */
  ghost predicate Mirrors(files: map<string, FileRow>, pe: PoolEntry) {
    && (forall i, j | 0 <= i < j < |pe.files| :: KeyIn(pe.pool, pe.files[i]) != KeyIn(pe.pool, pe.files[j]))
    && OnlyActive(files, pe) && EveryActive(files, pe)
  }

  ghost predicate OnlyActive(files: map<string, FileRow>, pe: PoolEntry) {
    forall e | e in pe.files :: exists f | f in files ::
      files[f].deletedAt.None? && files[f].key == KeyIn(pe.pool, e) && files[f].sha == e.sha
  }

  ghost predicate ActiveRow(files: map<string, FileRow>, row: FileRow) {
    row.deletedAt.None? && exists f :: f in files && files[f] == row
  }

  ghost predicate EveryActive(files: map<string, FileRow>, pe: PoolEntry) {
    forall row | ActiveRow(files, row) && row.key.pool == pe.pool :: ListsFile(pe, row)
  }

  ghost predicate ListsFile(pe: PoolEntry, row: FileRow) {
    exists e | e in pe.files :: KeyIn(pe.pool, e) == row.key && e.sha == row.sha
  }

  // ----- checking and giving back

  /** The copy's content has the digest the manifest records. */
  predicate Verifies(c: Cipher, d: Disk, root: string, job: string, key: Option<Bytes>, pool: string, e: FileEntry) {
    var b := Read(d, CopyOf(root, job, pool, e));
    b.Some? && b.value.Raw? && Sha256(Plain(c, key, e.iv, b.value.bytes)) == e.sha
  }

  /** A folder into which files are restored, by where they belong. */
  type Restored = map<Key, Bytes>

  /** restoreOneFile: a copy that fails its digest leaves nothing, a missing copy touches
      nothing. */
  function PutFile(c: Cipher, d: Disk, root: string, job: string, key: Option<Bytes>, pool: string, e: FileEntry,
                   out: Restored): Restored {
    var b := Read(d, CopyOf(root, job, pool, e));
    if b.None? || b.value.Doc? then out
    else
      var plain := Plain(c, key, e.iv, b.value.bytes);
      if Sha256(plain) == e.sha then out[KeyIn(pool, e) := plain] else out - {KeyIn(pool, e)}
  }

  function PutFiles(c: Cipher, d: Disk, root: string, job: string, key: Option<Bytes>, pool: string,
                    files: seq<FileEntry>, out: Restored): Restored {
    if files == [] then out
    else
      PutFile(c, d, root, job, key, pool, files[|files| - 1],
              PutFiles(c, d, root, job, key, pool, files[..|files| - 1], out))
  }

  function PutAll(c: Cipher, d: Disk, root: string, job: string, key: Option<Bytes>, pools: seq<PoolEntry>,
                  out: Restored): Restored {
    if pools == [] then out
    else
      var last := pools[|pools| - 1];
      PutFiles(c, d, root, job, key, last.pool, last.files, PutAll(c, d, root, job, key, pools[..|pools| - 1], out))
  }

  /** Every file the pool lists is in the folder with its content. */
  ghost predicate GivenBack(out: Restored, pe: PoolEntry) {
    forall e | e in pe.files :: KeyIn(pe.pool, e) in out && out[KeyIn(pe.pool, e)] == e.sha.of
  }

  /** The last of these entries with this key, or what came before them. */
  function LastIn(pool: string, files: seq<FileEntry>, k: Key, before: Option<FileEntry>): Option<FileEntry> {
    if files == [] then before
    else if KeyIn(pool, files[|files| - 1]) == k then Some(files[|files| - 1])
    else LastIn(pool, files[..|files| - 1], k, before)
  }

  /** A file listed more than once is restored as its last entry says. */
  function LastOf(pools: seq<PoolEntry>, k: Key): Option<FileEntry> {
    if pools == [] then None
    else LastIn(pools[|pools| - 1].pool, pools[|pools| - 1].files, k, LastOf(pools[..|pools| - 1], k))
  }

  ghost predicate Listed(pools: seq<PoolEntry>, k: Key, e: FileEntry) {
    exists pe | pe in pools :: e in pe.files && KeyIn(pe.pool, e) == k
  }

  lemma {:induction false} LastInIsListed(pool: string, files: seq<FileEntry>, k: Key, before: Option<FileEntry>)
    ensures var r := LastIn(pool, files, k, before);
            || (r.Some? && r.value in files && KeyIn(pool, r.value) == k)
            || (r == before && forall e | e in files :: KeyIn(pool, e) != k)
  {
    if files != [] {
      LastInIsListed(pool, files[..|files| - 1], k, before);
    }
  }

  /** A file has a last entry exactly when it has one. */
  lemma {:induction false} LastOfIsListed(pools: seq<PoolEntry>, k: Key)
    ensures LastOf(pools, k).Some? ==> Listed(pools, k, LastOf(pools, k).value)
    ensures LastOf(pools, k).None? ==> forall e :: !Listed(pools, k, e)
  {
    if pools != [] {
      var last, rest := pools[|pools| - 1], pools[..|pools| - 1];
      assert pools == rest + [last];
      LastOfIsListed(rest, k);
      LastInIsListed(last.pool, last.files, k, LastOf(rest, k));
      forall e | Listed(pools, k, e) ensures LastOf(pools, k).Some? {
        var pe :| pe in pools && e in pe.files && KeyIn(pe.pool, e) == k;
        assert pe in rest ==> Listed(rest, k, e);
      }
    }
  }

  function Lookup(out: Restored, k: Key): Option<Bytes> {
    if k in out then Some(out[k]) else None
  }

  /** What restoring leaves of a file whose last entry this is. */
  function LeftOf(c: Cipher, d: Disk, root: string, job: string, key: Option<Bytes>, k: Key, last: Option<FileEntry>,
                  before: Option<Bytes>): Option<Bytes> {
    var b := Read(d, Place(root, job, DataFile(k)));
    if last.None? || b.None? || b.value.Doc? then before
    else if Verifies(c, d, root, job, key, k.pool, last.value) then Some(last.value.sha.of)
    else None
  }

  lemma {:induction false} PutFilesExact(c: Cipher, d: Disk, root: string, job: string, key: Option<Bytes>,
                                         pool: string, files: seq<FileEntry>, k: Key, last: Option<FileEntry>,
                                         before: Option<Bytes>, out: Restored)
    requires last.Some? ==> KeyIn(k.pool, last.value) == k
    requires Lookup(out, k) == LeftOf(c, d, root, job, key, k, last, before)
    ensures Lookup(PutFiles(c, d, root, job, key, pool, files, out), k)
         == LeftOf(c, d, root, job, key, k, LastIn(pool, files, k, last), before)
  {
    if files != [] {
      var rest := files[..|files| - 1];
      PutFilesExact(c, d, root, job, key, pool, rest, k, last, before, out);
      LastInIsListed(pool, rest, k, last);
    }
  }

  /** Restoring gives of each listed file what its last entry records if the copy verifies
      against that, and takes it away if it does not; what is not listed, or has no copy, is
      left as it was. */
  lemma {:induction false} PutAllExact(c: Cipher, d: Disk, root: string, job: string, key: Option<Bytes>,
                                       pools: seq<PoolEntry>, k: Key, into: Restored)
    ensures Lookup(PutAll(c, d, root, job, key, pools, into), k)
         == LeftOf(c, d, root, job, key, k, LastOf(pools, k), Lookup(into, k))
  {
    if pools != [] {
      var last, rest := pools[|pools| - 1], pools[..|pools| - 1];
      PutAllExact(c, d, root, job, key, rest, k, into);
      LastOfIsListed(rest, k);
      PutFilesExact(c, d, root, job, key, last.pool, last.files, k, LastOf(rest, k), Lookup(into, k),
                    PutAll(c, d, root, job, key, rest, into));
    }
  }

  /** Into an empty folder come exactly the files whose last entry verifies. */
  lemma PutAllFresh(c: Cipher, d: Disk, root: string, job: string, key: Option<Bytes>, pools: seq<PoolEntry>, k: Key)
    ensures var r := PutAll(c, d, root, job, key, pools, map[]);
            && (k in r <==> && LastOf(pools, k).Some?
                            && Verifies(c, d, root, job, key, k.pool, LastOf(pools, k).value))
            && (k in r ==> r[k] == LastOf(pools, k).value.sha.of)
  {
    PutAllExact(c, d, root, job, key, pools, k, map[]);
    LastOfIsListed(pools, k);
  }

  /** Restoring an intact list gives back every file it lists, with its content. */
  lemma PutAllGives(c: Cipher, d: Disk, root: string, job: string, key: Option<Bytes>, pools: seq<PoolEntry>,
                    into: Restored)
    requires FilesOk(c, d, root, job, key, pools) && OneDigest(pools)
    ensures forall pe | pe in pools :: GivenBack(PutAll(c, d, root, job, key, pools, into), pe)
  {
    var r := PutAll(c, d, root, job, key, pools, into);
    forall pe, e | pe in pools && e in pe.files ensures Lookup(r, KeyIn(pe.pool, e)) == Some(e.sha.of) {
      var k := KeyIn(pe.pool, e);
      PutAllExact(c, d, root, job, key, pools, k, into);
      LastOfIsListed(pools, k);
      assert Listed(pools, k, e);
      var qe :| qe in pools && LastOf(pools, k).value in qe.files && KeyIn(qe.pool, LastOf(pools, k).value) == k;
      assert PoolOk(c, d, root, job, key, qe);
      assert EntryOk(c, d, root, job, key, qe.pool, LastOf(pools, k).value);
    }
    forall pe | pe in pools ensures GivenBack(r, pe) {
      forall e | e in pe.files ensures KeyIn(pe.pool, e) in r && r[KeyIn(pe.pool, e)] == e.sha.of {
        assert Lookup(r, KeyIn(pe.pool, e)) == Some(e.sha.of);
      }
    }
  }

  lemma EntryVerifies(c: Cipher, d: Disk, root: string, job: string, key: Option<Bytes>, pools: seq<PoolEntry>)
    requires FilesOk(c, d, root, job, key, pools)
    ensures forall pe, e | pe in pools && e in pe.files :: Verifies(c, d, root, job, key, pe.pool, e)
  {}

  // ----- counting

  function SizeOf(files: seq<FileEntry>): nat {
    if files == [] then 0 else SizeOf(files[..|files| - 1]) + files[|files| - 1].size
  }

  function CountIn(pools: seq<PoolEntry>): nat {
    if pools == [] then 0 else CountIn(pools[..|pools| - 1]) + |pools[|pools| - 1].files|
  }

  function SizeIn(pools: seq<PoolEntry>): nat {
    if pools == [] then 0 else SizeIn(pools[..|pools| - 1]) + SizeOf(pools[|pools| - 1].files)
  }

  // ----- what an incremental run links to

  /** The job an incremental run links to, the digests its manifest records, and the files
      for which linking fails. */
  datatype LinkPlan = LinkPlan(root: string, job: string, digests: map<Key, Digest>, unlinkable: set<Key>)

  function LinkedFrom(plan: LinkPlan, k: Key): Place {
    Place(plan.root, plan.job, DataFile(k))
  }

  /** The digests of a manifest; of a file listed twice the later one. */
  function DigestsIn(pe: PoolEntry, n: nat): map<Key, Digest>
    requires n <= |pe.files|
  {
    if n == 0 then map[] else DigestsIn(pe, n - 1)[KeyIn(pe.pool, pe.files[n - 1]) := pe.files[n - 1].sha]
  }

  function DigestsOf(pools: seq<PoolEntry>): map<Key, Digest> {
    if pools == [] then map[]
    else
      var last := pools[|pools| - 1];
      DigestsOf(pools[..|pools| - 1]) + DigestsIn(last, |last.files|)
  }

  lemma {:induction false} DigestsInAreLast(pe: PoolEntry, n: nat, k: Key, before: Option<FileEntry>)
    requires n <= |pe.files|
    ensures var last, digests := LastIn(pe.pool, pe.files[..n], k, before), DigestsIn(pe, n);
            if k in digests then last.Some? && last.value.sha == digests[k] else last == before
  {
    if n > 0 {
      assert pe.files[..n][..n - 1] == pe.files[..n - 1];
      DigestsInAreLast(pe, n - 1, k, before);
    }
  }

  lemma {:induction false} DigestsAreLast(pools: seq<PoolEntry>, k: Key)
    ensures k in DigestsOf(pools) <==> LastOf(pools, k).Some?
    ensures k in DigestsOf(pools) ==> DigestsOf(pools)[k] == LastOf(pools, k).value.sha
  {
    if pools != [] {
      var last, rest := pools[|pools| - 1], pools[..|pools| - 1];
      DigestsAreLast(rest, k);
      DigestsInAreLast(last, |last.files|, k, LastOf(rest, k));
      assert last.files[..|last.files|] == last.files;
    }
  }

  /** A file and its digest are taken from the manifest exactly when it lists them. */
  lemma DigestsExact(pools: seq<PoolEntry>, k: Key, sha: Digest)
    requires OneDigest(pools)
    ensures k in DigestsOf(pools) && DigestsOf(pools)[k] == sha <==> exists e :: Listed(pools, k, e) && e.sha == sha
  {
    DigestsAreLast(pools, k);
    LastOfIsListed(pools, k);
    forall e | Listed(pools, k, e) ensures LastOf(pools, k).Some? && LastOf(pools, k).value.sha == e.sha {
      SameDigest(pools, k, e, LastOf(pools, k).value);
    }
  }

  lemma SameDigest(pools: seq<PoolEntry>, k: Key, e: FileEntry, x: FileEntry)
    requires OneDigest(pools) && Listed(pools, k, e) && Listed(pools, k, x)
    ensures e.sha == x.sha
  {}

  /** The run links this file instead of copying it. */
  predicate Links(d: Disk, plan: LinkPlan, k: Key, sha: Digest) {
    k in plan.digests && plan.digests[k] == sha && k !in plan.unlinkable && Read(d, LinkedFrom(plan, k)).Some?
  }

  /** A linked file whose bytes are not its plain content. */
  predicate Spoiled(d: Disk, plan: LinkPlan, k: Key, sha: Digest) {
    Links(d, plan, k, sha) && Read(d, LinkedFrom(plan, k)) != Some(Raw(sha.of))
  }

  /** The copy of an entry gives back what it should, except when it is a link to bytes
      that were not the plain content when the run began. */
  ghost predicate EntryCopied(c: Cipher, d0: Disk, plan: LinkPlan, d: Disk, root: string, job: string,
                              key: Option<Bytes>, pool: string, e: FileEntry) {
    && e.size == |e.sha.of|
    && (Verifies(c, d, root, job, key, pool, e) <==> !Spoiled(d0, plan, KeyIn(pool, e), e.sha))
  }

  // ----- which copies of a run are good

  /** The pool is named more than once. */
  predicate Twice(ids: seq<string>, id: string) {
    multiset(ids)[id] >= 2
  }

  function PoolIds(pools: seq<PoolEntry>): (r: seq<string>)
    ensures |r| == |pools| && forall i | 0 <= i < |pools| :: r[i] == pools[i].pool
  {
    seq(|pools|, i requires 0 <= i < |pools| => pools[i].pool)
  }

  /** The two key streams are the same where they meet this content. */
  ghost predicate StreamsAgree(c: Cipher, key: Bytes, iv: Bytes, iv': Bytes, content: Bytes) {
    forall n | 0 <= n < |content| :: c.stream(key, iv, n) == c.stream(key, iv', n)
  }

  /** Content encrypted under one vector comes back under another exactly then. */
  lemma OtherStream(c: Cipher, key: Bytes, iv: Bytes, iv': Bytes, content: Bytes)
    ensures Xor(c, key, iv, Xor(c, key, iv', content)) == content <==> StreamsAgree(c, key, iv, iv', content)
  {
    var x := Xor(c, key, iv, Xor(c, key, iv', content));
    forall n | 0 <= n < |content|
      ensures x[n] == content[n] <==> c.stream(key, iv, n) == c.stream(key, iv', n)
    {
      BitsBack(content[n], c.stream(key, iv', n), c.stream(key, iv, n));
    }
  }

  lemma BitsBack(a: bv8, b: bv8, x: bv8)
    ensures (a ^ b) ^ x == a <==> b == x
  {}

  /** What decides about the copy of a listed file. Of a pool listed once, whether it is a link
      to bytes that were not the plain content; of a pool listed more often, whether the
      vector of this entry will do for a copy that was written under that of the last. */
  ghost predicate EntryGood(c: Cipher, d0: Disk, plan: LinkPlan, pools: seq<PoolEntry>, key: Option<Bytes>,
                            pool: string, e: FileEntry) {
    if !Twice(PoolIds(pools), pool) then !Spoiled(d0, plan, KeyIn(pool, e), e.sha)
    else key.Some? && LastOf(pools, KeyIn(pool, e)).Some? ==>
           StreamsAgree(c, key.value, e.iv, LastOf(pools, KeyIn(pool, e)).value.iv, e.sha.of)
  }

  ghost predicate AllGood(c: Cipher, d0: Disk, plan: LinkPlan, pools: seq<PoolEntry>, key: Option<Bytes>) {
    forall pe, e | pe in pools && e in pe.files :: EntryGood(c, d0, plan, pools, key, pe.pool, e)
  }

  /** The copies of a run: exactly those that are good give back what they should. */
  ghost predicate FilesCopied(c: Cipher, d0: Disk, plan: LinkPlan, d: Disk, root: string, job: string,
                              key: Option<Bytes>, pools: seq<PoolEntry>) {
    forall pe, e | pe in pools && e in pe.files ::
      && e.size == |e.sha.of|
      && (Verifies(c, d, root, job, key, pe.pool, e) <==> EntryGood(c, d0, plan, pools, key, pe.pool, e))
  }

  lemma CopiedIsOk(c: Cipher, d0: Disk, plan: LinkPlan, d: Disk, root: string, job: string, key: Option<Bytes>,
                   pools: seq<PoolEntry>)
    requires FilesCopied(c, d0, plan, d, root, job, key, pools)
    ensures FilesOk(c, d, root, job, key, pools) <==> AllGood(c, d0, plan, pools, key)
  {
    if FilesOk(c, d, root, job, key, pools) {
      EntryVerifies(c, d, root, job, key, pools);
    } else {
      var pe :| pe in pools && !PoolOk(c, d, root, job, key, pe);
      var e :| e in pe.files && !EntryOk(c, d, root, job, key, pe.pool, e);
      assert !Verifies(c, d, root, job, key, pe.pool, e);
    }
  }

  /** The plan made from job j and its manifest m. */
  ghost predicate PlansOn(plan: LinkPlan, j: Job, m: Manifest) {
    plan.root == j.root && plan.job == j.id && plan.digests == DigestsOf(m.pools)
  }

  /** Linking to a plain job that is intact spoils nothing. */
  lemma PlainSpoilsNothing(c: Cipher, d: Disk, j: Job, pass: string, m: Manifest, plan: LinkPlan, k: Key, sha: Digest)
    requires Intact(c, d, j, pass) && Read(d, Place(j.root, j.id, ManifestFile)) == Some(Doc(m)) && !m.encrypted
    requires PlansOn(plan, j, m)
    ensures !Spoiled(d, plan, k, sha)
  {
    if Links(d, plan, k, sha) {
      DigestsExact(m.pools, k, sha);
      var e :| Listed(m.pools, k, e) && e.sha == sha;
      var pe :| pe in m.pools && e in pe.files && KeyIn(pe.pool, e) == k;
      assert PoolOk(c, d, j.root, j.id, None, pe) && EntryOk(c, d, j.root, j.id, None, pe.pool, e);
    }
  }

  /** Linking to an encrypted job that is intact spoils exactly the files that are unchanged,
      can be linked, and are changed by the key stream. */
  lemma EncryptedSpoilsIff(c: Cipher, d: Disk, j: Job, pass: string, m: Manifest, plan: LinkPlan, pe: PoolEntry,
                           e: FileEntry, sha: Digest)
    requires Intact(c, d, j, pass) && Read(d, Place(j.root, j.id, ManifestFile)) == Some(Doc(m)) && m.encrypted
    requires PlansOn(plan, j, m) && pe in m.pools && e in pe.files
    ensures Spoiled(d, plan, KeyIn(pe.pool, e), sha) <==>
            && e.sha == sha && KeyIn(pe.pool, e) !in plan.unlinkable
            && StreamChanges(c, c.kdf(pass, m.salt), e.iv, sha.of)
  {
    var k, key := KeyIn(pe.pool, e), c.kdf(pass, m.salt);
    assert PoolOk(c, d, j.root, j.id, Some(key), pe) && EntryOk(c, d, j.root, j.id, Some(key), pe.pool, e);
    ListedDigest(m.pools, pe, e, sha);
    var stored := Read(d, LinkedFrom(plan, k)).value.bytes;
    XorTwice(c, key, e.iv, stored);
    StreamShows(c, key, e.iv, e.sha.of);
  }

  lemma ListedDigest(pools: seq<PoolEntry>, pe: PoolEntry, e: FileEntry, sha: Digest)
    requires OneDigest(pools) && pe in pools && e in pe.files
    ensures var k := KeyIn(pe.pool, e); k in DigestsOf(pools) && DigestsOf(pools)[k] == sha <==> e.sha == sha
  {
    var k := KeyIn(pe.pool, e);
    DigestsExact(pools, k, sha);
    assert Listed(pools, k, e);
    forall x | Listed(pools, k, x) ensures x.sha == e.sha {
      SameDigest(pools, k, e, x);
    }
  }

  /** One of the bytes of the key stream that meet this content is not 0. */
  ghost predicate StreamChanges(c: Cipher, key: Bytes, iv: Bytes, content: Bytes) {
    exists n | 0 <= n < |content| :: c.stream(key, iv, n) != 0
  }

  /** Exactly then the ciphertext differs from the content. */
  lemma StreamShows(c: Cipher, key: Bytes, iv: Bytes, content: Bytes)
    ensures Xor(c, key, iv, content) != content <==> StreamChanges(c, key, iv, content)
  {
    forall n | 0 <= n < |content| ensures Xor(c, key, iv, content)[n] == content[n] <==> c.stream(key, iv, n) == 0 {
      SameBits(content[n], c.stream(key, iv, n));
    }
  }

  lemma SameBits(a: bv8, b: bv8)
    ensures a ^ b == a <==> b == 0
  {}
}
