/** What a run of the backup manager does to the medium, the files of other jobs included:
    a pool asked for twice is copied over itself, and a file that was linked the first time
    is written through the inode it shares with an older job
    (internal/backup/manager.go, destination.go). */
module BackupCopies {
  import opened Base
  import opened StorageModel
  import opened BackupStore
  import opened BackupHistory

  predicate OfJob(q: Place, root: string, job: string) {
    q.root == root && q.job == job
  }

  function StoredAs(c: Cipher, key: Option<Bytes>, iv: Bytes, content: Bytes): Bytes {
    if key.None? then content else Xor(c, key.value, iv, content)
  }

  function CopyPlace(root: string, job: string, k: Key): Place {
    Place(root, job, DataFile(k))
  }

  // ----- one file

  /** The medium after one file: linked when its name is free and the plan allows, else
      copied if it can be read. */
  function AfterFile(c: Cipher, d: Disk, root: string, job: string, row: FileRow, plan: LinkPlan, key: Option<Bytes>,
                     iv: Bytes, got: Option<Bytes>, cut: Option<Bytes>): Disk {
    var p := CopyPlace(root, job, row.key);
    if p !in d.links && Links(d, plan, row.key, row.sha) then Linked(d, LinkedFrom(plan, row.key), p)
    else if got.None? then d
    else CopiedTo(d, p, StoredAs(c, key, iv, got.value), Sha256(got.value) == row.sha, cut)
  }

  predicate FileGoes(d: Disk, root: string, job: string, row: FileRow, plan: LinkPlan, got: Option<Bytes>,
                     cut: Option<Bytes>) {
    || (CopyPlace(root, job, row.key) !in d.links && Links(d, plan, row.key, row.sha))
    || (got.Some? && Sha256(got.value) == row.sha && cut.None?)
  }

  // ----- the names of other jobs

  /** What has been written through inodes of an older job, by file. */
  type Rewrites = map<Key, Bytes>

  predicate Hits(d0: Disk, plan: LinkPlan, w: Rewrites, q: Place) {
    q.rel.DataFile? && q.rel.key in w && SameInode(d0, q, LinkedFrom(plan, q.rel.key))
  }

  /** Every name outside the job reads as it did, but for those written through. */
  ghost predicate OthersRewritten(d0: Disk, d: Disk, root: string, job: string, plan: LinkPlan, w: Rewrites) {
    forall q: Place | !OfJob(q, root, job) ::
      Read(d, q) == if Hits(d0, plan, w, q) then Some(Raw(w[q.rel.key])) else Read(d0, q)
  }

  /** Writing through left the older copies as they were. */
  ghost predicate RewritesSpare(d0: Disk, plan: LinkPlan, w: Rewrites) {
    forall k | k in w :: Read(d0, LinkedFrom(plan, k)) == Some(Raw(w[k]))
  }

  /** No other job reads differently exactly when everything written through was there. */
  lemma OthersKeptIff(d0: Disk, d: Disk, root: string, job: string, plan: LinkPlan, w: Rewrites)
    requires OthersRewritten(d0, d, root, job, plan, w) && plan.job != job
    requires forall k | k in w :: LinkedFrom(plan, k) in d0.links
    ensures OthersKept(d0, d, root, job) <==> RewritesSpare(d0, plan, w)
  {
    if OthersKept(d0, d, root, job) {
      forall k | k in w ensures Read(d0, LinkedFrom(plan, k)) == Some(Raw(w[k])) {
        var q := LinkedFrom(plan, k);
        assert !OfJob(q, root, job) && Hits(d0, plan, w, q);
      }
    }
  }

  // ----- where a run stands

  predicate FromPlan(d0: Disk, plan: LinkPlan, k: Key, inode: nat) {
    LinkedFrom(plan, k) in d0.links && d0.links[LinkedFrom(plan, k)] == inode
  }

  /** Names outside the job are those of d0; the job has only copies, in inodes of its own or
      of the job planned on. */
  ghost predicate LinksSound(d0: Disk, d: Disk, root: string, job: string, plan: LinkPlan) {
    && Tidy(d) && d0.next <= d.next
    && (forall q: Place | !OfJob(q, root, job) ::
          (q in d.links <==> q in d0.links) && (q in d0.links ==> d.links[q] == d0.links[q]))
    && (forall q: Place | OfJob(q, root, job) && q in d.links ::
          q.rel.DataFile? && (d.links[q] >= d0.next || FromPlan(d0, plan, q.rel.key, d.links[q])))
  }

  ghost predicate Traced(d0: Disk, d: Disk, root: string, job: string, plan: LinkPlan, w: Rewrites) {
    && LinksSound(d0, d, root, job, plan) && OthersRewritten(d0, d, root, job, plan, w)
    && (forall k | k in w :: LinkedFrom(plan, k) in d0.links)
  }

  lemma TracedBegins(d0: Disk, root: string, job: string, plan: LinkPlan)
    requires Tidy(d0) && forall q | q in d0.links :: q.job != job
    ensures Traced(d0, d0, root, job, plan, map[])
  {}

  /** The copy stands, in the shared inode if and only if the run links this file. */
  ghost predicate Placed(d0: Disk, d: Disk, root: string, job: string, plan: LinkPlan, row: FileRow) {
    var p := CopyPlace(root, job, row.key);
    p in d.links && (FromPlan(d0, plan, row.key, d.links[p]) <==> Links(d0, plan, row.key, row.sha))
  }

  /** No other name of the job is touched. */
  ghost predicate JobKeptBut(d: Disk, d': Disk, root: string, job: string, p: Place) {
    forall q: Place | OfJob(q, root, job) && q != p ::
      (q in d'.links <==> q in d.links) && (q in d.links ==> d'.links[q] == d.links[q]) && Read(d', q) == Read(d, q)
  }

  /** What has been written through after this file. */
  function RewritesAfter(d0: Disk, plan: LinkPlan, row: FileRow, got: Option<Bytes>, cut: Option<Bytes>, again: bool,
                         w: Rewrites): Rewrites {
    if again && got.Some? && Links(d0, plan, row.key, row.sha) then w[row.key := BytesWritten(got.value, cut)] else w
  }

  lemma LinksAsBefore(d0: Disk, d: Disk, root: string, job: string, plan: LinkPlan, k: Key, sha: Digest)
    requires Sound(d0) && LinksSound(d0, d, root, job, plan) && plan.job != job
    ensures Links(d, plan, k, sha) <==> Links(d0, plan, k, sha)
  {}

  lemma LinkIsTraced(d0: Disk, d: Disk, root: string, job: string, plan: LinkPlan, w: Rewrites, k: Key)
    requires Tidy(d0) && Traced(d0, d, root, job, plan, w) && plan.job != job && plan.root == root
    requires CanLink(d, LinkedFrom(plan, k), CopyPlace(root, job, k))
    ensures var p := CopyPlace(root, job, k);
            var d' := Linked(d, LinkedFrom(plan, k), p);
            Traced(d0, d', root, job, plan, w) && FromPlan(d0, plan, k, d'.links[p]) && JobKeptBut(d, d', root, job, p)
  {
    var p := CopyPlace(root, job, k);
    LinkIsSound(d0, d, root, job, plan, k);
    ReadsElsewhere(d0, d, Linked(d, LinkedFrom(plan, k), p), root, job, plan, w, p);
  }

  lemma LinkIsSound(d0: Disk, d: Disk, root: string, job: string, plan: LinkPlan, k: Key)
    requires Tidy(d0) && LinksSound(d0, d, root, job, plan) && plan.job != job && plan.root == root
    requires CanLink(d, LinkedFrom(plan, k), CopyPlace(root, job, k))
    ensures LinksSound(d0, Linked(d, LinkedFrom(plan, k), CopyPlace(root, job, k)), root, job, plan)
    ensures FromPlan(d0, plan, k, d.links[LinkedFrom(plan, k)])
  {
    assert !OfJob(LinkedFrom(plan, k), root, job);
  }

  /** When no name but p reads differently, what other jobs hold is as before. */
  lemma ReadsElsewhere(d0: Disk, d: Disk, d': Disk, root: string, job: string, plan: LinkPlan, w: Rewrites, p: Place)
    requires OthersRewritten(d0, d, root, job, plan, w) && OfJob(p, root, job)
    requires forall q: Place | q != p :: Read(d', q) == Read(d, q)
    ensures OthersRewritten(d0, d', root, job, plan, w)
  {}

  lemma NewCopyIsTraced(d0: Disk, d: Disk, root: string, job: string, plan: LinkPlan, w: Rewrites, k: Key, x: Bytes)
    requires Tidy(d0) && Traced(d0, d, root, job, plan, w) && CopyPlace(root, job, k) !in d.links
    ensures var p := CopyPlace(root, job, k);
            var d' := Write(d, p, Raw(x));
            Traced(d0, d', root, job, plan, w) && !FromPlan(d0, plan, k, d'.links[p]) && JobKeptBut(d, d', root, job, p)
  {
    var p := CopyPlace(root, job, k);
    NewNameIsSound(d0, d, root, job, plan, k, x);
    ReadsElsewhere(d0, d, Write(d, p, Raw(x)), root, job, plan, w, p);
  }

  lemma NewNameIsSound(d0: Disk, d: Disk, root: string, job: string, plan: LinkPlan, k: Key, x: Bytes)
    requires Sound(d0) && LinksSound(d0, d, root, job, plan) && CopyPlace(root, job, k) !in d.links
    ensures LinksSound(d0, Write(d, CopyPlace(root, job, k), Raw(x)), root, job, plan)
  {}

  lemma UnlinkIsTraced(d0: Disk, d: Disk, root: string, job: string, plan: LinkPlan, w: Rewrites, k: Key)
    requires Traced(d0, d, root, job, plan, w)
    ensures var p := CopyPlace(root, job, k);
            Traced(d0, Unlinked(d, p), root, job, plan, w) && JobKeptBut(d, Unlinked(d, p), root, job, p)
  {
    var p := CopyPlace(root, job, k);
    UnlinkIsSound(d0, d, root, job, plan, p);
    ReadsElsewhere(d0, d, Unlinked(d, p), root, job, plan, w, p);
  }

  lemma UnlinkIsSound(d0: Disk, d: Disk, root: string, job: string, plan: LinkPlan, p: Place)
    requires LinksSound(d0, d, root, job, plan) && OfJob(p, root, job)
    ensures LinksSound(d0, Unlinked(d, p), root, job, plan)
  {}

  /** Over a copy of its own. */
  lemma OwnCopyIsTraced(d0: Disk, d: Disk, root: string, job: string, plan: LinkPlan, w: Rewrites, k: Key, x: Bytes)
    requires Tidy(d0) && Traced(d0, d, root, job, plan, w) && CopyPlace(root, job, k) in d.links
    requires !FromPlan(d0, plan, k, d.links[CopyPlace(root, job, k)])
    ensures var p := CopyPlace(root, job, k);
            var d' := Write(d, p, Raw(x));
            Traced(d0, d', root, job, plan, w) && JobKeptBut(d, d', root, job, p)
  {}

  /** Over a copy shared with the older job. */
  lemma SharedCopyIsTraced(d0: Disk, d: Disk, root: string, job: string, plan: LinkPlan, w: Rewrites, k: Key, x: Bytes)
    requires Tidy(d0) && Traced(d0, d, root, job, plan, w) && CopyPlace(root, job, k) in d.links && plan.job != job
    requires FromPlan(d0, plan, k, d.links[CopyPlace(root, job, k)])
    ensures var p := CopyPlace(root, job, k);
            var d' := Write(d, p, Raw(x));
            Traced(d0, d', root, job, plan, w[k := x]) && JobKeptBut(d, d', root, job, p)
  {
    var p := CopyPlace(root, job, k);
    var d' := Write(d, p, Raw(x));
    OldNameIsSound(d0, d, root, job, plan, p, Raw(x));
    forall q: Place | !OfJob(q, root, job)
      ensures Read(d', q) == if Hits(d0, plan, w[k := x], q) then Some(Raw(w[k := x][q.rel.key])) else Read(d0, q)
    {
      SharedCopyReads(d0, d, root, job, plan, w, k, x, q);
    }
  }

  lemma OldNameIsSound(d0: Disk, d: Disk, root: string, job: string, plan: LinkPlan, p: Place, x: Blob)
    requires LinksSound(d0, d, root, job, plan) && p in d.links && OfJob(p, root, job)
    ensures LinksSound(d0, Write(d, p, x), root, job, plan)
    ensures JobKeptBut(d, Write(d, p, x), root, job, p)
  {}

  lemma SharedCopyReads(d0: Disk, d: Disk, root: string, job: string, plan: LinkPlan, w: Rewrites, k: Key, x: Bytes,
                        q: Place)
    requires Tidy(d0) && Traced(d0, d, root, job, plan, w) && CopyPlace(root, job, k) in d.links && plan.job != job
    requires FromPlan(d0, plan, k, d.links[CopyPlace(root, job, k)]) && !OfJob(q, root, job)
    ensures Read(Write(d, CopyPlace(root, job, k), Raw(x)), q)
         == if Hits(d0, plan, w[k := x], q) then Some(Raw(w[k := x][q.rel.key])) else Read(d0, q)
  {}

  /** One file, for the first time or again. */
  lemma FileIsTraced(c: Cipher, d0: Disk, d: Disk, root: string, job: string, row: FileRow, plan: LinkPlan,
                     key: Option<Bytes>, iv: Bytes, got: Option<Bytes>, cut: Option<Bytes>, again: bool, w: Rewrites)
    requires Tidy(d0) && Traced(d0, d, root, job, plan, w) && plan.job != job && plan.root == root
    requires key.Some? ==> plan.digests == map[]
    requires if again then Placed(d0, d, root, job, plan, row) else CopyPlace(root, job, row.key) !in d.links
    ensures var d' := AfterFile(c, d, root, job, row, plan, key, iv, got, cut);
            && Traced(d0, d', root, job, plan, RewritesAfter(d0, plan, row, got, cut, again, w))
            && JobKeptBut(d, d', root, job, CopyPlace(root, job, row.key))
            && (FileGoes(d, root, job, row, plan, got, cut) ==> Placed(d0, d', root, job, plan, row))
  {
    LinksAsBefore(d0, d, root, job, plan, row.key, row.sha);
    if !again && Links(d, plan, row.key, row.sha) {
      LinkIsTraced(d0, d, root, job, plan, w, row.key);
    } else if got.Some? {
      WriteIsTraced(c, d0, d, root, job, row, plan, key, iv, got.value, cut, again, w);
    }
  }

  /** A file that is not linked now. */
  lemma WriteIsTraced(c: Cipher, d0: Disk, d: Disk, root: string, job: string, row: FileRow, plan: LinkPlan,
                      key: Option<Bytes>, iv: Bytes, got: Bytes, cut: Option<Bytes>, again: bool, w: Rewrites)
    requires Tidy(d0) && Traced(d0, d, root, job, plan, w) && plan.job != job && plan.root == root
    requires key.Some? ==> plan.digests == map[]
    requires if again then Placed(d0, d, root, job, plan, row) else CopyPlace(root, job, row.key) !in d.links
    requires !again ==> !Links(d0, plan, row.key, row.sha)
    ensures var p := CopyPlace(root, job, row.key);
            var d' := CopiedTo(d, p, StoredAs(c, key, iv, got), Sha256(got) == row.sha, cut);
            && Traced(d0, d', root, job, plan, RewritesAfter(d0, plan, row, Some(got), cut, again, w))
            && JobKeptBut(d, d', root, job, p)
            && (Sha256(got) == row.sha && cut.None? ==> Placed(d0, d', root, job, plan, row))
  {
    var k, p := row.key, CopyPlace(root, job, row.key);
    var x := BytesWritten(StoredAs(c, key, iv, got), cut);
    if !again {
      NewCopyIsTraced(d0, d, root, job, plan, w, k, x);
    } else if Links(d0, plan, k, row.sha) {
      SharedCopyIsTraced(d0, d, root, job, plan, w, k, x);
    } else {
      OwnCopyIsTraced(d0, d, root, job, plan, w, k, x);
    }
    var w' := RewritesAfter(d0, plan, row, Some(got), cut, again, w);
    UnlinkIsTraced(d0, Write(d, p, Raw(x)), root, job, plan, w', k);
  }

  /** What the name of a file holds after it. A file that was linked was not yet written
      through when its pool came first. */
  lemma FileHolds(c: Cipher, d0: Disk, d: Disk, root: string, job: string, row: FileRow, plan: LinkPlan,
                  key: Option<Bytes>, iv: Bytes, got: Option<Bytes>, cut: Option<Bytes>, again: bool, w: Rewrites)
    requires Tidy(d0) && Traced(d0, d, root, job, plan, w) && plan.job != job && plan.root == root
    requires if again then Placed(d0, d, root, job, plan, row) else CopyPlace(root, job, row.key) !in d.links
    requires !again ==> row.key !in w
    requires FileGoes(d, root, job, row, plan, got, cut)
    ensures var p := CopyPlace(root, job, row.key);
            Read(AfterFile(c, d, root, job, row, plan, key, iv, got, cut), p)
            == if !again && Links(d0, plan, row.key, row.sha) then Read(d0, LinkedFrom(plan, row.key))
               else Some(Raw(StoredAs(c, key, iv, row.sha.of)))
  {
    LinksAsBefore(d0, d, root, job, plan, row.key, row.sha);
    var q := LinkedFrom(plan, row.key);
    assert !OfJob(q, root, job);
  }
}
