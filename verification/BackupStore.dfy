/** Where backups live (internal/backup/destination.go, manifest.go): files of a job are
    names for inodes, and an incremental job may share inodes with an older one. The
    encryption is AES in counter mode (section 6.5 of NIST SP 800-38A), taken as an
    exclusive or with a key stream nothing is known about. */
module BackupStore {
  import opened Base
  import opened PathStrings
  import opened StorageModel

  // ----- encryption

  /** Key derivation and key stream, whatever they are. */
  datatype Cipher = Cipher(kdf: (string, Bytes) -> Bytes, stream: (Bytes, Bytes, nat) -> bv8)

  function Xor(c: Cipher, key: Bytes, iv: Bytes, data: Bytes): (r: Bytes)
    ensures |r| == |data|
  {
    seq(|data|, i requires 0 <= i < |data| => data[i] ^ c.stream(key, iv, i))
  }

  /** Decrypting is encrypting again. */
  lemma XorTwice(c: Cipher, key: Bytes, iv: Bytes, data: Bytes)
    ensures Xor(c, key, iv, Xor(c, key, iv, data)) == data
  {}

  /** decryptingReader: without a key the stored bytes are the content. */
  function Plain(c: Cipher, key: Option<Bytes>, iv: Bytes, stored: Bytes): Bytes {
    if key.None? then stored else Xor(c, key.value, iv, stored)
  }

  // ----- manifests

  datatype FileEntry = FileEntry(owner: string, parent: Path, name: Segment, size: nat, sha: Digest, iv: Bytes)

  datatype PoolEntry = PoolEntry(pool: string, name: string, files: seq<FileEntry>)

  datatype Manifest = Manifest(job: string, createdAt: int, pools: seq<PoolEntry>, encrypted: bool, salt: Bytes)

  function KeyIn(pool: string, e: FileEntry): Key {
    Key(pool, e.owner, e.parent, e.name)
  }

  // ----- names and inodes

  /** A file of a job: its manifest, or the copy of one file. */
  datatype Rel = ManifestFile | DataFile(key: Key)

  datatype Place = Place(root: string, job: string, rel: Rel)

  datatype Blob = Raw(bytes: Bytes) | Doc(manifest: Manifest)

  /** The path below the destination's folder, as the text SafeJoin cleans. */
  function TextOf(p: Place): string {
    match p.rel
    case ManifestFile => Join(["/", p.job, "manifest.json"])
    case DataFile(k) => Join(["/", p.job, "data", k.pool, k.owner, Render(k.parent), k.name])
  }

  /** Ids and names are single segments, and the parent is a clean path. */
  predicate CleanPlace(p: Place) {
    && ValidSegment(p.job)
    && match p.rel
       case ManifestFile => true
       case DataFile(k) => ValidSegment(k.pool) && ValidSegment(k.owner) && Canonical(k.parent) && ValidSegment(k.name)
  }

  function SegmentsOf(p: Place): Path {
    match p.rel
    case ManifestFile => [p.job, "manifest.json"]
    case DataFile(k) => [p.job, "data", k.pool, k.owner] + k.parent + [k.name]
  }

  lemma TextIsSegments(p: Place)
    requires CleanPlace(p)
    ensures Canonical(SegmentsOf(p)) && TextOf(p) == Render(SegmentsOf(p))
  {
    match p.rel {
      case ManifestFile =>
        JoinNames([p.job, "manifest.json"]);
        assert ["/"] + [p.job, "manifest.json"] == ["/", p.job, "manifest.json"];
      case DataFile(k) =>
        var top := [p.job, "data", k.pool, k.owner];
        JoinParts(top, k.parent, k.name);
        assert ["/"] + top + [Render(k.parent), k.name]
            == ["/", p.job, "data", k.pool, k.owner, Render(k.parent), k.name];
    }
  }

  /** Different files never share a path on the medium, whatever the folder and file names. */
  lemma PlacesApart(p: Place, q: Place)
    requires p.root == q.root && CleanPlace(p) && CleanPlace(q) && TextOf(p) == TextOf(q)
    ensures p == q
  {
    var a, b := SegmentsOf(p), SegmentsOf(q);
    TextIsSegments(p);
    TextIsSegments(q);
    RenderInjective(a, b);
    assert a[0] == p.job && b[0] == q.job;
    if p.rel.DataFile? && q.rel.DataFile? {
      var k, x := p.rel.key, q.rel.key;
      assert k.pool == a[2] == x.pool && k.owner == a[3] == x.owner;
      assert k.parent == a[4..|a| - 1] == x.parent && k.name == a[|a| - 1] == x.name;
    }
  }

  datatype Disk = Disk(links: map<Place, nat>, blobs: map<nat, Blob>, next: nat)

  ghost predicate Sound(d: Disk) {
    && (forall p | p in d.links :: d.links[p] in d.blobs)
    && (forall i | i in d.blobs :: i < d.next)
  }

  /** Only copies of the same file share an inode. */
  ghost predicate OneFile(d: Disk) {
    forall p, q | p in d.links && q in d.links && d.links[p] == d.links[q] :: p.root == q.root && p.rel == q.rel
  }

  ghost predicate Tidy(d: Disk) {
    Sound(d) && OneFile(d)
  }

  function Read(d: Disk, p: Place): Option<Blob> {
    if p in d.links && d.links[p] in d.blobs then Some(d.blobs[d.links[p]]) else None
  }

  /** Creating truncates: an existing name keeps its inode. */
  function Write(d: Disk, p: Place, x: Blob): Disk {
    if p in d.links then d.(blobs := d.blobs[d.links[p] := x])
    else Disk(d.links[p := d.next], d.blobs[d.next := x], d.next + 1)
  }

  /** Two names for one inode. */
  predicate SameInode(d: Disk, p: Place, q: Place) {
    p in d.links && q in d.links && d.links[p] == d.links[q]
  }

  predicate CanLink(d: Disk, a: Place, b: Place) {
    a in d.links && b !in d.links
  }

  function Linked(d: Disk, a: Place, b: Place): Disk
    requires CanLink(d, a, b)
  {
    d.(links := d.links[b := d.links[a]])
  }

  function Unlinked(d: Disk, p: Place): Disk {
    d.(links := d.links - {p})
  }

  /** What a write puts into the file: less, or something else, when it is cut short. */
  function BytesWritten(stored: Bytes, cut: Option<Bytes>): Bytes {
    if cut.Some? then cut.value else stored
  }

  /** What copying to p leaves: a write cut short leaves no name, as does a copy that does
      not match; but the bytes have gone to the inode. */
  function CopiedTo(d: Disk, p: Place, stored: Bytes, matches: bool, cut: Option<Bytes>): Disk {
    var d' := Write(d, p, Raw(BytesWritten(stored, cut)));
    if cut.Some? || !matches then Unlinked(d', p) else d'
  }

  /** Without the names of some jobs, but for those that cannot be removed. */
  function Swept(d: Disk, root: string, jobs: set<string>, stubborn: set<Place>): Disk {
    d.(links := map p | p in d.links && !(p.root == root && p.job in jobs && p !in stubborn) :: d.links[p])
  }

  /** Writing one name leaves another one's bytes alone exactly when the two do not share
      an inode, or the same bytes are written. */
  lemma WriteSparesIff(d: Disk, p: Place, q: Place, x: Blob)
    requires Sound(d) && p != q
    ensures Read(Write(d, p, x), q) == Read(d, q)
       <==> (SameInode(d, p, q) ==> Read(d, q) == Some(x))
  {}

  /** Nothing outside the job at root is touched: every other name keeps its inode, and
      every other name's inode its bytes. */
  ghost predicate OthersKept(d: Disk, d': Disk, root: string, job: string) {
    forall p: Place | !(p.root == root && p.job == job) :: Read(d', p) == Read(d, p)
  }

  /** localDestination. A write may be cut short, and a link may fail. */
  class LocalDestination {
    var disk: Disk

    constructor ()
      ensures disk == Disk(map[], map[], 0) && Tidy(disk)
    {
      disk := Disk(map[], map[], 0);
    }

    /** A complete write is what the name then holds; a new name touches no other, and a
        failed one is gone. */
    method WriteFile(p: Place, x: Blob, cut: Option<Bytes>) returns (ok: bool)
      modifies this
      ensures ok == cut.None?
      ensures ok ==> Read(disk, p) == Some(x)
      ensures !ok ==> p !in disk.links
      ensures Sound(old(disk)) ==> Sound(disk)
      ensures Sound(old(disk)) && p !in old(disk).links ==> forall q | q != p :: Read(disk, q) == Read(old(disk), q)
      ensures disk == if ok then Write(old(disk), p, x) else Unlinked(Write(old(disk), p, Raw(cut.value)), p)
    {
      var written := if cut.Some? then Raw(cut.value) else x;
      if p in disk.links {
        disk := disk.(blobs := disk.blobs[disk.links[p] := written]);
      } else {
        disk := Disk(disk.links[p := disk.next], disk.blobs[disk.next := written], disk.next + 1);
      }
      if cut.Some? {
        disk := disk.(links := disk.links - {p});
      }
      ok := cut.None?;
    }

    method OpenFile(p: Place) returns (r: Option<Blob>)
      ensures r == Read(disk, p)
    {
      r := Read(disk, p);
    }

    method RemoveFile(p: Place)
      modifies this
      ensures disk == Unlinked(old(disk), p)
    {
      disk := disk.(links := disk.links - {p});
    }

    /** os.RemoveAll removes what it can, and succeeds when nothing is left. No content is
        written, and every other job reads as before. */
    method RemoveJob(root: string, job: string, stubborn: set<Place>) returns (ok: bool)
      modifies this
      ensures disk == Swept(old(disk), root, {job}, stubborn)
      ensures ok <==> forall p | p in disk.links :: !(p.root == root && p.job == job)
      ensures disk.blobs == old(disk).blobs && OthersKept(old(disk), disk, root, job)
    {
      disk := disk.(links := map p | p in disk.links && !(p.root == root && p.job == job && p !in stubborn) ::
                               disk.links[p]);
      ok := forall p | p in disk.links :: !(p.root == root && p.job == job);
    }

    /** A link fails when there is nothing to link or the name is taken; a link made shares
        its inode, so it reads the same, and no other name changes. */
    method Link(a: Place, b: Place, faulty: bool) returns (ok: bool)
      modifies this
      ensures ok == (!faulty && CanLink(old(disk), a, b))
      ensures disk == if ok then Linked(old(disk), a, b) else old(disk)
      ensures ok ==> Read(disk, b) == Read(old(disk), a) && forall q | q != b :: Read(disk, q) == Read(old(disk), q)
    {
      ok := !faulty && a in disk.links && b !in disk.links;
      if ok {
        disk := disk.(links := disk.links[b := disk.links[a]]);
      }
    }
  }
}
