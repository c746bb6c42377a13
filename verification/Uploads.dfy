/** Upload and RestoreVersion: what they do to rows and disk, and when they keep
    the two in agreement (internal/storage/file_service.go). */
module Uploads {
  import opened Base
  import opened PathStrings
  import opened PhysicalTree
  import opened StorageModel
  import opened Content

  datatype UploadInput =
    UploadInput(owner: string, parentPath: string, name: string, source: Source, pool: string, noOverwrite: bool)

  function TargetPool(env: Env, pool: string): string {
    if pool == "" then env.defaultPool else pool
  }

  function UploadKey(env: Env, up: UploadInput): Key {
    Key(TargetPool(env, up.pool), up.owner, CleanSegments(up.parentPath), up.name)
  }

  /** A file can be moved into the place of k. */
  predicate Open(t: Tree, k: Key) {
    At(k) !in t.dirs && !Blocked(t, Parent(At(k)))
  }

  /** Even once the staging folder is there. */
  predicate Enterable(t: Tree, k: Key) {
    Open(t, k) && !(k.parent == [] && k.name == STAGING)
  }

  /** The staging id is new: the path does not name it. */
  predicate FreshStaging(k: Key, stagingId: string) {
    !(StagingAt(k.pool, k.owner, stagingId) <= At(k))
  }

  lemma UnreservedIsFresh(k: Key, stagingId: string)
    requires !Reserved(k)
    ensures FreshStaging(k, stagingId)
  {
    assert At(k)[2] == k.Full()[0];
  }

  ghost function UploadError(env: Env, s: State, up: UploadInput): Option<Error> {
    var k := UploadKey(env, up);
    if !ValidName(up.name) then Some(InvalidName)
    else if k.pool !in env.pools then Some(PoolNotFound)
    else if TrashOccupies(s, k) then Some(NameOccupiedByTrash)
    else if up.noOverwrite && FindFile(s.files, k).Some? then Some(DestinationOccupied)
    else if up.source.Broken? then Some(WriteFailed)
    else if !Enterable(s.tree, k) then Some(MoveFailed)
    else None
  }

  /** The current content leaves its place: into the history when it would be
      lost otherwise and versioning is on. */
  ghost function Displaced(env: Env, s: State, id: string, data: Bytes, now: int): State
    requires id in s.files
  {
    if env.versioningEnabled && s.files[id].sha != Sha256(data) then Snapshot(env, s, id, now) else Drop(s, id)
  }

  function UploadFolders(k: Key, stagingId: string): set<Path> {
    Prefixes(Parent(StagingAt(k.pool, k.owner, stagingId))) + Prefixes(Parent(At(k)))
  }

  /** The state after data has been stored under k. */
  ghost function Stored(env: Env, s: State, k: Key, data: Bytes, newId: string, stagingId: string, now: int): State {
    var g := Grow(s, UploadFolders(k, stagingId));
    match FindFile(s.files, k)
    case None => Place(g, newId, FileRow(k, |data|, Sha256(data), now, now, None), now)
    case Some(id) => Place(Displaced(env, g, id, data, now), id, Renewed(s.files[id], data, now), now)
  }

  ghost function Uploaded(env: Env, s: State, up: UploadInput, newId: string, stagingId: string, now: int): State
    requires up.source.Complete?
  {
    Stored(env, s, UploadKey(env, up), up.source.data, newId, stagingId, now)
  }

  // ----- agreement

  lemma RejectedKeeps(s: State, s': State)
    requires Agreement(s) && Rejected(s, s')
    ensures Agreement(s')
  {}

  lemma UploadFoldersShape(k: Key, stagingId: string)
    requires UserPath(k.Full())
    ensures forall p | p in UploadFolders(k, stagingId) :: DirShape(p) && p != At(k)
  {}

  lemma UploadFoldersSound(s: State, k: Key, stagingId: string)
    requires Agreement(s) && UserPath(k.Full()) && Open(s.tree, k)
    ensures TreeSound(Grow(s, UploadFolders(k, stagingId)).tree)
    ensures Open(Grow(s, UploadFolders(k, stagingId)).tree, k)
    ensures Parent(At(k)) in Grow(s, UploadFolders(k, stagingId)).tree.dirs
  {
    var staging := StagingAt(k.pool, k.owner, stagingId);
    ReservedOpen(s, staging);
    UploadFoldersShape(k, stagingId);
    AddTwoSound(s.tree, Parent(staging), Parent(At(k)));
  }

  lemma AddTwoSound(t: Tree, p: Path, q: Path)
    requires TreeSound(t) && !Blocked(t, p) && !Blocked(t, q)
    requires forall d | d in Prefixes(p) + Prefixes(q) :: DirShape(d)
    ensures var t' := t.(dirs := t.dirs + (Prefixes(p) + Prefixes(q)));
            TreeSound(t') && q in t'.dirs && !Blocked(t', q)
  {
    AddDirsWellFormed(t, p);
    AddDirsWellFormed(AddDirs(t, p), q);
    assert AddDirs(AddDirs(t, p), q).dirs == t.dirs + (Prefixes(p) + Prefixes(q));
  }

  /** Without a row, nothing stands at a user's place. */
  lemma NoStray(s: State, k: Key)
    requires Agreement(s) && UserPath(k.Full()) && FindFile(s.files, k).None?
    ensures At(k) !in s.tree.content
  {}

  lemma NewPlaceReady(s: State, k: Key, id: string)
    requires Agreement(s) && UserPath(k.Full()) && FindFile(s.files, k).None? && id !in s.files
    requires !TrashOccupies(s, k) && Open(s.tree, k) && Parent(At(k)) in s.tree.dirs
    ensures Vacated(s, id, k)
  {
    NoStray(s, k);
    forall d | d in s.dirs ensures s.dirs[d].key != k {
      assert At(s.dirs[d].key) !in s.tree.content;
    }
  }

  lemma DisplacedVacates(env: Env, s: State, id: string, data: Bytes, now: int)
    requires Agreement(s) && id in s.files
    ensures Vacated(Displaced(env, s, id, data, now), id, s.files[id].key)
  {
    if env.versioningEnabled && s.files[id].sha != Sha256(data) {
      SnapshotVacates(env, s, id, now);
    } else {
      DropVacates(s, id);
    }
  }

  lemma NewFileKeeps(g: State, k: Key, data: Bytes, newId: string, now: int)
    requires Agreement(g) && UserPath(k.Full()) && FindFile(g.files, k).None? && newId !in g.files && g.clock <= now
    requires !TrashOccupies(g, k) && Open(g.tree, k) && Parent(At(k)) in g.tree.dirs
    ensures Agreement(Place(g, newId, FileRow(k, |data|, Sha256(data), now, now, None), now))
  {
    NewPlaceReady(g, k, newId);
    PlaceKeeps(g, newId, FileRow(k, |data|, Sha256(data), now, now, None), now);
  }

  lemma OldFileKeeps(env: Env, g: State, id: string, data: Bytes, now: int)
    requires Agreement(g) && id in g.files && g.clock <= now
    ensures Agreement(Place(Displaced(env, g, id, data, now), id, Renewed(g.files[id], data, now), now))
  {
    DisplacedVacates(env, g, id, data, now);
    PlaceKeeps(Displaced(env, g, id, data, now), id, Renewed(g.files[id], data, now), now);
  }

  lemma GrownForUpload(s: State, k: Key, stagingId: string)
    requires Agreement(s) && UserPath(k.Full()) && Open(s.tree, k)
    ensures var g := Grow(s, UploadFolders(k, stagingId));
            Agreement(g) && Open(g.tree, k) && Parent(At(k)) in g.tree.dirs
  {
    UploadFoldersSound(s, k, stagingId);
    UploadFoldersShape(k, stagingId);
    GrowKeeps(s, UploadFolders(k, stagingId));
  }

  /** Upload outside the reserved areas keeps rows and disk in agreement. */
  lemma UploadKeeps(env: Env, s: State, up: UploadInput, newId: string, stagingId: string, now: int)
    requires Agreement(s) && s.clock <= now && newId !in s.files
    requires UserPath(UploadKey(env, up).Full())
    requires UploadError(env, s, up).None?
    ensures Agreement(Uploaded(env, s, up, newId, stagingId, now))
  {
    var k, data := UploadKey(env, up), up.source.data;
    var g := Grow(s, UploadFolders(k, stagingId));
    GrownForUpload(s, k, stagingId);
    match FindFile(s.files, k) {
      case None => NewFileKeeps(g, k, data, newId, now);
      case Some(id) => OldFileKeeps(env, g, id, data, now);
    }
  }

  // ----- restoring a version

  ghost predicate HasVersion(s: State, id: string, num: nat) {
    exists j | 0 <= j < |History(s, id)| :: History(s, id)[j].num == num
  }

  /** The position of version num in the history. */
  ghost function IndexOf(s: State, id: string, num: nat): (j: nat)
    requires HasVersion(s, id, num)
    ensures j < |History(s, id)| && History(s, id)[j].num == num
  {
    var j :| 0 <= j < |History(s, id)| && History(s, id)[j].num == num;
    j
  }

  /** The snapshot RestoreVersion takes first does not prune the version asked
      for. A caller can tell beforehand: it is the history's limits that decide. */
  ghost predicate Survives(env: Env, s: State, id: string, num: nat, now: int)
    requires id in s.files && HasVersion(s, id, num)
  {
    env.versioningEnabled ==> IndexOf(s, id, num) + 1 < Kept(env, s, id, now)
  }

  ghost function RestoreError(env: Env, s: State, requester: string, id: string, num: nat, now: int): Option<Error> {
    if id !in s.files then Some(FileNotFound)
    else if s.files[id].key.owner != requester then Some(Forbidden)
    else if !HasVersion(s, id, num) then Some(VersionNotFound)
    else if !Survives(env, s, id, num, now) then Some(MoveFailed)
    else None
  }

  /** The state after the j-th version has been restored. */
  ghost function BroughtBack(env: Env, s: State, id: string, j: nat, now: int): State
    requires id in s.files && j < |History(s, id)| && (env.versioningEnabled ==> j + 1 < Kept(env, s, id, now))
  {
    var row := Renewed(s.files[id], History(s, id)[j].sha.of, now);
    if env.versioningEnabled then Place(Take(Snapshot(env, s, id, now), id, j + 1), id, row, now)
    else Place(Take(Drop(s, id), id, j), id, row, now)
  }

  ghost function VersionRestored(env: Env, s: State, id: string, num: nat, now: int): State
    requires id in s.files && HasVersion(s, id, num) && Survives(env, s, id, num, now)
  {
    BroughtBack(env, s, id, IndexOf(s, id, num), now)
  }

  /** RestoreVersion from any state, the failing case included: there the
      snapshot has been taken and the file is left without content. */
  ghost predicate RestoreStep(env: Env, s: State, requester: string, id: string, num: nat, now: int, s': State) {
    match RestoreError(env, s, requester, id, num, now)
    case None => s' == VersionRestored(env, s, id, num, now)
    case Some(MoveFailed) => s' == Snapshot(env, s, id, now)
    case Some(_) => s' == s
  }

  lemma TakenBackKeeps(s: State, id: string, f: FileRow, j: nat, data: Bytes, now: int)
    requires id in s.files && s.files[id] == f && f.updatedAt <= now && s.clock <= now
    requires j < |History(s, id)| && Vacated(s, id, f.key)
    ensures Agreement(Place(Take(s, id, j), id, Renewed(f, data, now), now))
  {
    TakeKeepsVacated(s, id, f.key, j);
    PlaceKeeps(Take(s, id, j), id, Renewed(f, data, now), now);
  }

  lemma BroughtBackKeeps(env: Env, s: State, id: string, j: nat, now: int)
    requires Agreement(s) && s.clock <= now && id in s.files && j < |History(s, id)|
    requires env.versioningEnabled ==> j + 1 < Kept(env, s, id, now)
    ensures Agreement(BroughtBack(env, s, id, j, now))
  {
    if env.versioningEnabled {
      var x := Snapshot(env, s, id, now);
      SnapshotVacates(env, s, id, now);
      SnapshotLeaves(env, s, id, j, now);
      TakenBackKeeps(x, id, s.files[id], j + 1, History(s, id)[j].sha.of, now);
    } else {
      DropVacates(s, id);
      TakenBackKeeps(Drop(s, id), id, s.files[id], j, History(s, id)[j].sha.of, now);
    }
  }

  /** The j-th version is the next one down after a snapshot that keeps it. */
  lemma SnapshotLeaves(env: Env, s: State, id: string, j: nat, now: int)
    requires id in s.files && j < |History(s, id)| && j + 1 < Kept(env, s, id, now)
    ensures var x := Snapshot(env, s, id, now);
            && x.files == s.files && x.clock == s.clock && j + 1 < |History(x, id)|
            && History(x, id)[j + 1] == History(s, id)[j]
  {}

  lemma RestoreKeeps(env: Env, s: State, id: string, num: nat, now: int)
    requires Agreement(s) && s.clock <= now
    requires id in s.files && HasVersion(s, id, num) && Survives(env, s, id, num, now)
    ensures Agreement(VersionRestored(env, s, id, num, now))
  {
    BroughtBackKeeps(env, s, id, IndexOf(s, id, num), now);
  }

  /** With a limit of one version per file, restoring never works: the snapshot
      pushes out whatever could be asked for. */
  lemma OneVersionNeverSurvives(env: Env, s: State, id: string, num: nat, now: int)
    requires env.versioningEnabled && env.maxVersions == 1
    requires id in s.files && HasVersion(s, id, num)
    ensures !Survives(env, s, id, num, now)
  {}

  /** RestoreVersion keeps the agreement exactly when its own snapshot leaves the
      requested version in the history. */
  lemma RestoreKeepsIffSurvives(env: Env, s: State, requester: string, id: string, num: nat, now: int, s': State)
    requires Agreement(s) && s.clock <= now
    requires RestoreStep(env, s, requester, id, num, now, s')
    requires id in s.files && s.files[id].key.owner == requester && HasVersion(s, id, num)
    ensures Agreement(s') <==> Survives(env, s, id, num, now)
    ensures RowsBacked(s'.files, s'.tree) <==> Survives(env, s, id, num, now)
  {
    if Survives(env, s, id, num, now) {
      RestoreKeeps(env, s, id, num, now);
    } else {
      SnapshotVacates(env, s, id, now);
      assert !RowBacked(s'.tree, s'.files[id]);
    }
  }
}
