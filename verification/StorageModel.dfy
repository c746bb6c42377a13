/** Rows, disk and the agreement between them: the state behind FileService
    (internal/storage/file_service.go and its repositories). */
module StorageModel {
  import opened Base
  import opened PathStrings
  import opened PhysicalTree

  /** The natural key of a file or folder row. */
  datatype Key = Key(pool: string, owner: string, parent: Path, name: Segment) {
    function Full(): Path {
      parent + [name]
    }
  }

  /** Where an item lives on disk, with the key read back from there. */
  function At(k: Key): (p: Path)
    ensures |p| == |k.parent| + 3 && p[2] == k.Full()[0]
    ensures p == [k.pool, k.owner] + k.Full()
    ensures KeyAt(p) == k
  {
    var p := [k.pool, k.owner] + k.parent + [k.name];
    assert p[2..|p| - 1] == k.parent;
    p
  }

  function KeyAt(p: Path): Key
    requires |p| >= 3
  {
    Key(p[0], p[1], p[2..|p| - 1], p[|p| - 1])
  }

  /** Where version num of a file lives; owner, file and number read back. */
  function VersionAt(k: Key, id: string, num: nat): (p: Path)
    ensures |p| == 5 && p[0] == k.pool && p[1] == k.owner && p[2] == VERSIONS && p[3] == id && Atoi(p[4]) == num
  {
    [k.pool, k.owner, VERSIONS, id, Itoa(num)]
  }

  function StagingAt(pool: string, owner: string, id: string): Path {
    [pool, owner, STAGING, id]
  }

  datatype FileRow = FileRow(key: Key, size: nat, sha: Digest, createdAt: int, updatedAt: int, deletedAt: Option<int>)

  datatype DirRow = DirRow(key: Key, createdAt: int, deletedAt: Option<int>)

  datatype VersionRow = VersionRow(num: nat, size: nat, sha: Digest, key: Path, createdAt: int)

  datatype Env = Env(trashEnabled: bool, versioningEnabled: bool,
                     maxVersions: int, maxAgeDays: int, maxBytes: int,
                     pools: set<string>, defaultPool: string)

  /** The tables, by id, and the disk. A file's versions are kept as the list
      ListVersions answers, highest number first. */
  datatype State = State(files: map<string, FileRow>, dirs: map<string, DirRow>,
                         versions: map<string, seq<VersionRow>>, tree: Tree, clock: int)

  datatype Error =
    | InvalidName | PoolNotFound | NameOccupiedByTrash | DestinationOccupied | InvalidMoveDestination
    | FileNotFound | DirectoryNotFound | VersionNotFound | Forbidden | DirectoryNotEmpty
    | WriteFailed | MoveFailed | MkdirFailed | DeleteFailed | UniqueViolation

  datatype Outcome<+T> = Ok(value: T) | Err(error: Error)

  function History(s: State, id: string): seq<VersionRow> {
    if id in s.versions then s.versions[id] else []
  }

  function NextNum(vs: seq<VersionRow>): nat {
    if vs == [] then 1 else vs[0].num + 1
  }

  function KeysOf(vs: seq<VersionRow>): set<Path> {
    set i | 0 <= i < |vs| :: vs[i].key
  }

  // ----- what the rows promise about each other

  predicate UserPath(full: Path) {
    full != [] && full[0] != STAGING && full[0] != VERSIONS && Canonical(full)
  }

  /** In one of the folders the service keeps for itself. */
  predicate Reserved(k: Key) {
    k.Full()[0] == STAGING || k.Full()[0] == VERSIONS
  }

  /** These are the two. */
  lemma ReservedByName(k: Key)
    ensures Reserved(k) <==> k.Full()[0] in {".nexuscloud-staging", ".nexuscloud-versions"}
  {}

  ghost predicate UserPaths(files: map<string, FileRow>, dirs: map<string, DirRow>) {
    && (forall id | id in files :: UserPath(files[id].key.Full()))
    && (forall id | id in dirs :: UserPath(dirs[id].key.Full()))
  }

  /** UNIQUE (pool_id, owner_id, parent_path, name), for each table. */
  predicate UniqueKeys(files: map<string, FileRow>, dirs: map<string, DirRow>) {
    && (forall i, j | i in files && j in files && files[i].key == files[j].key :: i == j)
    && (forall i, j | i in dirs && j in dirs && dirs[i].key == dirs[j].key :: i == j)
  }

  /** Newer versions carry larger numbers and no earlier times. */
  ghost predicate Ordered(vs: seq<VersionRow>, upTo: int) {
    && (forall i | 0 <= i < |vs| :: vs[i].num >= 1 && vs[i].createdAt <= upTo)
    && (forall i, j | 0 <= i < j < |vs| :: vs[i].num > vs[j].num && vs[i].createdAt >= vs[j].createdAt)
  }

  ghost predicate HistoryOrdered(files: map<string, FileRow>, versions: map<string, seq<VersionRow>>, clock: int) {
    && versions.Keys <= files.Keys
    && (forall id | id in files :: files[id].updatedAt <= clock)
    && (forall id | id in versions :: Ordered(versions[id], files[id].updatedAt))
  }

  // ----- what the disk holds

  ghost predicate RowBacked(t: Tree, f: FileRow) {
    && At(f.key) in t.content
    && t.content[At(f.key)] == f.sha.of
    && f.size == |f.sha.of|
  }

  /** Every file row, active or trashed, has its content at its place. */
  ghost predicate RowsBacked(files: map<string, FileRow>, t: Tree) {
    forall id | id in files :: RowBacked(t, files[id])
  }

  ghost predicate VersionBacked(t: Tree, k: Key, id: string, v: VersionRow) {
    && v.key == VersionAt(k, id, v.num)
    && v.key in t.content
    && t.content[v.key] == v.sha.of
    && v.size == |v.sha.of|
  }

  ghost predicate ListBacked(t: Tree, k: Key, id: string, vs: seq<VersionRow>) {
    forall i | 0 <= i < |vs| :: VersionBacked(t, k, id, vs[i])
  }

  ghost predicate HistoryBacked(files: map<string, FileRow>, versions: map<string, seq<VersionRow>>, t: Tree) {
    && versions.Keys <= files.Keys
    && forall id | id in versions :: ListBacked(t, files[id].key, id, versions[id])
  }

  /** A row accounts for the physical file at p. */
  ghost predicate Recorded(files: map<string, FileRow>, versions: map<string, seq<VersionRow>>, p: Path) {
    || (exists id | id in files :: At(files[id].key) == p)
    || (|p| == 5 && p[3] in versions && p in KeysOf(versions[p[3]]))
  }

  /** No physical file without a row. */
  ghost predicate NothingElse(files: map<string, FileRow>, versions: map<string, seq<VersionRow>>, t: Tree) {
    forall p | p in t.content :: Recorded(files, versions, p)
  }

  /** No folder row sits on a physical file, and an active one is a folder. */
  ghost predicate FoldersSound(dirs: map<string, DirRow>, t: Tree) {
    forall id | id in dirs ::
      && At(dirs[id].key) !in t.content
      && (dirs[id].deletedAt.None? ==> At(dirs[id].key) in t.dirs)
  }

  predicate DirShape(p: Path) {
    |p| >= 3 ==> (p[2] == VERSIONS ==> |p| <= 4) && (p[2] == STAGING ==> |p| <= 3)
  }

  /** The reserved areas hold no folders where versions and uploads go. */
  ghost predicate ReservedShape(t: Tree) {
    forall p | p in t.dirs :: DirShape(p)
  }

  ghost predicate TreeSound(t: Tree) {
    WellFormed(t) && ReservedShape(t)
  }

  /** Every file and every version has its content in its place, and nothing else is on
      disk. */
  ghost predicate Backed(s: State) {
    && RowsBacked(s.files, s.tree)
    && HistoryBacked(s.files, s.versions, s.tree)
    && NothingElse(s.files, s.versions, s.tree)
  }

  /** Database and disk agree. */
  ghost predicate Agreement(s: State) {
    && UserPaths(s.files, s.dirs)
    && UniqueKeys(s.files, s.dirs)
    && HistoryOrdered(s.files, s.versions, s.clock)
    && TreeSound(s.tree)
    && FoldersSound(s.dirs, s.tree)
    && Backed(s)
  }

  // ----- lookups by natural key

  ghost function FindFile(files: map<string, FileRow>, k: Key): Option<string> {
    if exists id | id in files :: files[id].key == k then
      var id :| id in files && files[id].key == k;
      Some(id)
    else None
  }

  ghost function FindDir(dirs: map<string, DirRow>, k: Key): Option<string> {
    if exists id | id in dirs :: dirs[id].key == k then
      var id :| id in dirs && dirs[id].key == k;
      Some(id)
    else None
  }

  predicate TrashOccupies(s: State, k: Key) {
    || (exists id | id in s.files :: s.files[id].key == k && s.files[id].deletedAt.Some?)
    || (exists id | id in s.dirs :: s.dirs[id].key == k && s.dirs[id].deletedAt.Some?)
  }

  ghost predicate Occupied(s: State, k: Key) {
    FindFile(s.files, k).Some? || FindDir(s.dirs, k).Some?
  }

  /** What a refused operation may have done: made folders, nothing else. */
  ghost predicate Rejected(s: State, s': State) {
    && s' == s.(tree := s'.tree)
    && s'.tree.content == s.tree.content
    && s.tree.dirs <= s'.tree.dirs
    && TreeSound(s'.tree)
  }

  predicate Distinct<T(==)>(xs: seq<T>) {
    forall i, j | 0 <= i < j < |xs| :: xs[i] != xs[j]
  }

  // ----- places never meet

  /** An item's place is outside the reserved areas, so it is no version's. */
  lemma UserPlace(k: Key)
    requires UserPath(k.Full())
    ensures At(k)[2] != VERSIONS && At(k)[2] != STAGING
    ensures DirShape(At(k)) && DirShape(Parent(At(k)))
    ensures forall p | p in Prefixes(At(k)) :: DirShape(p)
  {}

  /** No entry of the tree lies below a stored version or above it in the
      reserved area except its two folders. */
  lemma ReservedParent(p: Path)
    requires (|p| == 5 && p[2] == VERSIONS) || (|p| == 4 && p[2] == STAGING)
    requires STAGING != VERSIONS
    ensures forall q | q in Prefixes(Parent(p)) :: DirShape(q)
    ensures !DirShape(p)
  {}

  lemma ReservedNamesDiffer()
    ensures STAGING != VERSIONS
  {}
}
