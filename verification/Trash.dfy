/** Folders, trash and purge (internal/storage/file_service.go): Mkdir, the delete
    and restore operations, PurgeExpiredTrash. */
module Trash {
  import opened Base
  import opened PathStrings
  import opened PhysicalTree
  import opened StorageModel
  import opened Content
  import opened Uploads

  // ----- marks

  function MarkFile(s: State, id: string, deletedAt: Option<int>): State
    requires id in s.files
  {
    s.(files := s.files[id := s.files[id].(deletedAt := deletedAt)])
  }

  function MarkDir(s: State, id: string, deletedAt: Option<int>): State
    requires id in s.dirs
  {
    s.(dirs := s.dirs[id := s.dirs[id].(deletedAt := deletedAt)])
  }

  lemma MarkFileKeeps(s: State, id: string, deletedAt: Option<int>)
    requires Agreement(s) && id in s.files
    ensures Agreement(MarkFile(s, id, deletedAt))
  {
    MarkHistory(s, id, deletedAt);
    MarkBacked(s, id, deletedAt);
    MarkRows(s, id, deletedAt);
  }

  lemma MarkHistory(s: State, id: string, deletedAt: Option<int>)
    requires HistoryBacked(s.files, s.versions, s.tree) && NothingElse(s.files, s.versions, s.tree) && id in s.files
    ensures var files' := MarkFile(s, id, deletedAt).files;
            HistoryBacked(files', s.versions, s.tree) && NothingElse(files', s.versions, s.tree)
  {
    var files' := MarkFile(s, id, deletedAt).files;
    SameHomes(s.files, files', s.versions, s.tree);
    MarkRecords(s.files, files', s.versions, s.tree);
  }

  lemma MarkRows(s: State, id: string, deletedAt: Option<int>)
    requires UserPaths(s.files, s.dirs) && UniqueKeys(s.files, s.dirs) && HistoryOrdered(s.files, s.versions, s.clock)
    requires id in s.files
    ensures var files' := MarkFile(s, id, deletedAt).files;
            UserPaths(files', s.dirs) && UniqueKeys(files', s.dirs) && HistoryOrdered(files', s.versions, s.clock)
  {}

  lemma MarkBacked(s: State, id: string, deletedAt: Option<int>)
    requires RowsBacked(s.files, s.tree) && id in s.files
    ensures RowsBacked(MarkFile(s, id, deletedAt).files, s.tree)
  {}

  lemma MarkRecords(files: map<string, FileRow>, files': map<string, FileRow>,
                    versions: map<string, seq<VersionRow>>, t: Tree)
    requires NothingElse(files, versions, t) && files.Keys == files'.Keys
    requires forall j | j in files :: files'[j].key == files[j].key
    ensures NothingElse(files', versions, t)
  {}

  // ----- folders

  function MkdirKey(env: Env, owner: string, parentPath: string, name: string, pool: string): Key {
    Key(TargetPool(env, pool), owner, CleanSegments(parentPath), name)
  }

  ghost function MkdirError(env: Env, s: State, k: Key): Option<Error> {
    if !ValidName(k.name) then Some(InvalidName)
    else if k.pool !in env.pools then Some(PoolNotFound)
    else if TrashOccupies(s, k) then Some(NameOccupiedByTrash)
    else if Blocked(s.tree, At(k)) then Some(MkdirFailed)
    else None
  }

  /** The folder exists on disk and has a row: its old one, or a new one. */
  ghost function FolderMade(s: State, k: Key, newId: string, now: int): State {
    s.(dirs := if FindDir(s.dirs, k).Some? then s.dirs else s.dirs[newId := DirRow(k, now, None)],
       tree := AddDirs(s.tree, At(k)), clock := now)
  }

  lemma MkdirKeeps(env: Env, s: State, k: Key, newId: string, now: int)
    requires Agreement(s) && s.clock <= now && UserPath(k.Full()) && newId !in s.dirs
    requires !Blocked(s.tree, At(k))
    ensures Agreement(FolderMade(s, k, newId, now))
  {
    UserPlace(k);
    AddDirsWellFormed(s.tree, At(k));
    GrowKeeps(s, Prefixes(At(k)));
    var g := Grow(s, Prefixes(At(k)));
    assert g.tree == AddDirs(s.tree, At(k));
    NewFolderKeeps(g, k, newId, now);
  }

  lemma NewFolderKeeps(g: State, k: Key, newId: string, now: int)
    requires Agreement(g) && g.clock <= now && UserPath(k.Full()) && newId !in g.dirs
    requires At(k) in g.tree.dirs
    ensures Agreement(g.(dirs := if FindDir(g.dirs, k).Some? then g.dirs else g.dirs[newId := DirRow(k, now, None)],
                         clock := now))
  {}

  predicate ActiveFileIn(f: FileRow, owner: string, path: Path) {
    f.key.owner == owner && f.key.parent == path && f.deletedAt.None?
  }

  predicate ActiveDirIn(d: DirRow, owner: string, path: Path) {
    d.key.owner == owner && d.key.parent == path && d.deletedAt.None?
  }

  /** The folder lists something. */
  predicate HasActiveItems(s: State, owner: string, path: Path) {
    || (exists j | j in s.files :: ActiveFileIn(s.files[j], owner, path))
    || (exists j | j in s.dirs :: ActiveDirIn(s.dirs[j], owner, path))
  }

  function DeleteDirectoryError(env: Env, s: State, requester: string, id: string): Option<Error> {
    if id !in s.dirs then Some(DirectoryNotFound)
    else
      var k := s.dirs[id].key;
      if k.owner != requester then Some(Forbidden)
      else if HasActiveItems(s, requester, k.Full()) then Some(DirectoryNotEmpty)
      else if !env.trashEnabled then RemovalError(s, id)
      else if DeleteOutcome(s.tree, At(k)).Unreachable? then Some(DeleteFailed)
      else None
  }

  /** permanentlyDeleteDirectory: a folder in the trash may still hold trashed
      files on disk; any other trouble stops the removal. */
  function RemovalError(s: State, id: string): Option<Error>
    requires id in s.dirs
  {
    match DeleteOutcome(s.tree, At(s.dirs[id].key))
    case Deleted => None
    case NotEmpty => if s.dirs[id].deletedAt.Some? then None else Some(DeleteFailed)
    case Unreachable => Some(DeleteFailed)
  }

  function FolderDeleted(env: Env, s: State, id: string, now: int): State
    requires id in s.dirs
  {
    if env.trashEnabled then
      MarkDir(s, id, Some(now)).(tree := AfterDelete(s.tree, At(s.dirs[id].key)), clock := now)
    else FolderRemoved(s, id)
  }

  function FolderRemoved(s: State, id: string): State
    requires id in s.dirs
  {
    s.(dirs := s.dirs - {id}, tree := AfterDelete(s.tree, At(s.dirs[id].key)))
  }

  function PermanentDirectoryError(s: State, requester: string, id: string): Option<Error> {
    if id !in s.dirs then Some(DirectoryNotFound)
    else
      var k := s.dirs[id].key;
      if k.owner != requester then Some(Forbidden)
      else if s.dirs[id].deletedAt.None? && HasActiveItems(s, requester, k.Full()) then Some(DirectoryNotEmpty)
      else RemovalError(s, id)
  }

  /** The folder rows once row id is gone, or in the trash. */
  function WithoutFolder(dirs: map<string, DirRow>, id: string, trashedAt: Option<int>): map<string, DirRow>
    requires id in dirs
  {
    if trashedAt.None? then dirs - {id} else dirs[id := dirs[id].(deletedAt := trashedAt)]
  }

  /** Removing the folder of a row that is, or becomes, trashed or gone. */
  lemma FolderGoneKeeps(s: State, id: string, trashedAt: Option<int>, now: int)
    requires Agreement(s) && id in s.dirs && s.clock <= now
    ensures Agreement(s.(dirs := WithoutFolder(s.dirs, id, trashedAt),
                         tree := AfterDelete(s.tree, At(s.dirs[id].key)), clock := now))
  {
    var p := At(s.dirs[id].key);
    assert p !in s.tree.content;
    var t := AfterDelete(s.tree, p);
    AfterDeleteSound(s.tree, p);
    HistoriesKept(s.files, s.versions, s.tree, t, {});
    Less(s.files, s.versions, s.tree, t);
    GoneFolders(s.files, s.dirs, id, trashedAt, s.tree);
    GoneRows(s, id, trashedAt, now);
  }

  lemma GoneRows(s: State, id: string, trashedAt: Option<int>, now: int)
    requires UserPaths(s.files, s.dirs) && UniqueKeys(s.files, s.dirs) && HistoryOrdered(s.files, s.versions, s.clock)
    requires id in s.dirs && s.clock <= now
    ensures var dirs' := WithoutFolder(s.dirs, id, trashedAt);
            UserPaths(s.files, dirs') && UniqueKeys(s.files, dirs') && HistoryOrdered(s.files, s.versions, now)
  {}

  lemma AfterDeleteSound(t: Tree, p: Path)
    requires TreeSound(t) && p !in t.content
    ensures TreeSound(AfterDelete(t, p)) && AfterDelete(t, p).content == t.content
  {}

  lemma GoneFolders(files: map<string, FileRow>, dirs: map<string, DirRow>, id: string, trashedAt: Option<int>, t: Tree)
    requires UniqueKeys(files, dirs) && FoldersSound(dirs, t) && id in dirs
    ensures FoldersSound(WithoutFolder(dirs, id, trashedAt), AfterDelete(t, At(dirs[id].key)))
  {
    var dirs', t' := WithoutFolder(dirs, id, trashedAt), AfterDelete(t, At(dirs[id].key));
    forall d | d in dirs' && dirs'[d].deletedAt.None? ensures At(dirs'[d].key) in t'.dirs {
      assert d != id && dirs'[d] == dirs[d];
      assert KeyAt(At(dirs[d].key)) != KeyAt(At(dirs[id].key));
    }
    assert forall d | d in dirs' :: dirs'[d].key == dirs[d].key;
  }

  ghost function RestoreDirectoryError(s: State, requester: string, id: string): Option<Error> {
    if id !in s.dirs then Some(DirectoryNotFound)
    else if s.dirs[id].key.owner != requester then Some(Forbidden)
    else if Blocked(s.tree, At(s.dirs[id].key)) then Some(MkdirFailed)
    else None
  }

  /** RestoreDirectory writes the row before it makes the folder. */
  function FolderRestored(s: State, id: string): State
    requires id in s.dirs
  {
    var p := At(s.dirs[id].key);
    MarkDir(s, id, None).(tree := if Blocked(s.tree, p) then s.tree else AddDirs(s.tree, p))
  }

  /** Taking a folder out of the trash keeps the agreement exactly when its folder
      can be made, that is, when no file has taken the place of one of its
      ancestors meanwhile. */
  lemma RestoreDirectoryKeepsIff(s: State, id: string)
    requires Agreement(s) && id in s.dirs
    ensures Agreement(FolderRestored(s, id)) <==> !Blocked(s.tree, At(s.dirs[id].key))
  {
    var k := s.dirs[id].key;
    var r := FolderRestored(s, id);
    if Blocked(s.tree, At(k)) {
      if At(k) in s.tree.dirs {
        DirNotBlocked(s.tree, At(k));
      }
      assert r.dirs[id].deletedAt.None? && At(r.dirs[id].key) !in r.tree.dirs;
    } else {
      UserPlace(k);
      AddDirsWellFormed(s.tree, At(k));
      GrowKeeps(s, Prefixes(At(k)));
      UnmarkDirKeeps(Grow(s, Prefixes(At(k))), id);
    }
  }

  lemma UnmarkDirKeeps(s: State, id: string)
    requires Agreement(s) && id in s.dirs && At(s.dirs[id].key) in s.tree.dirs
    ensures Agreement(MarkDir(s, id, None))
  {
    UnmarkDirRows(s, id);
  }

  lemma UnmarkDirRows(s: State, id: string)
    requires UserPaths(s.files, s.dirs) && UniqueKeys(s.files, s.dirs) && FoldersSound(s.dirs, s.tree)
    requires id in s.dirs && At(s.dirs[id].key) in s.tree.dirs
    ensures var dirs' := MarkDir(s, id, None).dirs;
            UserPaths(s.files, dirs') && UniqueKeys(s.files, dirs') && FoldersSound(dirs', s.tree)
  {}

  // ----- removing a file for good

  /** Row, content and history of the file are gone. */
  function Erase(s: State, id: string): State
    requires id in s.files
  {
    s.(files := s.files - {id}, versions := s.versions - {id},
       tree := s.tree.(content := s.tree.content - {At(s.files[id].key)} - KeysOf(History(s, id))))
  }

  lemma EraseKeeps(s: State, id: string)
    requires Agreement(s) && id in s.files
    ensures Agreement(Erase(s, id))
  {
    DropVacates(s, id);
    CutKeepsVacated(Drop(s, id), id, s.files[id].key, 0);
    ForgetKeeps(Cut(Drop(s, id), id, 0), id, s.files[id].key);
    EraseInSteps(s, id);
  }

  lemma EraseInSteps(s: State, id: string)
    requires id in s.files
    ensures var c := Cut(Drop(s, id), id, 0);
            Erase(s, id) == c.(files := c.files - {id}, versions := c.versions - {id})
  {}

  lemma ForgetKeeps(s: State, id: string, k: Key)
    requires Vacated(s, id, k) && id in s.files && History(s, id) == []
    ensures Agreement(s.(files := s.files - {id}, versions := s.versions - {id}))
  {
    ForgetHistory(s.files, s.versions, id, s.tree);
    ForgetRecords(s.files, s.versions, id, s.tree);
    ForgetRows(s, id);
  }

  lemma ForgetRows(s: State, id: string)
    requires UserPaths(s.files, s.dirs) && UniqueKeys(s.files, s.dirs) && HistoryOrdered(s.files, s.versions, s.clock)
    ensures var files', versions' := s.files - {id}, s.versions - {id};
            UserPaths(files', s.dirs) && UniqueKeys(files', s.dirs) && HistoryOrdered(files', versions', s.clock)
  {}

  lemma ForgetHistory(files: map<string, FileRow>, versions: map<string, seq<VersionRow>>, id: string, t: Tree)
    requires HistoryBacked(files, versions, t)
    ensures HistoryBacked(files - {id}, versions - {id}, t)
  {}

  lemma ForgetRecords(files: map<string, FileRow>, versions: map<string, seq<VersionRow>>, id: string, t: Tree)
    requires NothingElse(files, versions, t) && id in files && At(files[id].key) !in t.content
    requires id in versions ==> versions[id] == []
    ensures NothingElse(files - {id}, versions - {id}, t)
  {
    forall p | p in t.content ensures Recorded(files - {id}, versions - {id}, p) {
      assert Recorded(files, versions, p);
      if j :| j in files && At(files[j].key) == p {
        assert j in files - {id};
      }
    }
  }

  function DeleteError(s: State, requester: string, id: string): Option<Error> {
    if id !in s.files then Some(FileNotFound)
    else if s.files[id].key.owner != requester then Some(Forbidden)
    else None
  }

  function FileDeleted(env: Env, s: State, id: string, now: int): State
    requires id in s.files
  {
    if env.trashEnabled then MarkFile(s, id, Some(now)).(clock := now) else Erase(s, id)
  }

  // ----- purge

  /** ListAllTrashedFiles: every trashed file once, latest deletion first. */
  ghost predicate TrashListing(s: State, ids: seq<string>) {
    && (forall i | 0 <= i < |ids| :: ids[i] in s.files && s.files[ids[i]].deletedAt.Some?)
    && (forall i, j | 0 <= i < j < |ids| ::
          ids[i] != ids[j] && s.files[ids[i]].deletedAt.value >= s.files[ids[j]].deletedAt.value)
    && (forall id {:trigger id in ids} | id in s.files && s.files[id].deletedAt.Some? :: id in ids)
  }

  /** Trashed files, each once, latest deletion first. */
  predicate SortedTrash(files: map<string, FileRow>, ids: seq<string>) {
    && (forall i | 0 <= i < |ids| :: ids[i] in files && files[ids[i]].deletedAt.Some?)
    && (forall i, j | 0 <= i < j < |ids| ::
          ids[i] != ids[j] && files[ids[i]].deletedAt.value >= files[ids[j]].deletedAt.value)
  }

  lemma InsertSorted(files: map<string, FileRow>, ids: seq<string>, n: nat, f: string)
    requires SortedTrash(files, ids) && n <= |ids| && f in files && files[f].deletedAt.Some? && f !in ids
    requires forall i | 0 <= i < n :: files[ids[i]].deletedAt.value > files[f].deletedAt.value
    requires n < |ids| ==> files[ids[n]].deletedAt.value <= files[f].deletedAt.value
    ensures SortedTrash(files, ids[..n] + [f] + ids[n..])
    ensures forall x :: x in ids[..n] + [f] + ids[n..] <==> x == f || x in ids
  {
    forall x | x in ids ensures x in ids[..n] || x in ids[n..] {
      assert ids == ids[..n] + ids[n..];
    }
  }

  function TrashSize(files: map<string, FileRow>, ids: seq<string>): nat
    requires forall i | 0 <= i < |ids| :: ids[i] in files
  {
    if ids == [] then 0 else TrashSize(files, ids[..|ids| - 1]) + files[ids[|ids| - 1]].size
  }

  /** One file's vote in the loop of PurgeExpiredTrash. */
  predicate Expired(files: map<string, FileRow>, ids: seq<string>, cutoff: int, maxTotal: int, i: nat)
    requires i < |ids|
    requires forall j | 0 <= j < |ids| :: ids[j] in files && files[ids[j]].deletedAt.Some?
  {
    || files[ids[i]].deletedAt.value < cutoff
    || (maxTotal > 0 && TrashSize(files, ids[..i + 1]) > maxTotal)
  }

  /** How many trashed files stay: up to the first that is too old or too much. */
  ghost function PurgeFrom(files: map<string, FileRow>, ids: seq<string>, cutoff: int, maxTotal: int, i: nat): (k: nat)
    requires i <= |ids|
    requires forall j | 0 <= j < |ids| :: ids[j] in files && files[ids[j]].deletedAt.Some?
    ensures i <= k <= |ids|
    ensures forall j | i <= j < k :: !Expired(files, ids, cutoff, maxTotal, j)
    ensures k < |ids| ==> Expired(files, ids, cutoff, maxTotal, k)
    decreases |ids| - i
  {
    if i < |ids| && !Expired(files, ids, cutoff, maxTotal, i) then PurgeFrom(files, ids, cutoff, maxTotal, i + 1) else i
  }

  lemma {:induction false} TrashSizeMonotone(files: map<string, FileRow>, ids: seq<string>, i: nat, j: nat)
    requires forall x | 0 <= x < |ids| :: ids[x] in files
    requires i <= j <= |ids|
    ensures TrashSize(files, ids[..i]) <= TrashSize(files, ids[..j])
    decreases j - i
  {
    if i < j {
      assert ids[..j][..j - 1] == ids[..j - 1];
      TrashSizeMonotone(files, ids, i, j - 1);
    }
  }

  /** Once one file must go, so must every file deleted earlier: what stays is the
      longest run of latest deletions within both limits. */
  lemma PurgeCutsAPrefix(s: State, ids: seq<string>, cutoff: int, maxTotal: int, i: nat)
    requires TrashListing(s, ids) && i < |ids|
    ensures Expired(s.files, ids, cutoff, maxTotal, i) <==> PurgeFrom(s.files, ids, cutoff, maxTotal, 0) <= i
  {
    var k := PurgeFrom(s.files, ids, cutoff, maxTotal, 0);
    if k <= i {
      assert Expired(s.files, ids, cutoff, maxTotal, k);
      TrashSizeMonotone(s.files, ids, k + 1, i + 1);
    }
  }

  function EraseAll(s: State, ids: seq<string>): State
    requires forall i | 0 <= i < |ids| :: ids[i] in s.files
    requires forall i, j | 0 <= i < j < |ids| :: ids[i] != ids[j]
    decreases |ids|
  {
    if ids == [] then s else EraseAll(Erase(s, ids[0]), ids[1..])
  }

  lemma {:induction false} EraseAllKeeps(s: State, ids: seq<string>)
    requires Agreement(s)
    requires forall i | 0 <= i < |ids| :: ids[i] in s.files
    requires forall i, j | 0 <= i < j < |ids| :: ids[i] != ids[j]
    ensures Agreement(EraseAll(s, ids))
    decreases |ids|
  {
    if ids != [] {
      EraseKeeps(s, ids[0]);
      EraseLeaves(s, ids);
      EraseAllKeeps(Erase(s, ids[0]), ids[1..]);
    }
  }

  lemma EraseLeaves(s: State, ids: seq<string>)
    requires ids != [] && forall i | 0 <= i < |ids| :: ids[i] in s.files
    requires forall i, j | 0 <= i < j < |ids| :: ids[i] != ids[j]
    ensures forall i | 0 <= i < |ids[1..]| :: ids[1..][i] in Erase(s, ids[0]).files
    ensures forall i, j | 0 <= i < j < |ids[1..]| :: ids[1..][i] != ids[1..][j]
  {}

  /** Exactly these rows and histories go. */
  lemma {:induction false} EraseAllRows(s: State, ids: seq<string>)
    requires forall i | 0 <= i < |ids| :: ids[i] in s.files
    requires forall i, j | 0 <= i < j < |ids| :: ids[i] != ids[j]
    ensures var r := EraseAll(s, ids);
            && (forall f :: f in r.files <==> f in s.files && f !in ids)
            && (forall f | f in r.files :: r.files[f] == s.files[f])
            && r.dirs == s.dirs && |r.files| + |ids| == |s.files|
    decreases |ids|
  {
    if ids != [] {
      EraseLeaves(s, ids);
      EraseAllRows(Erase(s, ids[0]), ids[1..]);
      assert Erase(s, ids[0]).files.Keys == s.files.Keys - {ids[0]};
    }
  }

  /** What a purge leaves of the files: every active one, and of the trashed ones, latest deletion
      first, those not deleted before the cutoff whose size, with all deleted later, is within
      the limit; none of them changed. */
  ghost predicate LeftByPurge(files: map<string, FileRow>, ids: seq<string>, cutoff: int, maxTotal: int,
                              left: map<string, FileRow>) {
    && (forall i | 0 <= i < |ids| :: ids[i] in files && files[ids[i]].deletedAt.Some?)
    && (forall f | f in left :: f in files && left[f] == files[f])
    && (forall f | f in files && files[f].deletedAt.None? :: f in left)
    && (forall i | 0 <= i < |ids| :: ids[i] in left <==>
          files[ids[i]].deletedAt.value >= cutoff && (maxTotal > 0 ==> TrashSize(files, ids[..i + 1]) <= maxTotal))
  }

  /** What it leaves of the folder rows: all but those trashed before the cutoff. */
  ghost predicate FoldersLeft(dirs: map<string, DirRow>, cutoff: int, left: map<string, DirRow>) {
    && (forall d :: d in left <==> d in dirs && (dirs[d].deletedAt.Some? ==> dirs[d].deletedAt.value >= cutoff))
    && (forall d | d in left :: left[d] == dirs[d])
  }

  lemma DoomedAreExpired(s: State, ids: seq<string>, cutoff: int, maxTotal: int, i: nat)
    requires TrashListing(s, ids) && i < |ids|
    ensures ids[i] in Doomed(s, ids, cutoff, maxTotal) <==> Expired(s.files, ids, cutoff, maxTotal, i)
  {
    var k, doomed := PurgeFrom(s.files, ids, cutoff, maxTotal, 0), Doomed(s, ids, cutoff, maxTotal);
    PurgeCutsAPrefix(s, ids, cutoff, maxTotal, i);
    if k <= i {
      assert doomed[i - k] == ids[i];
    }
  }

  lemma PurgeLeaves(s: State, ids: seq<string>, cutoff: int, maxTotal: int)
    requires TrashListing(s, ids)
    ensures var r := Purged(s, ids, cutoff, maxTotal);
            && LeftByPurge(s.files, ids, cutoff, maxTotal, r.files)
            && FoldersLeft(s.dirs, cutoff, r.dirs)
            && |r.files| + |Doomed(s, ids, cutoff, maxTotal)| == |s.files|
  {
    EraseAllRows(s, Doomed(s, ids, cutoff, maxTotal));
    forall i | 0 <= i < |ids|
      ensures ids[i] in Doomed(s, ids, cutoff, maxTotal) <==> Expired(s.files, ids, cutoff, maxTotal, i)
    {
      DoomedAreExpired(s, ids, cutoff, maxTotal, i);
    }
  }

  lemma FewerRows(dirs: map<string, DirRow>, gone: set<string>)
    requires gone <= dirs.Keys
    ensures |dirs - gone| == |dirs| - |gone|
  {
    assert (dirs - gone).Keys == dirs.Keys - gone;
  }

  predicate ExpiredDir(d: DirRow, cutoff: int) {
    d.deletedAt.Some? && d.deletedAt.value < cutoff
  }

  function ExpiredDirs(dirs: map<string, DirRow>, cutoff: int): set<string> {
    set d | d in dirs && ExpiredDir(dirs[d], cutoff)
  }

  /** Folder rows trashed before the cutoff go; their folders went when trashed. */
  function PurgeDirs(s: State, cutoff: int): State {
    s.(dirs := map d | d in s.dirs && !ExpiredDir(s.dirs[d], cutoff) :: s.dirs[d])
  }

  /** The trashed files a purge removes, in listing order. */
  ghost function Doomed(s: State, ids: seq<string>, cutoff: int, maxTotal: int): (doomed: seq<string>)
    requires TrashListing(s, ids)
    ensures forall i | 0 <= i < |doomed| :: doomed[i] in s.files
    ensures forall i, j | 0 <= i < j < |doomed| :: doomed[i] != doomed[j]
  {
    ids[PurgeFrom(s.files, ids, cutoff, maxTotal, 0)..]
  }

  ghost function Purged(s: State, ids: seq<string>, cutoff: int, maxTotal: int): State
    requires TrashListing(s, ids)
  {
    PurgeDirs(EraseAll(s, Doomed(s, ids, cutoff, maxTotal)), cutoff)
  }

  lemma PurgeKeeps(s: State, doomed: seq<string>, cutoff: int)
    requires Agreement(s)
    requires forall i | 0 <= i < |doomed| :: doomed[i] in s.files
    requires forall i, j | 0 <= i < j < |doomed| :: doomed[i] != doomed[j]
    ensures Agreement(PurgeDirs(EraseAll(s, doomed), cutoff))
  {
    EraseAllKeeps(s, doomed);
    PurgeDirsKeeps(EraseAll(s, doomed), cutoff);
  }

  lemma PurgeDirsKeeps(s: State, cutoff: int)
    requires Agreement(s)
    ensures Agreement(PurgeDirs(s, cutoff))
  {}
}
