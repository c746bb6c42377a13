/** Removing a folder with everything in it, as WebDAV asks, on values: which rows
    a recursive delete sends to the trash (internal/webdav/filesystem.go, removeTree). */
module Sweep {
  import opened Base
  import opened PhysicalTree
  import opened StorageModel
  import opened Content
  import opened Trash

  /** An active file of the owner anywhere below path. */
  predicate FileUnder(f: FileRow, owner: string, path: Path) {
    f.key.owner == owner && path <= f.key.parent && f.deletedAt.None?
  }

  predicate DirUnder(d: DirRow, owner: string, path: Path) {
    d.key.owner == owner && path <= d.key.parent && d.deletedAt.None?
  }

  function FilesUnder(files: map<string, FileRow>, owner: string, path: Path): set<string> {
    set j | j in files && FileUnder(files[j], owner, path)
  }

  function DirsUnder(dirs: map<string, DirRow>, owner: string, path: Path): set<string> {
    set j | j in dirs && DirUnder(dirs[j], owner, path)
  }

  function MarkFiles(files: map<string, FileRow>, ids: set<string>, now: int): map<string, FileRow> {
    map j | j in files :: if j in ids then files[j].(deletedAt := Some(now)) else files[j]
  }

  function MarkDirs(dirs: map<string, DirRow>, ids: set<string>, now: int): map<string, DirRow> {
    map j | j in dirs :: if j in ids then dirs[j].(deletedAt := Some(now)) else dirs[j]
  }

  /** Exactly these rows go to the trash; every file content stays on disk. */
  ghost predicate Trashes(s: State, s': State, fs: set<string>, ds: set<string>, now: int) {
    && s'.files == MarkFiles(s.files, fs, now) && s'.dirs == MarkDirs(s.dirs, ds, now)
    && s'.versions == s.versions && (s'.clock == s.clock || s'.clock == now)
    && s'.tree.content == s.tree.content && s'.tree.dirs <= s.tree.dirs
  }

  /** What deleting folders relies on. */
  ghost predicate FoldersReady(s: State) {
    UniqueKeys(s.files, s.dirs) && FoldersSound(s.dirs, s.tree) && TreeSound(s.tree)
  }

  lemma TrashesMore(s: State, s1: State, s2: State, f1: set<string>, d1: set<string>, f2: set<string>,
                    d2: set<string>, now: int)
    requires Trashes(s, s1, f1, d1, now) && Trashes(s1, s2, f2, d2, now)
    ensures Trashes(s, s2, f1 + f2, d1 + d2, now)
  {}

  lemma NothingTrashed(s: State, now: int)
    ensures Trashes(s, s, {}, {}, now)
  {}

  /** Nothing active is left directly inside any of these folders. */
  ghost predicate Emptied(s: State, owner: string, ds: set<string>) {
    forall d | d in ds :: d in s.dirs && !HasActiveItems(s, owner, s.dirs[d].key.Full())
  }

  lemma EmptiedStays(s: State, s': State, owner: string, ds: set<string>, fs: set<string>, ds': set<string>, now: int)
    requires Emptied(s, owner, ds) && Trashes(s, s', fs, ds', now)
    ensures Emptied(s', owner, ds)
  {}

  /** Nothing stops a folder that lists nothing from going to the trash. */
  lemma FolderGoes(env: Env, s: State, requester: string, id: string)
    requires env.trashEnabled && FoldersSound(s.dirs, s.tree) && id in s.dirs && s.dirs[id].key.owner == requester
    requires s.dirs[id].deletedAt.None? && !HasActiveItems(s, requester, s.dirs[id].key.Full())
    ensures DeleteDirectoryError(env, s, requester, id).None?
  {}

  lemma FolderTrashed(env: Env, s: State, id: string, now: int)
    requires env.trashEnabled && FoldersReady(s) && id in s.dirs
    ensures Trashes(s, FolderDeleted(env, s, id, now), {}, {id}, now)
    ensures FoldersReady(FolderDeleted(env, s, id, now))
  {
    var p := At(s.dirs[id].key);
    assert p !in s.tree.content;
    AfterDeleteSound(s.tree, p);
    GoneFolders(s.files, s.dirs, id, Some(now), s.tree);
    MarkedOne(s.files, s.dirs, id, now);
  }

  lemma MarkedOne(files: map<string, FileRow>, dirs: map<string, DirRow>, id: string, now: int)
    requires UniqueKeys(files, dirs) && id in dirs
    ensures WithoutFolder(dirs, id, Some(now)) == MarkDirs(dirs, {id}, now) && files == MarkFiles(files, {}, now)
    ensures UniqueKeys(files, WithoutFolder(dirs, id, Some(now)))
  {}

  lemma FileTrashed(env: Env, s: State, id: string, now: int)
    requires env.trashEnabled && id in s.files
    ensures Trashes(s, FileDeleted(env, s, id, now), {id}, {}, now)
    ensures FoldersReady(s) ==> FoldersReady(FileDeleted(env, s, id, now))
  {}

  // ----- what a sweep reaches

  predicate HasFolder(dirs: map<string, DirRow>, owner: string, p: Path) {
    exists d | d in dirs :: dirs[d].key.owner == owner && dirs[d].key.Full() == p && dirs[d].deletedAt.None?
  }

  /** Below path, every active item lies in an active folder. */
  ghost predicate AncestorClosed(s: State, owner: string, path: Path) {
    && (forall j | j in s.files && FileUnder(s.files[j], owner, path) && s.files[j].key.parent != path ::
          HasFolder(s.dirs, owner, s.files[j].key.parent))
    && (forall j | j in s.dirs && DirUnder(s.dirs[j], owner, path) && s.dirs[j].key.parent != path ::
          HasFolder(s.dirs, owner, s.dirs[j].key.parent))
  }

  /** A sweep that emptied every folder it took, the root among them, leaves no
      active folder at or below the path. */
  lemma {:induction false} NoFolderLeft(s: State, s': State, owner: string, path: Path, root: string,
                                        fs: set<string>, ds: set<string>, now: int, d: string)
    requires AncestorClosed(s, owner, path) && Trashes(s, s', fs, ds, now) && Emptied(s', owner, ds)
    requires root in ds && root in s.dirs && s.dirs[root].key.Full() == path
    requires d in s.dirs && DirUnder(s.dirs[d], owner, path)
    ensures d in ds
    decreases |s.dirs[d].key.parent|
  {
    var parent := s.dirs[d].key.parent;
    var e := root;
    if parent != path {
      e :| e in s.dirs && s.dirs[e].key.owner == owner && s.dirs[e].key.Full() == parent && s.dirs[e].deletedAt.None?;
      NoFolderLeft(s, s', owner, path, root, fs, ds, now, e);
    }
    assert !HasActiveItems(s', owner, s'.dirs[e].key.Full());
    assert d !in ds ==> ActiveDirIn(s'.dirs[d], owner, parent);
  }

  lemma NoFileLeft(s: State, s': State, owner: string, path: Path, root: string, fs: set<string>, ds: set<string>,
                   now: int, j: string)
    requires AncestorClosed(s, owner, path) && Trashes(s, s', fs, ds, now) && Emptied(s', owner, ds)
    requires root in ds && root in s.dirs && s.dirs[root].key.Full() == path
    requires j in s.files && FileUnder(s.files[j], owner, path)
    ensures j in fs
  {
    var parent := s.files[j].key.parent;
    var e := root;
    if parent != path {
      e :| e in s.dirs && s.dirs[e].key.owner == owner && s.dirs[e].key.Full() == parent && s.dirs[e].deletedAt.None?;
      NoFolderLeft(s, s', owner, path, root, fs, ds, now, e);
    }
    assert !HasActiveItems(s', owner, s'.dirs[e].key.Full());
    assert j !in fs ==> ActiveFileIn(s'.files[j], owner, parent);
  }

  /** On an ancestor-closed tree a sweep takes exactly the active items at and
      below the folder. */
  lemma SweepsAll(s: State, s': State, owner: string, path: Path, root: string, fs: set<string>, ds: set<string>,
                  now: int)
    requires AncestorClosed(s, owner, path) && Trashes(s, s', fs, ds, now) && Emptied(s', owner, ds)
    requires root in ds && root in s.dirs && s.dirs[root].key.Full() == path
    requires fs <= FilesUnder(s.files, owner, path) && ds <= DirsUnder(s.dirs, owner, path) + {root}
    ensures fs == FilesUnder(s.files, owner, path) && ds == DirsUnder(s.dirs, owner, path) + {root}
  {
    forall d | d in DirsUnder(s.dirs, owner, path) ensures d in ds {
      NoFolderLeft(s, s', owner, path, root, fs, ds, now, d);
    }
    forall j | j in FilesUnder(s.files, owner, path) ensures j in fs {
      NoFileLeft(s, s', owner, path, root, fs, ds, now, j);
    }
  }

  /** A sweep keeps rows and disk in agreement. */
  lemma SweepKeeps(s: State, s': State, fs: set<string>, ds: set<string>, now: int)
    requires Agreement(s) && Trashes(s, s', fs, ds, now) && s.clock <= now && FoldersReady(s')
    ensures Agreement(s')
  {
    SweptRows(s, s', fs, ds, now);
    SweptBacked(s, s', fs, ds, now);
    SweptHistory(s, s', fs, ds, now);
  }

  lemma SweptHistory(s: State, s': State, fs: set<string>, ds: set<string>, now: int)
    requires HistoryBacked(s.files, s.versions, s.tree) && NothingElse(s.files, s.versions, s.tree)
    requires Trashes(s, s', fs, ds, now)
    ensures HistoryBacked(s'.files, s'.versions, s'.tree) && NothingElse(s'.files, s'.versions, s'.tree)
  {
    SameHomes(s.files, s'.files, s.versions, s.tree);
    HistoriesKept(s'.files, s.versions, s.tree, s'.tree, {});
    MarkRecords(s.files, s'.files, s.versions, s.tree);
    Less(s'.files, s.versions, s.tree, s'.tree);
  }

  lemma SweptRows(s: State, s': State, fs: set<string>, ds: set<string>, now: int)
    requires UserPaths(s.files, s.dirs) && HistoryOrdered(s.files, s.versions, s.clock)
    requires Trashes(s, s', fs, ds, now) && s.clock <= now
    ensures UserPaths(s'.files, s'.dirs) && HistoryOrdered(s'.files, s'.versions, s'.clock)
  {}

  lemma SweptBacked(s: State, s': State, fs: set<string>, ds: set<string>, now: int)
    requires RowsBacked(s.files, s.tree) && Trashes(s, s', fs, ds, now)
    ensures RowsBacked(s'.files, s'.tree)
  {}

  /** A folder's subfolders are fewer than its parent's, even after some have gone. */
  lemma FewerBelow(s: State, s': State, owner: string, path: Path, fs: set<string>, ds: set<string>, now: int,
                   d: string)
    requires Trashes(s, s', fs, ds, now) && d in s.dirs && DirUnder(s.dirs[d], owner, path)
    ensures |DirsUnder(s'.dirs, owner, s.dirs[d].key.Full())| < |DirsUnder(s.dirs, owner, path)|
  {
    var a, b := DirsUnder(s'.dirs, owner, s.dirs[d].key.Full()), DirsUnder(s.dirs, owner, path);
    assert d in b && d !in a;
    assert a <= b - {d};
    Smaller(a, b - {d});
  }

  lemma {:induction false} Smaller<T>(a: set<T>, b: set<T>)
    requires a <= b
    ensures |a| <= |b|
    decreases a
  {
    if x :| x in a {
      Smaller(a - {x}, b - {x});
    }
  }
}
