/** Putting a backup back into an active pool through FileService
    (internal/backup/manager.go, RestoreToPool and materializeAncestors). */
module RestoreToPool {
  import opened Base
  import opened PathStrings
  import opened PhysicalTree
  import opened StorageModel
  import opened Content
  import opened Uploads
  import opened Trash
  import opened Operations
  import opened Progress
  import opened Service
  import opened BackupStore
  import opened BackupHistory
  import opened BackupManager

  datatype PoolRestore = PoolRestore(restored: nat, failed: nat)

  /** The copies of one job, and the key they are under. */
  datatype Vault = Vault(cipher: Cipher, disk: Disk, root: string, job: string, key: Option<Bytes>)

  /** What Mkdir asks of the name of every folder on the way, and Upload of the file's. */
  predicate Nameable(e: FileEntry) {
    ValidName(e.name) && forall x | x in e.parent :: ValidName(x)
  }

  /** The copy is good, and the service takes every name it needs. */
  predicate Comes(v: Vault, pool: string, e: FileEntry) {
    Verifies(v.cipher, v.disk, v.root, v.job, v.key, pool, e) && Nameable(e)
  }

  /** No item of these owners in the pool is in the trash. */
  ghost predicate NoTrash(s: State, pool: string, owners: set<string>) {
    && (forall f | f in s.files && s.files[f].key.pool == pool && s.files[f].key.owner in owners ::
          s.files[f].deletedAt.None?)
    && (forall d | d in s.dirs && s.dirs[d].key.pool == pool && s.dirs[d].key.owner in owners ::
          s.dirs[d].deletedAt.None?)
  }

  /** Nothing stands at the places of these keys, nor a file above one. */
  ghost predicate Clear(t: Tree, todo: set<Key>) {
    forall k | k in todo :: At(k) !in t.dirs && !Blocked(t, At(k))
  }

  /** No file's place lies above another's, as on any disk. */
  ghost predicate NoNesting(keys: set<Key>) {
    forall a, b | a in keys && b in keys && a != b :: !(At(a) <= At(b))
  }

  ghost predicate Ready(s: State, pool: string, owners: set<string>, todo: set<Key>) {
    Clear(s.tree, todo) && NoTrash(s, pool, owners) && NoNesting(todo)
  }

  predicate ActiveDirAt(s: State, k: Key) {
    exists d | d in s.dirs :: s.dirs[d].key == k && s.dirs[d].deletedAt.None?
  }

  function FolderKey(pool: string, owner: string, path: Path): Key
    requires path != []
  {
    Key(pool, owner, Parent(path), path[|path| - 1])
  }

  /** Every folder on the way down to parent has an active row. */
  predicate Reachable(s: State, pool: string, owner: string, parent: Path) {
    forall i | 1 <= i <= |parent| :: ActiveDirAt(s, FolderKey(pool, owner, parent[..i]))
  }

  predicate InPlace(s: State, k: Key, sha: Digest) {
    exists f | f in s.files :: s.files[f].key == k && s.files[f].sha == sha && s.files[f].deletedAt.None?
  }

  /** The manifest's file is in the pool, with its content, and can be browsed to. */
  predicate Back(s: State, pool: string, e: FileEntry) {
    InPlace(s, KeyIn(pool, e), e.sha) && Reachable(s, pool, e.owner, e.parent)
  }

  /** Rows and disk agree, and the clock is not ahead. */
  ghost predicate Steady(svc: FileService, now: int)
    reads svc, svc.prov
  {
    Agreement(svc.St()) && svc.clock <= now
  }

  // ----- what one folder changes

  lemma FolderPlace(pool: string, owner: string, path: Path, e: Key)
    requires path != [] && e.pool == pool && e.owner == owner && path <= e.parent
    ensures var k := FolderKey(pool, owner, path);
            && k.Full() == path && At(k) <= At(e) && At(k) != At(e)
            && (forall q | q in Prefixes(At(k)) :: q <= At(e) && q != At(e))
  {}

  /** With nothing in the way, a folder with a valid name is made, and nothing gets in the
      way. */
  lemma MkdirGoes(env: Env, s: State, pool: string, owners: set<string>, todo: set<Key>, path: Path, target: Key,
                  newId: string, now: int)
    requires Ready(s, pool, owners, todo) && target in todo && target.pool == pool && target.owner in owners
    requires path != [] && path <= target.parent && ValidName(path[|path| - 1]) && pool in env.pools
    ensures var k := FolderKey(pool, target.owner, path);
            && MkdirError(env, s, k).None?
            && Ready(FolderMade(s, k, newId, now), pool, owners, todo)
  {
    var k := FolderKey(pool, target.owner, path);
    FolderPlace(pool, target.owner, path, target);
    NotBlockedAbove(s.tree, At(k), At(target));
    assert !TrashOccupies(s, k);
    var s' := FolderMade(s, k, newId, now);
    assert forall x | x in todo :: At(x) !in Prefixes(At(k));
  }

  lemma NotBlockedAbove(t: Tree, p: Path, q: Path)
    requires p <= q && !Blocked(t, q)
    ensures !Blocked(t, p)
  {
    forall i | 0 <= i <= |p| ensures p[..i] !in t.content {
      assert p[..i] == q[..i];
    }
  }

  /** The folder now has an active row, as has every folder before. */
  lemma FolderRowThere(s: State, pool: string, owners: set<string>, k: Key, newId: string, now: int)
    requires NoTrash(s, pool, owners) && k.pool == pool && k.owner in owners && newId !in s.dirs
    ensures ActiveDirAt(FolderMade(s, k, newId, now), k)
    ensures forall x | ActiveDirAt(s, x) :: ActiveDirAt(FolderMade(s, k, newId, now), x)
    ensures forall x, sha | InPlace(s, x, sha) :: InPlace(FolderMade(s, k, newId, now), x, sha)
  {
    var s' := FolderMade(s, k, newId, now);
    match FindDir(s.dirs, k) {
      case Some(d) => assert s'.dirs[d].key == k;
      case None => assert s'.dirs[newId].key == k;
    }
    forall x | ActiveDirAt(s, x) ensures ActiveDirAt(s', x) {
      var d :| d in s.dirs && s.dirs[d].key == x && s.dirs[d].deletedAt.None?;
      assert s'.dirs[d] == s.dirs[d];
    }
  }

  // ----- what one file changes

  function PoolUpload(pool: string, e: FileEntry, data: Bytes): UploadInput {
    UploadInput(e.owner, Render(e.parent), e.name, Complete(data), pool, false)
  }

  lemma PoolUploadKey(env: Env, pool: string, e: FileEntry, data: Bytes)
    requires UserPath(e.parent + [e.name]) && pool != ""
    ensures UploadKey(env, PoolUpload(pool, e, data)) == KeyIn(pool, e) && !Reserved(KeyIn(pool, e))
  {
    forall x | x in e.parent ensures ValidSegment(x) {
      assert x in e.parent + [e.name];
    }
    RenderReadsBack(e.parent);
    assert KeyIn(pool, e).Full() == e.parent + [e.name];
  }

  /** With nothing in the way, the upload makes a new file. */
  lemma UploadGoes(env: Env, s: State, pool: string, owners: set<string>, todo: set<Key>, e: FileEntry, data: Bytes)
    requires Ready(s, pool, owners, todo) && KeyIn(pool, e) in todo && e.owner in owners && RowsBacked(s.files, s.tree)
    requires UserPath(e.parent + [e.name]) && ValidName(e.name) && pool in env.pools && pool != ""
    ensures UploadError(env, s, PoolUpload(pool, e, data)).None?
    ensures FindFile(s.files, KeyIn(pool, e)).None?
  {
    var k := KeyIn(pool, e);
    PoolUploadKey(env, pool, e, data);
    NotBlockedAbove(s.tree, Parent(At(k)), At(k));
    assert !TrashOccupies(s, k);
    NoRowThere(s, todo, k);
  }

  lemma NoRowThere(s: State, todo: set<Key>, k: Key)
    requires Clear(s.tree, todo) && k in todo && RowsBacked(s.files, s.tree)
    ensures forall f | f in s.files :: s.files[f].key != k
  {
    forall f | f in s.files ensures s.files[f].key != k {
      assert RowBacked(s.tree, s.files[f]);
      assert At(k)[..|At(k)|] == At(k);
    }
  }

  /** Where the pool has an active file of that name, the restored content takes its place. */
  lemma RestoreReplaces(env: Env, s: State, pool: string, e: FileEntry, data: Bytes, id: string)
    requires Agreement(s) && ValidName(e.name) && pool in env.pools && pool != ""
    requires id in s.files && s.files[id].key == KeyIn(pool, e) && s.files[id].deletedAt.None?
    ensures UploadError(env, s, PoolUpload(pool, e, data)).None?
  {
    assert s.files[id].key.Full() == e.parent + [e.name];
    PoolUploadKey(env, pool, e, data);
    OverwriteGoesThrough(env, s, PoolUpload(pool, e, data), id);
  }

  /** Afterwards the file is there, and nothing has got in the way of the others. */
  lemma UploadLeavesReady(env: Env, s: State, pool: string, owners: set<string>, todo: set<Key>, e: FileEntry,
                          data: Bytes, newId: string, stagingId: string, now: int)
    requires Ready(s, pool, owners, todo) && KeyIn(pool, e) in todo && UserPath(e.parent + [e.name]) && pool != ""
    requires forall k | k in todo :: UserPath(k.Full())
    requires FindFile(s.files, KeyIn(pool, e)).None? && newId !in s.files
    ensures var s' := Uploaded(env, s, PoolUpload(pool, e, data), newId, stagingId, now);
            && Ready(s', pool, owners, todo - {KeyIn(pool, e)})
            && InPlace(s', KeyIn(pool, e), Sha256(data)) && s'.dirs == s.dirs
            && (forall x, sha | InPlace(s, x, sha) :: InPlace(s', x, sha))
  {
    var k := KeyIn(pool, e);
    PoolUploadKey(env, pool, e, data);
    var s' := Uploaded(env, s, PoolUpload(pool, e, data), newId, stagingId, now);
    assert s'.files == s.files[newId := FileRow(k, |data|, Sha256(data), now, now, None)];
    assert s'.tree == Tree(s.tree.content[At(k) := data], s.tree.dirs + UploadFolders(k, stagingId));
    forall x | x in todo - {k} ensures At(x) !in s'.tree.dirs && !Blocked(s'.tree, At(x)) {
      NotUploadFolder(x, k, stagingId);
      forall i | 0 <= i <= |At(x)| ensures At(x)[..i] !in s'.tree.content {
        assert At(x)[..i] == At(k) ==> At(k) <= At(x);
      }
    }
    assert s'.files[newId].key == k;
    forall x, sha | InPlace(s, x, sha) ensures InPlace(s', x, sha) {
      var f :| f in s.files && s.files[f].key == x && s.files[f].sha == sha && s.files[f].deletedAt.None?;
      assert s'.files[f] == s.files[f];
    }
  }

  lemma NotUploadFolder(x: Key, k: Key, stagingId: string)
    requires UserPath(x.Full()) && !(At(x) <= At(k))
    ensures At(x) !in UploadFolders(k, stagingId)
  {}

  method FreshId(used: set<string>) returns (id: string)
    ensures id !in used
  {
    var n: nat := 0;
    var todo := used;
    while todo != {}
      invariant todo <= used
      invariant forall x | x in used && x !in todo :: |x| <= n
    {
      var x :| x in todo;
      n := if |x| > n then |x| else n;
      todo := todo - {x};
    }
    id := seq(n + 1, _ => 'x');
  }

  lemma FolderKeyFromText(env: Env, pool: string, owner: string, path: Path)
    requires path != [] && pool != "" && Canonical(path)
    ensures MkdirKey(env, owner, Render(Parent(path)), path[|path| - 1], pool) == FolderKey(pool, owner, path)
    ensures FolderKey(pool, owner, path).Full() == path && Canonical(Parent(path))
  {
    RenderReadsBack(Parent(path));
  }

  lemma PrefixIsUserPath(parent: Path, n: nat)
    requires UserPath(parent) && 0 < n <= |parent|
    ensures UserPath(parent[..n]) && parent[..n][n - 1] == parent[n - 1] && parent[n - 1] in parent
  {}

  /** One level: the folder is made, or was there, unless Mkdir refuses its name. */
  method MakeFolder(svc: FileService, pool: string, owner: string, path: Path, now: int,
                    ghost ready: bool, ghost owners: set<string>, ghost todo: set<Key>, ghost target: Key)
    returns (ok: bool)
    requires Steady(svc, now) && pool != "" && pool in svc.env.pools
    requires UserPath(path) && target.pool == pool && target.owner == owner && path <= target.parent
    requires ready ==> Ready(svc.St(), pool, owners, todo) && target in todo && owner in owners
    modifies svc`directories, svc`clock, svc.prov
    ensures Steady(svc, now)
    ensures ready ==> Ready(svc.St(), pool, owners, todo) && FoldersOnly(old(svc.St()), svc.St())
    ensures ready ==> (ok <==> ValidName(path[|path| - 1]))
    ensures ready && ok ==> ActiveDirAt(svc.St(), FolderKey(pool, owner, path))
  {
    ghost var s, k := svc.St(), FolderKey(pool, owner, path);
    FolderKeyFromText(svc.env, pool, owner, path);
    var newId := FreshId(svc.directories.Keys);
    if ready && ValidName(path[|path| - 1]) {
      MkdirGoes(svc.env, s, pool, owners, todo, path, target, newId, now);
      FolderRowThere(s, pool, owners, k, newId, now);
    }
    var r := svc.Mkdir(owner, Render(Parent(path)), path[|path| - 1], pool, newId, now);
    FolderStepKeeps(svc.env, s, k, newId, now, svc.St(), if r.Err? then Some(r.error) else None);
    ok := r.Ok?;
  }

  lemma FolderStepKeeps(env: Env, s: State, k: Key, newId: string, now: int, s': State, err: Option<Error>)
    requires Agreement(s) && MkdirStep(env, s, k, newId, now, s', err) && Canonical(k.parent)
    requires s.clock <= now && newId !in s.dirs && !Reserved(k)
    ensures Agreement(s') && s'.clock <= now
  {
    MkdirStepKeeps(env, s, k, newId, now, s', err);
  }

  /** Every remembered folder has its row, and a name that Mkdir took. */
  predicate AllMade(s: State, pool: string, done: set<(string, Path)>) {
    forall x | x in done && x.1 != [] :: ActiveDirAt(s, FolderKey(pool, x.0, x.1)) && ValidName(x.1[|x.1| - 1])
  }

  /** Files and folders that were there still are. */
  ghost predicate FoldersOnly(s: State, s': State) {
    && s'.files == s.files
    && (forall x | ActiveDirAt(s, x) :: ActiveDirAt(s', x))
  }

  /** Some folders have been made since s0, and nothing is in the way. */
  ghost predicate Underway(s0: State, s: State, pool: string, owners: set<string>, todo: set<Key>,
                           done: set<(string, Path)>) {
    Ready(s, pool, owners, todo) && AllMade(s, pool, done) && FoldersOnly(s0, s)
  }

  lemma ReachFurther(s: State, s': State, pool: string, owner: string, parent: Path, i: nat)
    requires i < |parent| && Reachable(s, pool, owner, parent[..i]) && FoldersOnly(s, s')
    requires ActiveDirAt(s', FolderKey(pool, owner, parent[..i + 1]))
    ensures Reachable(s', pool, owner, parent[..i + 1])
  {
    var path, before := parent[..i + 1], parent[..i];
    forall n | 1 <= n <= |path| ensures ActiveDirAt(s', FolderKey(pool, owner, path[..n])) {
      if n <= i {
        assert path[..n] == before[..n];
      } else {
        assert path[..n] == path;
      }
    }
  }

  lemma RememberedIsMade(s: State, pool: string, done: set<(string, Path)>, owner: string, parent: Path, i: nat)
    requires i < |parent| && AllMade(s, pool, done) && (owner, parent[..i + 1]) in done
    ensures ActiveDirAt(s, FolderKey(pool, owner, parent[..i + 1])) && ValidName(parent[i])
  {
    assert parent[..i + 1][i] == parent[i];
  }

  lemma LevelIsMade(s0: State, s: State, s': State, pool: string, owners: set<string>, todo: set<Key>,
                    done: set<(string, Path)>, owner: string, parent: Path, i: nat)
    requires i < |parent| && Underway(s0, s, pool, owners, todo, done) && Reachable(s, pool, owner, parent[..i])
    requires Ready(s', pool, owners, todo) && FoldersOnly(s, s')
    ensures Underway(s0, s', pool, owners, todo, done)
    ensures ActiveDirAt(s', FolderKey(pool, owner, parent[..i + 1])) && ValidName(parent[i]) ==>
              && Underway(s0, s', pool, owners, todo, done + {(owner, parent[..i + 1])})
              && Reachable(s', pool, owner, parent[..i + 1])
  {
    if ActiveDirAt(s', FolderKey(pool, owner, parent[..i + 1])) && ValidName(parent[i]) {
      ReachFurther(s, s', pool, owner, parent, i);
      assert parent[..i + 1][i] == parent[i];
    }
  }

  /** materializeAncestors: a row for every folder on the way down, one level at a time, up
      to the first whose name is refused; done remembers the folders made for earlier
      files. */
  method MaterializeAncestors(svc: FileService, pool: string, owner: string, parent: Path, done: set<(string, Path)>,
                              now: int, ghost ready: bool, ghost owners: set<string>, ghost todo: set<Key>,
                              ghost target: Key)
    returns (ok: bool, done': set<(string, Path)>)
    requires Steady(svc, now) && pool != "" && pool in svc.env.pools
    requires (parent != [] ==> UserPath(parent)) && target.pool == pool && target.owner == owner
             && target.parent == parent
    requires ready ==> Ready(svc.St(), pool, owners, todo) && target in todo && owner in owners
    requires ready ==> AllMade(svc.St(), pool, done)
    modifies svc`directories, svc`clock, svc.prov
    ensures Steady(svc, now)
    ensures ready ==> Underway(old(svc.St()), svc.St(), pool, owners, todo, done')
    ensures ready ==> (ok <==> forall x | x in parent :: ValidName(x))
    ensures ready && ok ==> Reachable(svc.St(), pool, owner, parent)
  {
    ok, done' := true, done;
    ghost var s0 := svc.St();
    var i := 0;
    while i < |parent| && ok
      invariant 0 <= i <= |parent| && Steady(svc, now)
      invariant ready ==> Underway(s0, svc.St(), pool, owners, todo, done')
      invariant ready ==> (ok <==> forall j | 0 <= j < i :: ValidName(parent[j]))
      invariant ready && ok ==> Reachable(svc.St(), pool, owner, parent[..i])
    {
      ok, done' := MaterializeLevel(svc, pool, owner, parent, i, done', now, ready, owners, todo, target, s0);
      i := i + 1;
    }
    assert ok ==> parent[..i] == parent;
  }

  method MaterializeLevel(svc: FileService, pool: string, owner: string, parent: Path, i: nat,
                          done: set<(string, Path)>, now: int, ghost ready: bool, ghost owners: set<string>,
                          ghost todo: set<Key>, ghost target: Key, ghost s0: State)
    returns (ok: bool, done': set<(string, Path)>)
    requires Steady(svc, now) && pool != "" && pool in svc.env.pools
    requires UserPath(parent) && i < |parent| && target.pool == pool && target.owner == owner && target.parent == parent
    requires ready ==> target in todo && owner in owners && Underway(s0, svc.St(), pool, owners, todo, done)
                       && Reachable(svc.St(), pool, owner, parent[..i])
    modifies svc`directories, svc`clock, svc.prov
    ensures Steady(svc, now)
    ensures ready ==> Underway(s0, svc.St(), pool, owners, todo, done') && (ok <==> ValidName(parent[i]))
    ensures ready && ok ==> Reachable(svc.St(), pool, owner, parent[..i + 1])
  {
    ok, done' := true, done;
    ghost var s := svc.St();
    PrefixIsUserPath(parent, i + 1);
    if (owner, parent[..i + 1]) in done {
      if ready {
        RememberedIsMade(s, pool, done, owner, parent, i);
        ReachFurther(s, s, pool, owner, parent, i);
      }
      return;
    }
    ok := MakeFolder(svc, pool, owner, parent[..i + 1], now, ready, owners, todo, target);
    if ready {
      LevelIsMade(s0, s, svc.St(), pool, owners, todo, done, owner, parent, i);
    }
    if ok {
      done' := done + {(owner, parent[..i + 1])};
    }
  }

  // ----- the files of a backup

  /** Nothing that was back is gone again. */
  ghost predicate Grows(s: State, s': State) {
    && (forall x | ActiveDirAt(s, x) :: ActiveDirAt(s', x))
    && (forall x, sha | InPlace(s, x, sha) :: InPlace(s', x, sha))
  }

  lemma FoldersGrow(s: State, s': State)
    requires FoldersOnly(s, s')
    ensures Grows(s, s')
  {}

  lemma FileIsBack(env: Env, s0: State, s: State, s': State, pool: string, owners: set<string>, todo: set<Key>,
                   done: set<(string, Path)>, e: FileEntry, data: Bytes, newId: string, stagingId: string, now: int)
    requires Underway(s0, s, pool, owners, todo, done) && Reachable(s, pool, e.owner, e.parent)
             && KeyIn(pool, e) in todo
    requires forall k | k in todo :: UserPath(k.Full())
    requires UserPath(e.parent + [e.name]) && pool != "" && Sha256(data) == e.sha && newId !in s.files
    requires FindFile(s.files, KeyIn(pool, e)).None?
    requires s' == Uploaded(env, s, PoolUpload(pool, e, data), newId, stagingId, now)
    ensures Ready(s', pool, owners, todo - {KeyIn(pool, e)}) && AllMade(s', pool, done)
    ensures Back(s', pool, e) && Grows(s0, s')
  {
    UploadLeavesReady(env, s, pool, owners, todo, e, data, newId, stagingId, now);
    SameFolders(s, s');
  }

  lemma SameFolders(s: State, s': State)
    requires s'.dirs == s.dirs
    ensures forall x :: ActiveDirAt(s', x) == ActiveDirAt(s, x)
  {}

  /** One file: its folders, then its content as an upload. */
  method RestoreFile(svc: FileService, pool: string, e: FileEntry, data: Bytes, done: set<(string, Path)>,
                     stagingId: string, now: int, ghost ready: bool, ghost owners: set<string>, ghost todo: set<Key>)
    returns (ok: bool, done': set<(string, Path)>)
    requires Steady(svc, now) && pool != "" && pool in svc.env.pools
    requires UserPath(e.parent + [e.name]) && Sha256(data) == e.sha
    requires ready ==> Ready(svc.St(), pool, owners, todo) && KeyIn(pool, e) in todo && e.owner in owners
                       && AllMade(svc.St(), pool, done) && forall k | k in todo :: UserPath(k.Full())
    modifies svc, svc.prov
    ensures Steady(svc, now)
    ensures ready ==> (ok <==> Nameable(e)) && AllMade(svc.St(), pool, done') && Grows(old(svc.St()), svc.St())
    ensures ready && ok ==> Ready(svc.St(), pool, owners, todo - {KeyIn(pool, e)}) && Back(svc.St(), pool, e)
    ensures ready && !ok ==> Ready(svc.St(), pool, owners, todo)
  {
    ghost var s0 := svc.St();
    ParentIsUserPath(e);
    ok, done' := MaterializeAncestors(svc, pool, e.owner, e.parent, done, now, ready, owners, todo, KeyIn(pool, e));
    ghost var s := svc.St();
    if ready {
      FoldersGrow(s0, s);
    }
    if !ok {
      return;
    }
    var newId := FreshId(svc.files.Keys);
    PoolUploadKey(svc.env, pool, e, data);
    if ready && ValidName(e.name) {
      UploadGoes(svc.env, s, pool, owners, todo, e, data);
      FileIsBack(svc.env, s0, s, Uploaded(svc.env, s, PoolUpload(pool, e, data), newId, stagingId, now),
                 pool, owners, todo, done', e, data, newId, stagingId, now);
    }
    ok := UploadPlain(svc, PoolUpload(pool, e, data), newId, stagingId, now);
  }

  lemma ParentIsUserPath(e: FileEntry)
    requires UserPath(e.parent + [e.name])
    ensures e.parent != [] ==> UserPath(e.parent)
  {}

  method UploadPlain(svc: FileService, up: UploadInput, newId: string, stagingId: string, now: int) returns (ok: bool)
    requires Steady(svc, now) && newId !in svc.files && !Reserved(UploadKey(svc.env, up))
    modifies svc, svc.prov
    ensures Steady(svc, now)
    ensures UploadError(svc.env, old(svc.St()), up).None? ==>
              ok && up.source.Complete? && svc.St() == Uploaded(svc.env, old(svc.St()), up, newId, stagingId, now)
    ensures !ValidName(up.name) ==> !ok && svc.St() == old(svc.St())
  {
    ghost var s := svc.St();
    var r := svc.Upload(up, newId, stagingId, now);
    ok := r.Ok?;
    UploadClock(svc.env, s, up, newId, stagingId, now, svc.St(), if r.Err? then Some(r.error) else None);
  }

  lemma UploadClock(env: Env, s: State, up: UploadInput, newId: string, stagingId: string, now: int, s': State,
                    err: Option<Error>)
    requires s.clock <= now && UploadStep(env, s, up, newId, stagingId, now, s', err)
    ensures s'.clock <= now
  {}

  // ----- the files of one pool

  function KeysIn(pool: string, files: seq<FileEntry>): set<Key> {
    set e | e in files :: KeyIn(pool, e)
  }

  ghost predicate FilesApart(pool: string, files: seq<FileEntry>) {
    forall i, j | 0 <= i < j < |files| :: KeyIn(pool, files[i]) != KeyIn(pool, files[j])
  }

  /** Every file of the first n that can come back is back. */
  ghost predicate AllBack(v: Vault, s: State, pool: string, pe: PoolEntry, n: nat)
    requires n <= |pe.files|
  {
    forall i | 0 <= i < n && Comes(v, pe.pool, pe.files[i]) :: Back(s, pool, pe.files[i])
  }

  lemma AllBackStays(v: Vault, s: State, s': State, pool: string, pe: PoolEntry, n: nat)
    requires n <= |pe.files| && AllBack(v, s, pool, pe, n) && Grows(s, s')
    ensures AllBack(v, s', pool, pe, n)
  {}

  /** The places still empty when the first i files have been dealt with: those to come, and
      those of files that could not come back. */
  function StillOut(v: Vault, pool: string, pe: PoolEntry, i: nat): set<Key> {
    set j | 0 <= j < |pe.files| && (j >= i || !Comes(v, pe.pool, pe.files[j])) :: KeyIn(pool, pe.files[j])
  }

  lemma AllStillOut(v: Vault, pool: string, pe: PoolEntry)
    ensures StillOut(v, pool, pe, 0) == KeysIn(pool, pe.files)
  {
    forall k | k in KeysIn(pool, pe.files) ensures k in StillOut(v, pool, pe, 0) {
      var j :| 0 <= j < |pe.files| && KeyIn(pool, pe.files[j]) == k;
    }
  }

  lemma StillOutShrinks(v: Vault, pool: string, pe: PoolEntry, i: nat, rest: set<Key>)
    requires i < |pe.files| && FilesApart(pool, pe.files) && KeysIn(pool, pe.files) !! rest
    ensures KeyIn(pool, pe.files[i]) in StillOut(v, pool, pe, i) + rest
    ensures StillOut(v, pool, pe, i + 1) + rest
         == StillOut(v, pool, pe, i) + rest - (if Comes(v, pe.pool, pe.files[i]) then {KeyIn(pool, pe.files[i])}
                                               else {})
  {
    assert KeyIn(pool, pe.files[i]) in KeysIn(pool, pe.files);
  }

  /** How many of the first n files do not come back. */
  function Lost(v: Vault, pe: PoolEntry, n: nat): nat
    requires n <= |pe.files|
  {
    if n == 0 then 0 else Lost(v, pe, n - 1) + if Comes(v, pe.pool, pe.files[n - 1]) then 0 else 1
  }

  /** The pool's files are apart from each other and from the rest, and have their owners
      among these. */
  ghost predicate PoolSuits(pool: string, owners: set<string>, rest: set<Key>, pe: PoolEntry) {
    && FilesApart(pool, pe.files) && KeysIn(pool, pe.files) !! rest && (forall k | k in rest :: UserPath(k.Full()))
    && (forall e | e in pe.files :: UserPath(e.parent + [e.name]) && e.owner in owners)
  }

  /** Where the restore of one pool's files stands before file i. */
  ghost predicate Restoring(v: Vault, s0: State, s: State, pool: string, owners: set<string>, rest: set<Key>,
                            pe: PoolEntry, i: nat, done: set<(string, Path)>)
    requires i <= |pe.files|
  {
    && Ready(s, pool, owners, StillOut(v, pool, pe, i) + rest) && AllMade(s, pool, done)
    && AllBack(v, s, pool, pe, i) && Grows(s0, s)
  }

  /** And how many files have failed. */
  ghost predicate RestoringWith(v: Vault, s0: State, s: State, pool: string, owners: set<string>, rest: set<Key>,
                                pe: PoolEntry, i: nat, done: set<(string, Path)>, failed: nat)
    requires i <= |pe.files|
  {
    Restoring(v, s0, s, pool, owners, rest, pe, i, done) && failed == Lost(v, pe, i)
  }

  lemma RestoringBegins(v: Vault, s: State, pool: string, owners: set<string>, rest: set<Key>, pe: PoolEntry,
                        done: set<(string, Path)>)
    requires Ready(s, pool, owners, KeysIn(pool, pe.files) + rest) && AllMade(s, pool, done)
    ensures Restoring(v, s, s, pool, owners, rest, pe, 0, done)
  {
    AllStillOut(v, pool, pe);
  }

  lemma RestoringGoesOn(v: Vault, s0: State, s: State, s': State, pool: string, owners: set<string>, rest: set<Key>,
                        pe: PoolEntry, i: nat, done: set<(string, Path)>, done': set<(string, Path)>)
    requires i < |pe.files| && Restoring(v, s0, s, pool, owners, rest, pe, i, done) && PoolSuits(pool, owners, rest, pe)
    requires AllMade(s', pool, done') && Grows(s, s')
    requires var todo := StillOut(v, pool, pe, i) + rest;
             Ready(s', pool, owners, todo - if Comes(v, pe.pool, pe.files[i]) then {KeyIn(pool, pe.files[i])} else {})
    requires Comes(v, pe.pool, pe.files[i]) ==> Back(s', pool, pe.files[i])
    ensures Restoring(v, s0, s', pool, owners, rest, pe, i + 1, done')
  {
    StillOutShrinks(v, pool, pe, i, rest);
    AllBackStays(v, s, s', pool, pe, i);
  }

  lemma OutIsListed(v: Vault, pool: string, pe: PoolEntry, i: nat)
    requires forall e | e in pe.files :: UserPath(e.parent + [e.name])
    ensures var out := StillOut(v, pool, pe, i);
            out <= KeysIn(pool, pe.files) && forall k | k in out :: UserPath(k.Full())
  {
    forall k | k in StillOut(v, pool, pe, i) ensures k in KeysIn(pool, pe.files) && UserPath(k.Full()) {
      var j :| 0 <= j < |pe.files| && KeyIn(pool, pe.files[j]) == k;
      var e := pe.files[j];
      assert e in pe.files && KeyIn(pool, e).Full() == e.parent + [e.name];
    }
  }

  lemma EntrySuits(v: Vault, pool: string, owners: set<string>, rest: set<Key>, pe: PoolEntry, i: nat)
    requires PoolSuits(pool, owners, rest, pe) && i < |pe.files|
    ensures KeyIn(pool, pe.files[i]) in StillOut(v, pool, pe, i) + rest && pe.files[i].owner in owners
    ensures forall k | k in StillOut(v, pool, pe, i) + rest :: UserPath(k.Full())
  {
    StillOutShrinks(v, pool, pe, i, rest);
    OutIsListed(v, pool, pe, i);
  }

  /** The service is steady, the files lie in users' areas and, if the pool was free, the
      restore stands before file i. */
  ghost predicate AtEntry(svc: FileService, now: int, ready: bool, v: Vault, s0: State, pool: string,
                          owners: set<string>, rest: set<Key>, pe: PoolEntry, i: nat, done: set<(string, Path)>,
                          failed: nat)
    requires i <= |pe.files|
    reads svc, svc.prov
  {
    && Steady(svc, now) && (forall e | e in pe.files :: UserPath(e.parent + [e.name]))
    && (ready ==> PoolSuits(pool, owners, rest, pe))
    && (ready ==> RestoringWith(v, s0, svc.St(), pool, owners, rest, pe, i, done, failed))
  }

  /** One file of the manifest: checked first, then put back. */
  method RestoreEntry(m: Manager, root: string, job: string, key: Option<Bytes>, pe: PoolEntry, i: nat, pool: string,
                      done: set<(string, Path)>, stagingId: string, now: int,
                      ghost ready: bool, ghost v: Vault, ghost owners: set<string>, ghost rest: set<Key>,
                      ghost s0: State, ghost failed: nat)
    returns (ok: bool, done': set<(string, Path)>)
    requires pool != "" && pool in m.svc.env.pools && i < |pe.files|
    requires v == Vault(m.cipher, m.dest.disk, root, job, key)
    requires AtEntry(m.svc, now, ready, v, s0, pool, owners, rest, pe, i, done, failed)
    modifies m.svc, m.svc.prov
    ensures AtEntry(m.svc, now, ready, v, s0, pool, owners, rest, pe, i + 1, done', if ok then failed else failed + 1)
  {
    done' := done;
    var e := pe.files[i];
    assert e in pe.files;
    ghost var s := m.svc.St();
    ok := m.VerifyFile(root, job, key, pe.pool, e);
    if ok {
      if ready {
        EntrySuits(v, pool, owners, rest, pe, i);
      }
      var b := m.dest.OpenFile(CopyOf(root, job, pe.pool, e));
      ok, done' := RestoreFile(m.svc, pool, e, Plain(m.cipher, key, e.iv, b.value.bytes), done, stagingId, now,
                               ready, owners, StillOut(v, pool, pe, i) + rest);
    } else {
      SelfGrows(s);
    }
    if ready {
      RestoringGoesOn(v, s0, s, m.svc.St(), pool, owners, rest, pe, i, done, done');
    }
  }

  lemma SelfGrows(s: State)
    ensures Grows(s, s)
  {}

  method RestorePoolFiles(m: Manager, root: string, job: string, key: Option<Bytes>, pe: PoolEntry, pool: string,
                          done: set<(string, Path)>, stagingId: string, now: int,
                          ghost ready: bool, ghost v: Vault, ghost owners: set<string>, ghost rest: set<Key>,
                          ghost s0: State)
    returns (restored: nat, failed: nat, done': set<(string, Path)>)
    requires pool != "" && pool in m.svc.env.pools
    requires v == Vault(m.cipher, m.dest.disk, root, job, key)
    requires AtEntry(m.svc, now, ready, v, s0, pool, owners, rest, pe, 0, done, 0)
    modifies m.svc, m.svc.prov
    ensures restored + failed == |pe.files|
    ensures AtEntry(m.svc, now, ready, v, s0, pool, owners, rest, pe, |pe.files|, done', failed)
  {
    failed, done' := 0, done;
    var i := 0;
    while i < |pe.files|
      invariant 0 <= i <= |pe.files| && failed <= i
      invariant AtEntry(m.svc, now, ready, v, s0, pool, owners, rest, pe, i, done', failed)
    {
      var ok;
      ok, done' := RestoreEntry(m, root, job, key, pe, i, pool, done', stagingId, now, ready, v, owners, rest, s0,
                                failed);
      failed := if ok then failed else failed + 1;
      i := i + 1;
    }
    restored := i - failed;
  }

  // ----- the whole backup

  function AllKeys(pool: string, entries: seq<PoolEntry>): set<Key> {
    if entries == [] then {} else KeysIn(pool, entries[0].files) + AllKeys(pool, entries[1..])
  }

  /** In the one pool they are restored into, the files of the backup are all different. */
  ghost predicate Apart(pool: string, entries: seq<PoolEntry>) {
    entries != [] ==>
      && FilesApart(pool, entries[0].files) && KeysIn(pool, entries[0].files) !! AllKeys(pool, entries[1..])
      && Apart(pool, entries[1..])
  }

  predicate AllUserPaths(entries: seq<PoolEntry>) {
    forall pe, e | pe in entries && e in pe.files :: UserPath(e.parent + [e.name])
  }

  function OwnersOf(entries: seq<PoolEntry>): set<string> {
    set pe, e | pe in entries && e in pe.files :: e.owner
  }

  function LostIn(v: Vault, entries: seq<PoolEntry>): nat {
    if entries == [] then 0
    else
      var last := entries[|entries| - 1];
      LostIn(v, entries[..|entries| - 1]) + Lost(v, last, |last.files|)
  }

  /** What the target pool must be like: none of these owners' trash, nothing in the way at
      the places of the backup's files, which are all different and lie in users' areas. */
  ghost predicate PoolFree(s: State, pool: string, entries: seq<PoolEntry>) {
    && Ready(s, pool, OwnersOf(entries), AllKeys(pool, entries))
    && Apart(pool, entries) && AllUserPaths(entries)
  }

  /** Where the restore stands before pool entry i; left are the places of the files that
      could not come back. */
  ghost predicate Advancing(v: Vault, s: State, pool: string, entries: seq<PoolEntry>, i: nat, left: set<Key>,
                            done: set<(string, Path)>)
    requires i <= |entries|
  {
    && Ready(s, pool, OwnersOf(entries), AllKeys(pool, entries[i..]) + left) && AllMade(s, pool, done)
    && Apart(pool, entries[i..]) && left !! AllKeys(pool, entries[i..]) && (forall k | k in left :: UserPath(k.Full()))
    && (forall a | 0 <= a < i :: Decided(v, s, pool, entries[a], left))
  }

  /** The pool's files that can come back are back, and the places of the others are left. */
  ghost predicate Decided(v: Vault, s: State, pool: string, pe: PoolEntry, left: set<Key>) {
    AllBack(v, s, pool, pe, |pe.files|) && StillOut(v, pool, pe, |pe.files|) <= left
  }

  lemma {:induction false} KeysArePaths(pool: string, entries: seq<PoolEntry>)
    requires AllUserPaths(entries)
    ensures forall k | k in AllKeys(pool, entries) :: UserPath(k.Full())
    decreases |entries|
  {
    if entries != [] {
      assert forall pe | pe in entries[1..] :: pe in entries;
      KeysArePaths(pool, entries[1..]);
      forall k | k in KeysIn(pool, entries[0].files) ensures UserPath(k.Full()) {
        var e :| e in entries[0].files && KeyIn(pool, e) == k;
        assert entries[0] in entries && k.Full() == e.parent + [e.name];
      }
    }
  }

  function RestOf(pool: string, entries: seq<PoolEntry>, i: nat, left: set<Key>): set<Key>
    requires i < |entries|
  {
    AllKeys(pool, entries[i + 1..]) + left
  }

  lemma PoolStarts(v: Vault, s: State, pool: string, entries: seq<PoolEntry>, i: nat, left: set<Key>,
                   done: set<(string, Path)>)
    requires i < |entries| && Advancing(v, s, pool, entries, i, left, done) && AllUserPaths(entries)
    ensures var rest := RestOf(pool, entries, i, left);
            && PoolSuits(pool, OwnersOf(entries), rest, entries[i])
            && Ready(s, pool, OwnersOf(entries), KeysIn(pool, entries[i].files) + rest)
  {
    assert entries[i..][0] == entries[i] && entries[i..][1..] == entries[i + 1..];
    assert entries[i] in entries;
    assert forall pe | pe in entries[i + 1..] :: pe in entries;
    KeysArePaths(pool, entries[i + 1..]);
    assert KeysIn(pool, entries[i].files) + RestOf(pool, entries, i, left) == AllKeys(pool, entries[i..]) + left;
  }

  lemma PoolEnds(v: Vault, s: State, s': State, pool: string, entries: seq<PoolEntry>, i: nat, left: set<Key>,
                 done: set<(string, Path)>, done': set<(string, Path)>)
    requires i < |entries| && Advancing(v, s, pool, entries, i, left, done) && AllUserPaths(entries)
    requires Restoring(v, s, s', pool, OwnersOf(entries), RestOf(pool, entries, i, left), entries[i],
                       |entries[i].files|, done')
    ensures Advancing(v, s', pool, entries, i + 1, left + StillOut(v, pool, entries[i], |entries[i].files|), done')
  {
    var out := StillOut(v, pool, entries[i], |entries[i].files|);
    var rest := AllKeys(pool, entries[i + 1..]);
    assert entries[i..][0] == entries[i] && entries[i..][1..] == entries[i + 1..];
    assert entries[i] in entries;
    OutIsListed(v, pool, entries[i], |entries[i].files|);
    assert out + (rest + left) == rest + (left + out);
    forall a | 0 <= a < i ensures Decided(v, s', pool, entries[a], left + out) {
      assert Decided(v, s, pool, entries[a], left);
      AllBackStays(v, s, s', pool, entries[a], |entries[a].files|);
    }
  }

  /** A file is back if and only if it could come. */
  lemma EachIsDecided(v: Vault, s: State, pool: string, entries: seq<PoolEntry>, left: set<Key>,
                      done: set<(string, Path)>, pe: PoolEntry, e: FileEntry)
    requires Advancing(v, s, pool, entries, |entries|, left, done) && RowsBacked(s.files, s.tree)
    requires pe in entries && e in pe.files
    ensures Back(s, pool, e) <==> Comes(v, pe.pool, e)
  {
    var a :| 0 <= a < |entries| && entries[a] == pe;
    assert Decided(v, s, pool, entries[a], left);
    var i :| 0 <= i < |pe.files| && pe.files[i] == e;
    if !Comes(v, pe.pool, e) {
      assert KeyIn(pool, pe.files[i]) in StillOut(v, pool, pe, |pe.files|);
      NoRowThere(s, AllKeys(pool, entries[|entries|..]) + left, KeyIn(pool, e));
    }
  }

  lemma AdvancingBegins(v: Vault, s: State, pool: string, entries: seq<PoolEntry>)
    requires PoolFree(s, pool, entries)
    ensures Advancing(v, s, pool, entries, 0, {}, {})
  {
    assert entries[0..] == entries;
    assert AllKeys(pool, entries) + {} == AllKeys(pool, entries);
  }

  method RestoreNext(m: Manager, root: string, job: string, key: Option<Bytes>, entries: seq<PoolEntry>, i: nat,
                     pool: string, done: set<(string, Path)>, stagingId: string, now: int,
                     ghost ready: bool, ghost v: Vault, ghost left: set<Key>)
    returns (restored: nat, failed: nat, done': set<(string, Path)>)
    requires Steady(m.svc, now) && pool != "" && pool in m.svc.env.pools
    requires AllUserPaths(entries) && i < |entries| && v == Vault(m.cipher, m.dest.disk, root, job, key)
    requires ready ==> Advancing(v, m.svc.St(), pool, entries, i, left, done)
    modifies m.svc, m.svc.prov
    ensures Steady(m.svc, now) && restored + failed == |entries[i].files|
    ensures ready ==>
              && Advancing(v, m.svc.St(), pool, entries, i + 1,
                           left + StillOut(v, pool, entries[i], |entries[i].files|), done')
              && failed == Lost(v, entries[i], |entries[i].files|)
  {
    assert entries[i] in entries;
    ghost var s := m.svc.St();
    if ready {
      PoolStarts(v, s, pool, entries, i, left, done);
      RestoringBegins(v, s, pool, OwnersOf(entries), RestOf(pool, entries, i, left), entries[i], done);
    }
    restored, failed, done' := RestorePoolFiles(m, root, job, key, entries[i], pool, done, stagingId, now, ready, v,
                                                OwnersOf(entries), RestOf(pool, entries, i, left), s);
    if ready {
      PoolEnds(v, s, m.svc.St(), pool, entries, i, left, done, done');
    }
  }

  method RestoreEntries(m: Manager, root: string, job: string, key: Option<Bytes>, entries: seq<PoolEntry>,
                        pool: string, stagingId: string, now: int, ghost ready: bool, ghost v: Vault)
    returns (restored: nat, failed: nat)
    requires Steady(m.svc, now) && pool != "" && pool in m.svc.env.pools
    requires AllUserPaths(entries) && v == Vault(m.cipher, m.dest.disk, root, job, key)
    requires ready ==> PoolFree(m.svc.St(), pool, entries)
    modifies m.svc, m.svc.prov
    ensures Steady(m.svc, now) && restored + failed == CountIn(entries)
    ensures ready ==>
              && (forall pe, e | pe in entries && e in pe.files :: Back(m.svc.St(), pool, e) <==> Comes(v, pe.pool, e))
              && failed == LostIn(v, entries)
  {
    restored, failed := 0, 0;
    var done: set<(string, Path)> := {};
    ghost var left: set<Key> := {};
    if ready {
      AdvancingBegins(v, m.svc.St(), pool, entries);
    }
    var i := 0;
    while i < |entries|
      invariant 0 <= i <= |entries| && restored + failed == CountIn(entries[..i])
      invariant Steady(m.svc, now)
      invariant ready ==> Advancing(v, m.svc.St(), pool, entries, i, left, done) && failed == LostIn(v, entries[..i])
    {
      assert entries[..i + 1][..i] == entries[..i];
      var a, b;
      a, b, done := RestoreNext(m, root, job, key, entries, i, pool, done, stagingId, now, ready, v, left);
      left := left + StillOut(v, pool, entries[i], |entries[i].files|);
      restored, failed := restored + a, failed + b;
      i := i + 1;
    }
    assert entries[..i] == entries;
    if ready {
      AllDecided(v, m.svc.St(), pool, entries, left, done);
    }
  }

  lemma AllDecided(v: Vault, s: State, pool: string, entries: seq<PoolEntry>, left: set<Key>, done: set<(string, Path)>)
    requires Advancing(v, s, pool, entries, |entries|, left, done) && Agreement(s)
    ensures forall pe, e | pe in entries && e in pe.files :: Back(s, pool, e) <==> Comes(v, pe.pool, e)
  {
    forall pe, e | pe in entries && e in pe.files ensures Back(s, pool, e) <==> Comes(v, pe.pool, e) {
      EachIsDecided(v, s, pool, entries, left, done, pe, e);
    }
  }

  /** RestoreToPool: into an active pool, file by file; into a free one, exactly the files
      come back that can be read from the backup and whose names the service takes, and each
      can then be reached folder by folder. */
  method RestoreToPool(m: Manager, jobId: string, pool: string, pass: string, stagingId: string, now: int)
    returns (r: Reply<PoolRestore>, ghost o: Opened)
    requires Steady(m.svc, now) && pool != "" && pool in m.svc.env.pools
    requires forall x | IsOpened(m.cipher, m.dest.disk, m.jobs, jobId, pass, x) :: AllUserPaths(x.manifest.pools)
    modifies m.svc, m.svc.prov
    ensures Agreement(m.svc.St())
    ensures r.Bad? ==> m.svc.St() == old(m.svc.St())
    ensures r == Bad(NoSuchPool) <==> forall p | p in m.pools :: p.id != pool
    ensures r == Bad(PoolNotActive) ==> exists p | p in m.pools :: p.id == pool && !p.active
    ensures r.Bad? && r.error != NoSuchPool && r.error != PoolNotActive ==>
              NotOpened(m.dest.disk, m.jobs, jobId, pass, r.error)
    ensures DistinctJobs(m.jobs) && DistinctPools(m.pools) ==>
              (r.Good? <==> && (exists p | p in m.pools :: p.id == pool && p.active)
                            && (exists j | j in m.jobs :: j.id == jobId && CanOpen(m.dest.disk, j, pass)))
    ensures r.Good? ==>
              && IsOpened(m.cipher, m.dest.disk, m.jobs, jobId, pass, o)
              && (exists p | p in m.pools :: p.id == pool && p.active)
              && r.value.restored + r.value.failed == CountIn(o.manifest.pools)
    ensures r.Good? && PoolFree(old(m.svc.St()), pool, o.manifest.pools) ==>
              var v := Vault(m.cipher, m.dest.disk, o.job.root, jobId, o.key);
              && (forall pe, e | pe in o.manifest.pools && e in pe.files ::
                    Back(m.svc.St(), pool, e) <==> Comes(v, pe.pool, e))
              && r.value.failed == LostIn(v, o.manifest.pools)
  {
    o := Opened(Job("", Failed, "", [], 0, 0, 0), Manifest("", 0, [], false, []), None);
    if p :| p in m.pools && p.id == pool {
      if !p.active {
        return Bad(PoolNotActive), o;
      }
    } else {
      return Bad(NoSuchPool), o;
    }
    var found := m.OpenBackup(jobId, pass);
    if found.Bad? {
      return Bad(found.error), o;
    }
    o := found.value;
    var restored, failed := RestoreEntries(m, found.value.job.root, jobId, found.value.key, found.value.manifest.pools,
                                           pool, stagingId, now,
                                           PoolFree(m.svc.St(), pool, o.manifest.pools),
                                           Vault(m.cipher, m.dest.disk, o.job.root, jobId, o.key));
    r := Good(PoolRestore(restored, failed));
  }

  /** A file whose parent folder has a name with an invalid character: the upload is
      accepted, on an empty storage for one, and so it can be backed up; but no folder of
      that name can be made, so it does not come back. */
  lemma UploadedButNotNameable(env: Env, s: State, owner: string, pool: string, folder: Segment, name: Segment,
                               data: Bytes)
    requires pool != "" && pool in env.pools && s == State(map[], map[], map[], Tree(map[], {}), 0)
    requires ValidSegment(folder) && !ValidName(folder) && folder != STAGING && folder != VERSIONS && ValidName(name)
    ensures var up := UploadInput(owner, "/" + folder, name, Complete(data), pool, false);
            var k := Key(pool, owner, [folder], name);
            && UploadKey(env, up) == k && !Reserved(k) && UploadError(env, s, up).None?
            && MkdirError(env, s, Key(pool, owner, [], folder)) == Some(InvalidName)
            && forall e: FileEntry | KeyIn(pool, e) == k :: !Nameable(e)
  {
    OneFolder(folder);
    var k := Key(pool, owner, [folder], name);
    assert k.Full() == [folder, name];
    forall e: FileEntry | KeyIn(pool, e) == k ensures !Nameable(e) {
      assert e.parent[0] in e.parent;
    }
  }

  lemma OneFolder(folder: Segment)
    requires ValidSegment(folder)
    ensures CleanSegments("/" + folder) == [folder]
  {
    assert [folder][1..] == [] && Tail([folder]) == "/" + folder;
    RenderReadsBack([folder]);
  }

  /** Such a folder is "/a:b". */
  lemma ColonFolder(env: Env, s: State, owner: string, pool: string, name: Segment, data: Bytes)
    requires pool != "" && pool in env.pools && s == State(map[], map[], map[], Tree(map[], {}), 0) && ValidName(name)
    ensures var k := Key(pool, owner, ["a:b"], name);
            && UploadError(env, s, UploadInput(owner, "/a:b", name, Complete(data), pool, false)).None?
            && MkdirError(env, s, Key(pool, owner, [], "a:b")) == Some(InvalidName)
            && forall e: FileEntry | KeyIn(pool, e) == k :: !Nameable(e)
  {
    var c := "a:b"[1];
    assert c == ':' && c in "a:b" && InvalidChar(c);
    assert |STAGING| != 3 && |VERSIONS| != 3 && "/" + "a:b" == "/a:b";
    UploadedButNotNameable(env, s, owner, pool, "a:b", name, data);
  }

  // ----- which pools are free

  /** No row of these owners in the pool. */
  ghost predicate NoRows(s: State, pool: string, owners: set<string>) {
    && (forall f | f in s.files :: !(s.files[f].key.pool == pool && s.files[f].key.owner in owners))
    && (forall d | d in s.dirs :: !(s.dirs[d].key.pool == pool && s.dirs[d].key.owner in owners))
  }

  /** A pool without rows of the backup's owners, and without stray folders at the files'
      places, is free for every backup whose files are different there and never nest. */
  lemma EmptyPoolIsFree(s: State, pool: string, entries: seq<PoolEntry>)
    requires Agreement(s) && NoRows(s, pool, OwnersOf(entries))
    requires forall k | k in AllKeys(pool, entries) :: At(k) !in s.tree.dirs
    requires Apart(pool, entries) && NoNesting(AllKeys(pool, entries)) && AllUserPaths(entries)
    ensures PoolFree(s, pool, entries)
  {
    forall k | k in AllKeys(pool, entries) ensures !Blocked(s.tree, At(k)) {
      KeyIsOwned(pool, entries, k);
      NothingOnTheWay(s, pool, k);
    }
  }

  lemma {:induction false} KeyIsOwned(pool: string, entries: seq<PoolEntry>, k: Key)
    requires k in AllKeys(pool, entries)
    ensures k.pool == pool && k.owner in OwnersOf(entries)
    decreases |entries|
  {
    if k in KeysIn(pool, entries[0].files) {
      var e :| e in entries[0].files && KeyIn(pool, e) == k;
      assert entries[0] in entries;
    } else {
      KeyIsOwned(pool, entries[1..], k);
      var pe, e :| pe in entries[1..] && e in pe.files && e.owner == k.owner;
      assert pe in entries;
    }
  }

  lemma NothingOnTheWay(s: State, pool: string, k: Key)
    requires Agreement(s) && NoRows(s, pool, {k.owner}) && k.pool == pool
    ensures !Blocked(s.tree, At(k))
  {
    forall i | 0 <= i <= |At(k)| ensures At(k)[..i] !in s.tree.content {
      if At(k)[..i] in s.tree.content {
        RecordIsOwned(s, pool, k.owner, At(k)[..i]);
      }
    }
  }

  /** A physical file in the owner's area of the pool has a row there. */
  lemma RecordIsOwned(s: State, pool: string, owner: string, p: Path)
    requires HistoryBacked(s.files, s.versions, s.tree) && NothingElse(s.files, s.versions, s.tree)
    requires NoRows(s, pool, {owner}) && p in s.tree.content
    ensures !(|p| >= 2 && p[0] == pool && p[1] == owner) && |p| >= 2
  {
    assert Recorded(s.files, s.versions, p);
    if id :| id in s.files && At(s.files[id].key) == p {
      assert p[0] == s.files[id].key.pool;
    } else {
      var id := p[3];
      assert ListBacked(s.tree, s.files[id].key, id, s.versions[id]);
      var i :| 0 <= i < |s.versions[id]| && s.versions[id][i].key == p;
      assert VersionBacked(s.tree, s.files[id].key, id, s.versions[id][i]);
    }
  }

  /** The backup of one pool of a storage in agreement fits every such pool. */
  lemma BackupFitsEmptyPool(s: State, pool: string, source: State, pe: PoolEntry)
    requires Agreement(s) && NoRows(s, pool, OwnersOf([pe]))
    requires forall k | k in KeysIn(pool, pe.files) :: At(k) !in s.tree.dirs
    requires Agreement(source) && Mirrors(source.files, pe)
    ensures PoolFree(s, pool, [pe])
  {
    BackedUpFilesNeverNest(source, pe, pool);
    SinglePoolApart(pool, pe);
    assert [pe][1..] == [] && AllKeys(pool, [pe][1..]) == {};
    assert AllKeys(pool, [pe]) == KeysIn(pool, pe.files);
    EmptyPoolIsFree(s, pool, [pe]);
  }

  /** The files of a single pool stay different in another. */
  lemma SinglePoolApart(pool: string, pe: PoolEntry)
    requires FilesApart(pe.pool, pe.files)
    ensures Apart(pool, [pe])
  {}

  /** The files a run backs up have proper paths, and never nest: on a disk no file lies
      above another. */
  lemma BackedUpFilesNeverNest(s: State, pe: PoolEntry, pool: string)
    requires Agreement(s) && OnlyActive(s.files, pe)
    ensures forall e | e in pe.files :: UserPath(e.parent + [e.name])
    ensures NoNesting(KeysIn(pool, pe.files))
  {
    forall e | e in pe.files ensures UserPath(e.parent + [e.name]) {
      var f := RowOf(s.files, pe, e);
      assert s.files[f].key.Full() == e.parent + [e.name];
    }
    forall a, b | a in KeysIn(pool, pe.files) && b in KeysIn(pool, pe.files) && a != b ensures !(At(a) <= At(b)) {
      var d :| d in pe.files && KeyIn(pool, d) == a;
      var e :| e in pe.files && KeyIn(pool, e) == b;
      EntriesNeverNest(s.files, s.tree, pe, pool, d, e);
    }
  }

  lemma RowOf(files: map<string, FileRow>, pe: PoolEntry, e: FileEntry) returns (f: string)
    requires OnlyActive(files, pe) && e in pe.files
    ensures f in files && files[f].key == KeyIn(pe.pool, e)
  {
    f :| f in files && files[f].key == KeyIn(pe.pool, e);
  }

  lemma EntriesNeverNest(files: map<string, FileRow>, t: Tree, pe: PoolEntry, pool: string, d: FileEntry, e: FileEntry)
    requires RowsBacked(files, t) && WellFormed(t) && OnlyActive(files, pe) && d in pe.files && e in pe.files
    requires KeyIn(pool, d) != KeyIn(pool, e)
    ensures !(At(KeyIn(pool, d)) <= At(KeyIn(pool, e)))
  {
    var f := RowOf(files, pe, d);
    var g := RowOf(files, pe, e);
    RowsNeverNest(files, t, f, g);
    var a, b := At(KeyIn(pool, d)), At(KeyIn(pool, e));
    assert a[1..] == At(files[f].key)[1..] && b[1..] == At(files[g].key)[1..];
    if a <= b {
      SamePrefix(a, b, At(files[f].key), At(files[g].key));
    }
  }

  lemma SamePrefix(a: Path, b: Path, c: Path, d: Path)
    requires a != [] && b != [] && c != [] && d != [] && a[1..] == c[1..] && b[1..] == d[1..] && c[0] == d[0]
    requires a <= b
    ensures c <= d
  {}

  lemma RowsNeverNest(files: map<string, FileRow>, t: Tree, f: string, g: string)
    requires RowsBacked(files, t) && WellFormed(t) && f in files && g in files && files[f].key != files[g].key
    ensures !(At(files[f].key) <= At(files[g].key))
  {
    var a, b := At(files[f].key), At(files[g].key);
    assert RowBacked(t, files[f]) && RowBacked(t, files[g]);
    assert KeyAt(a) != KeyAt(b);
    if |a| < |b| {
      var p := b[..|a|];
      PrefixIsDir(t, b, |a|);
      assert a != p;
    }
  }
}
