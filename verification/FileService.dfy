/** The service itself (internal/storage/file_service.go): each method changes rows
    and disk step by step, and is proved to make exactly the step of Operations. */
module Service {
  import opened Base
  import opened PathStrings
  import opened PhysicalTree
  import opened StorageModel
  import opened VersionPruning
  import opened Content
  import opened Uploads
  import opened Moves
  import opened MoveTree
  import opened Trash
  import opened Operations
  import opened Effects
  import opened ServiceLemmas

  class FileService {
    const env: Env
    const prov: LocalProvider
    var files: map<string, FileRow>
    var directories: map<string, DirRow>
    var versions: map<string, seq<VersionRow>>
    var clock: int

    constructor (env: Env, prov: LocalProvider)
      requires TreeSound(prov.tree) && prov.tree.content == map[]
      ensures this.env == env && this.prov == prov
      ensures St() == State(map[], map[], map[], prov.tree, 0)
      ensures Agreement(St())
    {
      this.env, this.prov := env, prov;
      files, directories, versions, clock := map[], map[], map[], 0;
    }

    function St(): State
      reads this, prov
    {
      State(files, directories, versions, prov.tree, clock)
    }

    // ----- lookups

    method FindFileRow(k: Key) returns (r: Option<string>)
      requires UniqueKeys(files, directories)
      ensures r == FindFile(files, k)
    {
      if id :| id in files && files[id].key == k {
        r := Some(id);
      } else {
        r := None;
      }
    }

    method FindDirRow(k: Key) returns (r: Option<string>)
      requires UniqueKeys(files, directories)
      ensures r == FindDir(directories, k)
    {
      if id :| id in directories && directories[id].key == k {
        r := Some(id);
      } else {
        r := None;
      }
    }

    // ----- versions

    /** Content first, then the row. */
    method DeleteVersion(id: string, v: VersionRow)
      requires id in versions && v.key in prov.tree.content
      modifies this`versions, prov
      ensures St() == old(St()).(versions := old(versions)[id := Without(old(versions)[id], v.num)],
                                 tree := old(prov.tree).(content := old(prov.tree).content - {v.key}))
      ensures prov.trace == old(prov.trace) + [prov.tree]
    {
      var r := prov.Delete(v.key);
      versions := versions[id := Without(versions[id], v.num)];
    }

    /** enforceMaxVersions: the history is cut to what the limits allow. */
    method EnforceMaxVersions(id: string, now: int, ghost upTo: int)
      requires id in files && id in versions
      requires Ordered(versions[id], upTo) && ListBacked(prov.tree, files[id].key, id, versions[id])
      modifies this`versions, prov
      ensures St() == Cut(old(St()), id, KeepLen(env, now, old(versions[id])))
      ensures OnlyAt(old(prov.tree), KeysOf(old(versions[id])[KeepLen(env, now, old(versions[id]))..]),
                     old(prov.trace), prov.trace)
    {
      ghost var k := KeepLen(env, now, versions[id]);
      VotesDone(St(), id, k);
      if env.maxVersions <= 0 && env.maxAgeDays <= 0 && env.maxBytes <= 0 {
        NoLimits(env, now, versions[id]);
      } else {
        Rounds(env, now, St(), id, upTo);
        PruneVersions(id, now, k);
      }
    }

    /** Walks the history newest first and removes, content and row, every version
        one of the limits votes out. */
    method PruneVersions(id: string, now: int, ghost k: nat)
      requires id in versions && k <= |versions[id]|
      requires forall i | 0 <= i < |versions[id]| :: Round(env, now, St(), id, k, i)
      modifies this`versions, prov
      ensures St() == AfterVotes(old(St()), id, k, |old(versions[id])|)
      ensures OnlyAt(old(prov.tree), KeysOf(old(versions[id])[k..]), old(prov.trace), prov.trace)
    {
      ghost var s0 := St();
      var vs := versions[id];
      var cumulative: nat := 0;
      var i := 0;
      while i < |vs|
        invariant 0 <= i <= |vs| && cumulative == TotalSize(vs[..i])
        invariant St() == AfterVotes(s0, id, k, i)
        invariant OnlyAt(s0.tree, KeysOf(vs[k..]), old(prov.trace), prov.trace)
      {
        var v := vs[i];
        assert Round(env, now, s0, id, k, i);
        cumulative := cumulative + v.size;
        if Vote(env, now, v, i, cumulative) {
          OnlyAtExtend(s0.tree, KeysOf(vs[k..]), old(prov.trace), prov.trace, AfterVotes(s0, id, k, i + 1).tree);
          DeleteVersion(id, v);
        }
        i := i + 1;
      }
    }

    /** snapshotVersion: the file's content moves to the version area, the row of
        the new version is written, and the limits are enforced. */
    method SnapshotVersion(id: string, now: int)
      requires id in files && UserPath(files[id].key.Full()) && RowBacked(prov.tree, files[id])
      requires ListBacked(prov.tree, files[id].key, id, History(St(), id))
      requires Ordered(History(St(), id), files[id].updatedAt)
      requires CanMove(prov.tree, At(files[id].key), NewVersion(St(), id).key)
      modifies this`versions, prov
      ensures St() == Snapshot(env, old(St()), id, now)
      ensures OnlyAt(old(prov.tree), Touched(old(St()), id), old(prov.trace), prov.trace)
      ensures Kept(env, old(St()), id, now) > 0 ==> AlwaysHeld(files[id].sha.of, old(prov.trace), prov.trace)
    {
      ghost var s0 := St();
      PushedListBacked(s0, id);
      NewVersionKeys(s0, id);
      var f := files[id];
      var vs := if id in versions then versions[id] else [];
      var num := NextNum(vs);
      var key := VersionAt(f.key, id, num);
      var moved := prov.Move(At(f.key), key);
      versions := versions[id := [VersionRow(num, f.size, f.sha, key, f.updatedAt)] + vs];
      ghost var s1 := St();
      assert s1 == Push(s0, id);
      EnforceMaxVersions(id, now, f.updatedAt);
      SnapshotTrace(env, s0, id, now, s1.tree, old(prov.trace), prov.trace);
    }

    // ----- upload

    /** The staging file takes the place of an existing file whose content goes to
        the history first. */
    method ReplaceKeepingVersion(id: string, p: Path, data: Bytes, now: int, ghost g: State)
      requires id in g.files && ReplaceReady(env, g, id, p, data, now)
      requires St() == Staged(g, p, data)
      modifies this`files, this`versions, this`clock, prov
      ensures St() == Place(Snapshot(env, g, id, now), id, Renewed(g.files[id], data, now), now)
      ensures OnlyAt(old(prov.tree), Touched(g, id) + {p}, old(prov.trace), prov.trace)
      ensures Kept(env, g, id, now) > 0 ==> AlwaysHeld(g.files[id].sha.of, old(prov.trace), prov.trace)
    {
      var f := files[id];
      SnapshotVersion(id, now);
      OnlyAtWiden(old(prov.tree), Touched(g, id), Touched(g, id) + {p}, old(prov.trace), prov.trace);
      var moved := prov.Move(p, At(f.key));
      files := files[id := Renewed(f, data, now)];
      clock := now;
    }

    /** The staging file replaces an existing file's content for good. */
    method Overwrite(id: string, p: Path, data: Bytes, now: int, ghost g: State)
      requires id in g.files && OverwriteReady(g, id, p, data, now)
      requires St() == Staged(g, p, data)
      modifies this`files, this`clock, prov
      ensures St() == Place(Drop(g, id), id, Renewed(g.files[id], data, now), now)
      ensures OnlyAt(old(prov.tree), Touched(g, id) + {p}, old(prov.trace), prov.trace)
    {
      var f := files[id];
      var moved := prov.Move(p, At(f.key));
      files := files[id := Renewed(f, data, now)];
      clock := now;
    }

    /** The staging file becomes a new file, or is removed when its place is not open. */
    method PlaceNew(k: Key, p: Path, data: Bytes, newId: string, now: int, ghost g: State) returns (ok: bool)
      requires NewReady(g, k, p, data) && St() == Staged(g, p, data)
      modifies this`files, this`clock, prov
      ensures ok <==> Open(g.tree, k)
      ensures ok ==> St() == Place(Grow(g, Prefixes(Parent(At(k)))), newId,
                                   FileRow(k, |data|, Sha256(data), now, now, None), now)
      ensures !ok ==> Rejected(g, St())
      ensures OnlyAt(g.tree, {p, At(k)}, old(prov.trace), prov.trace)
    {
      ok := prov.Move(p, At(k));
      if !ok {
        var r := prov.Delete(p);
        return;
      }
      files := files[newId := FileRow(k, |data|, Sha256(data), now, now, None)];
      clock := now;
    }

    /** Over an existing file: with or without a version, as configured. */
    method StoreOver(id: string, p: Path, data: Bytes, now: int, ghost g: State)
      requires id in g.files && St() == Staged(g, p, data)
      requires if Snapshots(env, g, id, data) then ReplaceReady(env, g, id, p, data, now)
               else OverwriteReady(g, id, p, data, now)
      modifies this`files, this`versions, this`clock, prov
      ensures St() == Place(Displaced(env, g, id, data, now), id, Renewed(g.files[id], data, now), now)
      ensures OnlyAt(old(prov.tree), Touched(g, id) + {p}, old(prov.trace), prov.trace)
      ensures Snapshots(env, g, id, data) && Kept(env, g, id, now) > 0 ==>
                AlwaysHeld(g.files[id].sha.of, old(prov.trace), prov.trace)
    {
      if env.versioningEnabled && files[id].sha != Sha256(data) {
        ReplaceKeepingVersion(id, p, data, now, g);
      } else {
        Overwrite(id, p, data, now, g);
      }
    }

    /** The staging file becomes the content of k, or is removed. */
    method StoreStaged(k: Key, p: Path, data: Bytes, existing: Option<string>, newId: string, now: int,
                       ghost s: State, ghost stagingId: string)
      returns (r: Outcome<string>)
      requires StoreReady(env, s, k, data, newId, stagingId, now)
      requires p == StagingAt(k.pool, k.owner, stagingId) && existing == FindFile(s.files, k)
      requires St() == Staged(Grow(s, Prefixes(Parent(p))), p, data)
      modifies this`files, this`versions, this`clock, prov
      ensures r.Ok? <==> Enterable(s.tree, k)
      ensures r.Err? ==> r.error == MoveFailed && Rejected(s, St())
      ensures r.Ok? ==> St() == Stored(env, s, k, data, newId, stagingId, now)
      ensures r.Ok? ==> r.value == if existing.Some? then existing.value else newId
      ensures OnlyAt(old(prov.tree), Reach(s, k) + {p}, old(prov.trace), prov.trace)
      ensures forall id | SetAside(env, s, k, data, now, id) ::
                AlwaysHeld(s.files[id].sha.of, old(prov.trace), prov.trace)
    {
      ghost var g := Grow(s, Prefixes(Parent(p)));
      match existing {
        case Some(id) =>
          StoreOver(id, p, data, now, g);
          r := Ok(id);
        case None =>
          ghost var t1 := prov.tree;
          var ok := PlaceNew(k, p, data, newId, now, g);
          assert OnlyAt(t1, Reach(s, k) + {p}, old(prov.trace), prov.trace) by {
            OnlyAtShift(g.tree, t1, {p, At(k)}, old(prov.trace), prov.trace);
            assert {p, At(k)} == Reach(s, k) + {p};
          }
          r := if ok then Ok(newId) else Err(MoveFailed);
      }
    }

    /** Writes a stream to the staging area and, when it is complete and its place is
        open, makes it the content of k. */
    method StoreContent(k: Key, src: Source, newId: string, stagingId: string, now: int) returns (r: Outcome<string>)
      requires Agreement(St()) && FreshStaging(k, stagingId)
      modifies this`files, this`versions, this`clock, prov
      ensures r.Err? <==> src.Broken? || !Enterable(old(prov.tree), k)
      ensures r.Err? ==> r.error == (if src.Broken? then WriteFailed else MoveFailed) && Rejected(old(St()), St())
      ensures r.Ok? ==> St() == Stored(env, old(St()), k, src.data, newId, stagingId, now)
      ensures r.Ok? ==> var found := FindFile(old(files), k); r.value == if found.Some? then found.value else newId
      ensures OthersAlwaysHeld(old(files), k, old(prov.trace), prov.trace)
      ensures src.Complete? ==> forall id | SetAside(env, old(St()), k, src.data, now, id) ::
                AlwaysHeld(old(files)[id].sha.of, old(prov.trace), prov.trace)
    {
      ghost var s := St();
      ghost var data := if src.Complete? then src.data else [];
      StoreBegins(env, s, k, data, newId, stagingId, now);
      var p := StagingAt(k.pool, k.owner, stagingId);
      var existing := FindFileRow(k);
      var written := WriteStaging(k, src, p, s, data);
      if !written {
        return Err(WriteFailed);
      }
      ghost var t1 := prov.tree;
      r := StoreStaged(k, p, src.data, existing, newId, now, s, stagingId);
      StoreEnds(env, s, k, p, data, now, old(prov.trace), t1, prov.trace);
    }

    /** The stream goes to the staging area; a broken one leaves only folders. */
    method WriteStaging(k: Key, src: Source, p: Path, ghost s: State, ghost data: Bytes) returns (written: bool)
      requires s == St() && StagingFree(s, p) && (src.Complete? ==> src.data == data)
      modifies prov
      ensures written <==> src.Complete?
      ensures written ==> St() == Staged(Grow(s, Prefixes(Parent(p))), p, data)
      ensures !written ==> Rejected(s, St()) && OthersAlwaysHeld(s.files, k, old(prov.trace), prov.trace)
      ensures prov.trace == old(prov.trace) + [prov.tree]
    {
      written := prov.Write(p, src);
      if !written {
        assert St() == Grow(s, Prefixes(Parent(p)));
        StoreFails(s, k, p, old(prov.trace));
      }
    }

    /** Upload: refuses bad names, unknown pools, names reserved by the trash and, on
        request, taken names; otherwise stores the stream. */
    method Upload(up: UploadInput, newId: string, stagingId: string, now: int) returns (r: Outcome<string>)
      requires Agreement(St()) && clock <= now && newId !in files && FreshStaging(UploadKey(env, up), stagingId)
      modifies this`files, this`versions, this`clock, prov
      ensures UploadStep(env, old(St()), up, newId, stagingId, now, St(), if r.Err? then Some(r.error) else None)
      ensures Agreement(St()) <==> (r.Ok? ==> !Reserved(UploadKey(env, up)))
      ensures r.Ok? ==>
                var k := Key(if up.pool == "" then env.defaultPool else up.pool, up.owner,
                             CleanSegments(up.parentPath), up.name);
                && up.source.Complete? && k.pool in env.pools
                && (if r.value in old(files) then old(files)[r.value].key == k && !up.noOverwrite else r.value == newId)
                && files == old(files)[r.value := FileRow(k, |up.source.data|, Sha256(up.source.data),
                                                          if r.value in old(files) then old(files)[r.value].createdAt
                                                          else now, now, None)]
                && At(k) in prov.tree.content && prov.tree.content[At(k)] == up.source.data
      ensures r == Err(NameOccupiedByTrash) ==>
                var k := Key(if up.pool == "" then env.defaultPool else up.pool, up.owner,
                             CleanSegments(up.parentPath), up.name);
                || (exists f | f in files :: files[f].key == k && files[f].deletedAt.Some?)
                || (exists d | d in directories :: directories[d].key == k && directories[d].deletedAt.Some?)
      ensures OthersAlwaysHeld(old(files), UploadKey(env, up), old(prov.trace), prov.trace)
      ensures r.Ok? && up.source.Complete? ==>
                forall id | SetAside(env, old(St()), UploadKey(env, up), up.source.data, now, id) ::
                  AlwaysHeld(old(files)[id].sha.of, old(prov.trace), prov.trace)
    {
      if !ValidName(up.name) {
        return Err(InvalidName);
      }
      var k := UploadKey(env, up);
      if k.pool !in env.pools {
        return Err(PoolNotFound);
      }
      if TrashOccupies(St(), k) {
        return Err(NameOccupiedByTrash);
      }
      var existing := FindFileRow(k);
      if up.noOverwrite && existing.Some? {
        return Err(DestinationOccupied);
      }
      ghost var s := St();
      r := StoreContent(k, up.source, newId, stagingId, now);
      UploadStepIff(env, s, up, newId, stagingId, now, St(), if r.Err? then Some(r.error) else None);
      if r.Ok? {
        ghost var id := UploadLands(env, s, up, newId, stagingId, now, St());
      }
    }

    // ----- restoring a version

    /** The current content makes room: into the history, or for good. */
    method MakeRoom(id: string, now: int)
      requires Agreement(St()) && id in files
      modifies this`versions, prov
      ensures St() == if env.versioningEnabled then Snapshot(env, old(St()), id, now) else Drop(old(St()), id)
    {
      if env.versioningEnabled {
        SnapshotReadyAlone(St(), id);
        SnapshotVersion(id, now);
      } else {
        assert RowBacked(prov.tree, files[id]);
        var r := prov.Delete(At(files[id].key));
      }
    }

    /** The version's content moves into the emptied place; its row leaves the
        history and the file's row takes its data over. */
    method PutBack(id: string, v: VersionRow, now: int) returns (ok: bool)
      requires id in files
      modifies this`files, this`versions, this`clock, prov
      ensures ok <==> CanMove(old(prov.tree), v.key, At(old(files)[id].key))
      ensures ok ==> St() == old(St()).(
                files := old(files)[id := old(files)[id].(size := v.size, sha := v.sha, updatedAt := now,
                                                          deletedAt := None)],
                versions := old(versions)[id := Without(History(old(St()), id), v.num)],
                tree := Moved(old(prov.tree), v.key, At(old(files)[id].key)), clock := now)
      ensures !ok ==>
                var parent := Parent(At(old(files)[id].key));
                St() == old(St()).(tree := if Blocked(old(prov.tree), parent) then old(prov.tree)
                                           else AddDirs(old(prov.tree), parent))
    {
      var f := files[id];
      ok := prov.Move(v.key, At(f.key));
      if ok {
        versions := versions[id := Without(if id in versions then versions[id] else [], v.num)];
        files := files[id := f.(size := v.size, sha := v.sha, updatedAt := now, deletedAt := None)];
        clock := now;
      }
    }

    /** The current content makes room and the j-th version comes back, unless the
        snapshot has just pruned it. */
    method BringBack(id: string, j: nat, now: int) returns (ok: bool)
      requires Agreement(St()) && id in files && j < |History(St(), id)|
      modifies this`files, this`versions, this`clock, prov
      ensures ok <==> (env.versioningEnabled ==> j + 1 < Kept(env, old(St()), id, now))
      ensures ok ==> St() == BroughtBack(env, old(St()), id, j, now)
      ensures !ok ==> St() == Snapshot(env, old(St()), id, now)
    {
      ghost var s := St();
      var v := versions[id][j];
      if env.versioningEnabled {
        if j + 1 < Kept(env, s, id, now) {
          KeptReady(env, s, id, j, now);
        } else {
          RestoreStuck(env, s, id, j, now);
        }
      } else {
        PlainReady(env, s, id, j, now);
      }
      MakeRoom(id, now);
      ok := PutBack(id, v, now);
    }

    /** GetVersion: by number. */
    method FindVersion(id: string, num: nat) returns (r: Option<nat>)
      ensures r.Some? ==> r.value < |History(St(), id)| && History(St(), id)[r.value].num == num
      ensures r.None? ==> !HasVersion(St(), id, num)
    {
      var vs := if id in versions then versions[id] else [];
      if j :| 0 <= j < |vs| && vs[j].num == num {
        r := Some(j);
      } else {
        r := None;
      }
    }

    /** RestoreVersion: the current content goes into the history (or, without
        versioning, goes), then the version comes back. */
    method RestoreVersion(requester: string, id: string, num: nat, now: int) returns (r: Outcome<()>)
      requires Agreement(St()) && clock <= now
      modifies this`files, this`versions, this`clock, prov
      ensures RestoreStep(env, old(St()), requester, id, num, now, St())
      ensures RestoreError(env, old(St()), requester, id, num, now) == if r.Err? then Some(r.error) else None
      ensures r.Ok? ==>
                && id in old(files) && old(files)[id].key.owner == requester
                && exists v | v in History(old(St()), id) ::
                     && v.num == num && At(old(files)[id].key) in prov.tree.content
                     && prov.tree.content[At(old(files)[id].key)] == v.sha.of
                     && files == old(files)[id := old(files)[id].(size := |v.sha.of|, sha := v.sha, updatedAt := now,
                                                                  deletedAt := None)]
    {
      ghost var s := St();
      if id !in files {
        return Err(FileNotFound);
      }
      if files[id].key.owner != requester {
        return Err(Forbidden);
      }
      var found := FindVersion(id, num);
      if found.None? {
        return Err(VersionNotFound);
      }
      VersionFound(env, St(), requester, id, found.value, num, now);
      var ok := BringBack(id, found.value, now);
      r := if ok then Ok(()) else Err(MoveFailed);
      if ok {
        ghost var j := VersionComesBack(env, s, requester, id, num, now, St());
        assert History(s, id)[j] in History(s, id);
      }
    }

    // ----- moves

    /** rejectIfDestinationOccupied: a file or a folder, in the trash or not. */
    method RejectIfOccupied(k: Key) returns (occupied: bool)
      requires UniqueKeys(files, directories)
      ensures occupied == Occupied(St(), k)
    {
      var f := FindFileRow(k);
      var d := FindDirRow(k);
      occupied := f.Some? || d.Some?;
    }

    /** The content first, then the row. */
    method MoveContent(id: string, k': Key) returns (ok: bool)
      requires id in files && k' != files[id].key && MoveReady(St(), id, k')
      modifies this`files, prov
      ensures ok <==> Open(old(prov.tree), k')
      ensures St() == if ok then FileMoved(old(St()), id, k') else old(St())
    {
      ok := prov.Move(At(files[id].key), At(k'));
      if ok {
        files := files[id := files[id].(key := k')];
      }
    }

    /** MoveFile: to a new folder, a new name, or both, never onto anything. */
    method MoveFile(requester: string, id: string, newParent: Option<string>, newName: Option<string>)
      returns (r: Outcome<()>)
      requires Agreement(St())
      modifies this`files, prov
      ensures MoveFileStep(old(St()), requester, id, newParent, newName, St(), if r.Err? then Some(r.error) else None)
      ensures r.Ok? ==>
                && id in old(files) && id in files && old(files)[id].key.owner == requester
                && files == old(files)[id := old(files)[id].(key := files[id].key)]
                && var k, k' := old(files)[id].key, files[id].key;
                   && k'.pool == k.pool && k'.owner == k.owner
                   && k'.parent == (if newParent.Some? then CleanSegments(newParent.value) else k.parent)
                   && k'.name == (if newName.Some? then newName.value else k.name)
                   && CarriedAlong(old(prov.tree), prov.tree, At(k), At(k'), old(files)[id].sha.of)
    {
      if id !in files {
        return Err(FileNotFound);
      }
      var k := files[id].key;
      if k.owner != requester {
        return Err(Forbidden);
      }
      if files[id].deletedAt.Some? {
        return Err(FileNotFound);
      }
      var k' := NewKey(k, newParent, newName);
      if !ValidName(k'.name) {
        return Err(InvalidName);
      }
      ghost var s := St();
      if k' == k {
        FileArrives(s, requester, id, newParent, newName, s);
        return Ok(());
      }
      var occupied := RejectIfOccupied(k');
      if occupied {
        return Err(DestinationOccupied);
      }
      assert RowBacked(prov.tree, files[id]);
      MoveIsReady(s, id, k');
      var ok := MoveContent(id, k');
      if ok {
        FileArrives(s, requester, id, newParent, newName, St());
      }
      r := if ok then Ok(()) else Err(MoveFailed);
    }

    /** MoveDirectoryTree: three UPDATE statements on the rows as text, in a transaction; a
        repeated natural key after any of them takes all of them back. */
    method MoveDirectoryTree(id: string, k': Key) returns (ok: bool)
      requires id in directories && TreeMovable(directories[id].key, k') && UserPaths(files, directories)
      modifies this`files, this`directories
      ensures ok <==> KeysStayUnique(old(files), old(directories), id, k')
      ensures ok ==> files == CarriedFiles(old(files), old(directories)[id].key, k')
      ensures ok ==> directories == CarriedDirs(old(directories), id, old(directories)[id].key, k')
      ensures !ok ==> files == old(files) && directories == old(directories)
    {
      var k, files0, dirs0 := directories[id].key, files, directories;
      var oldPath, newPath := Render(k.Full()), Render(k'.Full());
      StatementsCarry(files, directories, id, k');
      directories := DirUpdated(directories, id, Render(k'.parent), k'.name);
      if UniqueDirs(directories) {
        directories := DirsUpdated(directories, k.pool, k.owner, oldPath, newPath);
        if UniqueDirs(directories) {
          files := FilesUpdated(files, k.pool, k.owner, oldPath, newPath);
          if UniqueFiles(files) {
            return true;
          }
        }
      }
      files, directories := files0, dirs0;
      ok := false;
    }

    /** The rows follow the folder; when the transaction fails, the folder moves back. */
    method CommitMove(id: string, k: Key, k': Key, ghost s: State) returns (ok: bool)
      requires id in s.dirs && k == s.dirs[id].key && FolderReady(s, id, k')
      requires TreeMovable(k, k') && UserPaths(s.files, s.dirs) && UniqueKeys(s.files, s.dirs)
      requires CanMove(s.tree, At(k), At(k')) && St() == s.(tree := Moved(s.tree, At(k), At(k')))
      modifies this`files, this`directories, prov
      ensures ok <==> KeysStayUnique(s.files, s.dirs, id, k')
      ensures if ok then St() == FolderMoved(s, id, k') else Rejected(s, St())
    {
      ok := MoveDirectoryTree(id, k');
      if Reserved(k') {
        ReservedStaysUnique(s.files, s.dirs, id, k');
      }
      if !ok {
        var undone := prov.Move(At(k'), At(k));
      }
    }

    /** The folder on disk first, then the rows. */
    method MoveFolder(id: string, k': Key, ghost s: State) returns (r: Outcome<()>)
      requires s == St() && id in s.dirs && FolderReady(s, id, k')
      requires TreeMovable(s.dirs[id].key, k') && UserPaths(s.files, s.dirs) && UniqueKeys(s.files, s.dirs)
      modifies this`files, this`directories, prov
      ensures r == FolderOutcome(s, id, k')
      ensures if r.Ok? then St() == FolderMoved(s, id, k')
              else if r.error.UniqueViolation? then Rejected(s, St()) else St() == s
    {
      var k := directories[id].key;
      var moved := prov.Move(At(k), At(k'));
      if !moved {
        return Err(MoveFailed);
      }
      var ok := CommitMove(id, k, k', s);
      r := if ok then Ok(()) else Err(UniqueViolation);
    }

    /** MoveDirectory: the same for a folder with everything below it. */
    method MoveDirectory(requester: string, id: string, newParent: Option<string>, newName: Option<string>)
      returns (r: Outcome<()>)
      requires Agreement(St())
      modifies this`files, this`directories, prov
      ensures MoveDirectoryStep(old(St()), requester, id, newParent, newName, St(),
                                if r.Err? then Some(r.error) else None)
      ensures r.Ok? ==>
                && id in old(directories) && id in directories && old(directories)[id].key.owner == requester
                && var k, k' := old(directories)[id].key, directories[id].key;
                   && k'.pool == k.pool && k'.owner == k.owner
                   && k'.parent == (if newParent.Some? then CleanSegments(newParent.value) else k.parent)
                   && k'.name == (if newName.Some? then newName.value else k.name)
                   && TableFollows(old(St()), St(), k, k')
                   && At(k') in prov.tree.dirs && (k' != k ==> At(k) !in prov.tree.dirs)
    {
      if id !in directories {
        return Err(DirectoryNotFound);
      }
      var k := directories[id].key;
      if k.owner != requester {
        return Err(Forbidden);
      }
      if directories[id].deletedAt.Some? {
        return Err(DirectoryNotFound);
      }
      var k' := NewKey(k, newParent, newName);
      if !ValidName(k'.name) {
        return Err(InvalidName);
      }
      SameFullSameKey(k, newParent, newName);
      ghost var s := St();
      if k'.Full() == k.Full() {
        FolderArrives(s, requester, id, newParent, newName, s);
        return Ok(());
      }
      if k.Full() <= k'.Full() {
        return Err(InvalidMoveDestination);
      }
      var occupied := RejectIfOccupied(k');
      if occupied {
        return Err(DestinationOccupied);
      }
      NewKeyIsCanonical(k, newParent, newName);
      FullAbove(k, k');
      FolderIsReady(s, id, k');
      r := MoveFolder(id, k', s);
      if r.Ok? {
        FolderArrives(s, requester, id, newParent, newName, St());
      }
    }

    // ----- folders

    /** Mkdir: the folder on disk, then its row unless it has one. */
    method Mkdir(owner: string, parentPath: string, name: string, pool: string, newId: string, now: int)
      returns (r: Outcome<string>)
      requires Agreement(St())
      modifies this`directories, this`clock, prov
      ensures MkdirStep(env, old(St()), MkdirKey(env, owner, parentPath, name, pool), newId, now, St(),
                        if r.Err? then Some(r.error) else None)
      ensures r.Ok? ==>
                var k := Key(if pool == "" then env.defaultPool else pool, owner, CleanSegments(parentPath), name);
                && k.pool in env.pools && r.value in directories && At(k) in prov.tree.dirs
                && (directories == old(directories)
                    || (r.value == newId && directories == old(directories)[newId := DirRow(k, now, None)]))
                && directories[r.value].key == k && directories[r.value].deletedAt.None?
                && prov.tree.content == old(prov.tree).content
      ensures r == Err(NameOccupiedByTrash) ==>
                var k := Key(if pool == "" then env.defaultPool else pool, owner, CleanSegments(parentPath), name);
                || (exists f | f in files :: files[f].key == k && files[f].deletedAt.Some?)
                || (exists d | d in directories :: directories[d].key == k && directories[d].deletedAt.Some?)
    {
      if !ValidName(name) {
        return Err(InvalidName);
      }
      var k := MkdirKey(env, owner, parentPath, name, pool);
      if k.pool !in env.pools {
        return Err(PoolNotFound);
      }
      if TrashOccupies(St(), k) {
        return Err(NameOccupiedByTrash);
      }
      var made := prov.MkdirAll(At(k));
      if !made {
        return Err(MkdirFailed);
      }
      var existing := FindDirRow(k);
      if existing.Some? {
        r := Ok(existing.value);
      } else {
        directories := directories[newId := DirRow(k, now, None)];
        r := Ok(newId);
      }
      clock := now;
    }

    /** DeleteDirectory: only a folder that lists nothing; into the trash, keeping a
        folder that still holds trashed files, or for good. */
    method DeleteDirectory(requester: string, id: string, now: int) returns (r: Outcome<()>)
      requires TreeSound(prov.tree)
      modifies this`directories, this`clock, prov
      ensures DeleteDirectoryStep(env, old(St()), requester, id, now, St(), if r.Err? then Some(r.error) else None)
      ensures r.Ok? ==>
                && id in old(directories) && old(directories)[id].key.owner == requester
                && directories == if env.trashEnabled
                                  then old(directories)[id := old(directories)[id].(deletedAt := Some(now))]
                                  else old(directories) - {id}
      ensures r == Err(DirectoryNotEmpty) <==>
                && id in old(directories) && old(directories)[id].key.owner == requester
                && var path := old(directories)[id].key.Full();
                   || (exists f | f in files ::
                         files[f].key.owner == requester && files[f].key.parent == path && files[f].deletedAt.None?)
                   || (exists d | d in old(directories) ::
                         && old(directories)[d].key.owner == requester && old(directories)[d].key.parent == path
                         && old(directories)[d].deletedAt.None?)
    {
      if id !in directories {
        return Err(DirectoryNotFound);
      }
      if directories[id].key.owner != requester {
        return Err(Forbidden);
      }
      if HasActiveItems(St(), requester, directories[id].key.Full()) {
        return Err(DirectoryNotEmpty);
      }
      if !env.trashEnabled {
        r := RemoveDirectory(id);
        return;
      }
      var gone := prov.Delete(At(directories[id].key));
      if gone.Unreachable? {
        return Err(DeleteFailed);
      }
      directories := directories[id := directories[id].(deletedAt := Some(now))];
      clock := now;
      r := Ok(());
    }

    /** permanentlyDeleteDirectory. */
    method RemoveDirectory(id: string) returns (r: Outcome<()>)
      requires id in directories
      modifies this`directories, prov
      ensures RemovalError(old(St()), id) == if r.Err? then Some(r.error) else None
      ensures St() == if r.Ok? then FolderRemoved(old(St()), id) else old(St())
    {
      var gone := prov.Delete(At(directories[id].key));
      if gone.Unreachable? || (gone.NotEmpty? && directories[id].deletedAt.None?) {
        return Err(DeleteFailed);
      }
      directories := directories - {id};
      r := Ok(());
    }

    /** PermanentlyDeleteDirectory: an active folder only when it lists nothing. */
    method PermanentlyDeleteDirectory(requester: string, id: string) returns (r: Outcome<()>)
      modifies this`directories, prov
      ensures RemoveDirectoryStep(old(St()), requester, id, St(), if r.Err? then Some(r.error) else None)
      ensures r.Ok? ==>
                && id in old(directories) && old(directories)[id].key.owner == requester
                && directories == old(directories) - {id}
      ensures r == Err(DirectoryNotEmpty) <==>
                && id in old(directories) && old(directories)[id].key.owner == requester
                && old(directories)[id].deletedAt.None?
                && var path := old(directories)[id].key.Full();
                   || (exists f | f in files ::
                         files[f].key.owner == requester && files[f].key.parent == path && files[f].deletedAt.None?)
                   || (exists d | d in old(directories) ::
                         && old(directories)[d].key.owner == requester && old(directories)[d].key.parent == path
                         && old(directories)[d].deletedAt.None?)
    {
      if id !in directories {
        return Err(DirectoryNotFound);
      }
      if directories[id].key.owner != requester {
        return Err(Forbidden);
      }
      if directories[id].deletedAt.None? && HasActiveItems(St(), requester, directories[id].key.Full()) {
        return Err(DirectoryNotEmpty);
      }
      r := RemoveDirectory(id);
    }

    /** RestoreDirectory: the row first, then the folder on disk. */
    method RestoreDirectory(requester: string, id: string) returns (r: Outcome<()>)
      modifies this`directories, prov
      ensures RestoreDirectoryStep(old(St()), requester, id, St(), if r.Err? then Some(r.error) else None)
      ensures r.Ok? ==>
                && id in old(directories) && old(directories)[id].key.owner == requester
                && directories == old(directories)[id := old(directories)[id].(deletedAt := None)]
                && At(old(directories)[id].key) in prov.tree.dirs
    {
      if id !in directories {
        return Err(DirectoryNotFound);
      }
      if directories[id].key.owner != requester {
        return Err(Forbidden);
      }
      directories := directories[id := directories[id].(deletedAt := None)];
      var made := prov.MkdirAll(At(directories[id].key));
      r := if made then Ok(()) else Err(MkdirFailed);
    }

    // ----- files in and out of the trash

    /** Delete: into the trash, or for good when there is none. */
    method Delete(requester: string, id: string, now: int) returns (r: Outcome<()>)
      requires env.trashEnabled || Agreement(St())
      modifies this`files, this`versions, this`clock, prov
      ensures DeleteStep(env, old(St()), requester, id, now, St(), if r.Err? then Some(r.error) else None)
      ensures env.trashEnabled ==> prov.trace == old(prov.trace)
      ensures r.Ok? <==> id in old(files) && old(files)[id].key.owner == requester
      ensures r.Ok? ==>
                if env.trashEnabled then
                  && files == old(files)[id := old(files)[id].(deletedAt := Some(now))]
                  && versions == old(versions) && prov.tree == old(prov.tree)
                else
                  && files == old(files) - {id} && versions == old(versions) - {id}
                  && At(old(files)[id].key) !in prov.tree.content
    {
      if id !in files {
        return Err(FileNotFound);
      }
      if files[id].key.owner != requester {
        return Err(Forbidden);
      }
      if env.trashEnabled {
        files := files[id := files[id].(deletedAt := Some(now))];
        clock := now;
      } else {
        EraseIsReady(St(), id);
        EraseFile(id);
      }
      r := Ok(());
    }

    /** RestoreFile: out of the trash. */
    method RestoreFile(requester: string, id: string) returns (r: Outcome<()>)
      modifies this`files
      ensures RestoreFileStep(old(St()), requester, id, St(), if r.Err? then Some(r.error) else None)
      ensures r.Ok? <==> id in old(files) && old(files)[id].key.owner == requester
      ensures r.Ok? ==> files == old(files)[id := old(files)[id].(deletedAt := None)]
    {
      if id !in files {
        return Err(FileNotFound);
      }
      if files[id].key.owner != requester {
        return Err(Forbidden);
      }
      files := files[id := files[id].(deletedAt := None)];
      r := Ok(());
    }

    /** PermanentlyDeleteFile: active or in the trash. */
    method PermanentlyDeleteFile(requester: string, id: string) returns (r: Outcome<()>)
      requires Agreement(St())
      modifies this`files, this`versions, prov
      ensures EraseStep(old(St()), requester, id, St(), if r.Err? then Some(r.error) else None)
      ensures r.Ok? <==> id in old(files) && old(files)[id].key.owner == requester
      ensures r.Ok? ==>
                && files == old(files) - {id} && versions == old(versions) - {id}
                && At(old(files)[id].key) !in prov.tree.content
                && forall v | v in History(old(St()), id) :: v.key !in prov.tree.content
    {
      if id !in files {
        return Err(FileNotFound);
      }
      if files[id].key.owner != requester {
        return Err(Forbidden);
      }
      EraseIsReady(St(), id);
      EraseFile(id);
      r := Ok(());
    }

    /** permanentlyDeleteFile: the content, the content of every version, the version
        rows, the row. */
    method EraseFile(id: string)
      requires EraseReady(St(), id)
      modifies this`files, this`versions, prov
      ensures St() == Erase(old(St()), id)
    {
      ghost var s := St();
      var k := files[id].key;
      var vs := if id in versions then versions[id] else [];
      var r := prov.Delete(At(k));
      DeleteAll(s.tree, k, id, vs, s.files[id].updatedAt);
      versions := versions - {id};
      files := files - {id};
    }

    /** Removes the content of every version listed. */
    method DeleteAll(ghost t: Tree, ghost k: Key, ghost id: string, vs: seq<VersionRow>, ghost upTo: int)
      requires ListBacked(t, k, id, vs) && Ordered(vs, upTo) && UserPath(k.Full())
      requires prov.tree == t.(content := t.content - {At(k)})
      modifies prov
      ensures prov.tree == t.(content := t.content - {At(k)} - KeysOf(vs))
    {
      assert t.content - {At(k)} - KeysOf(vs[..0]) == t.content - {At(k)};
      for i := 0 to |vs|
        invariant prov.tree == t.(content := t.content - {At(k)} - KeysOf(vs[..i]))
      {
        EraseRound(t, k, id, vs, i, upTo);
        var r := prov.Delete(vs[i].key);
      }
      assert vs[..|vs|] == vs;
    }

    /** ListAllTrashedFiles: latest deletion first. */
    method ListAllTrashedFiles(ghost s: State) returns (listing: seq<string>)
      requires files == s.files
      ensures TrashListing(s, listing)
    {
      listing := [];
      var todo := set f | f in files && files[f].deletedAt.Some?;
      while todo != {}
        invariant forall f | f in todo :: f in files && files[f].deletedAt.Some? && f !in listing
        invariant forall f | f in files && files[f].deletedAt.Some? :: f in todo || f in listing
        invariant SortedTrash(files, listing)
      {
        var f :| f in todo;
        todo := todo - {f};
        var n := 0;
        while n < |listing| && files[listing[n]].deletedAt.value > files[f].deletedAt.value
          invariant 0 <= n <= |listing|
          invariant forall i | 0 <= i < n :: files[listing[i]].deletedAt.value > files[f].deletedAt.value
        {
          n := n + 1;
        }
        InsertSorted(files, listing, n, f);
        listing := listing[..n] + [f] + listing[n..];
      }
    }

    /** PurgeExpiredTrash: walks the trash, latest deletion first, and removes every
        file that is too old or over the size limit, then the expired folder rows. */
    method PurgeExpiredTrash(now: int, retention: int, maxTotal: int)
      returns (purgedFiles: nat, purgedDirs: nat, ghost listing: seq<string>, ghost cutoff: int)
      requires Agreement(St())
      modifies this`files, this`directories, this`versions, prov
      ensures cutoff == now - retention && PurgeStep(old(St()), listing, cutoff, maxTotal, St(), None)
      ensures LeftByPurge(old(files), listing, now - retention, maxTotal, files)
      ensures FoldersLeft(old(directories), now - retention, directories)
      ensures purgedFiles == |old(files)| - |files| && purgedDirs == |old(directories)| - |directories|
    {
      ghost var s := St();
      var before := now - retention;
      var trashed := ListAllTrashedFiles(s);
      listing, cutoff := trashed, before;
      purgedFiles, purgedDirs := PurgeListed(trashed, before, maxTotal, s);
    }

    method PurgeListed(listing: seq<string>, cutoff: int, maxTotal: int, ghost s: State)
      returns (purgedFiles: nat, purgedDirs: nat)
      requires s == St() && Agreement(s) && TrashListing(s, listing)
      modifies this`files, this`directories, this`versions, prov
      ensures PurgeStep(s, listing, cutoff, maxTotal, St(), None)
      ensures LeftByPurge(s.files, listing, cutoff, maxTotal, files) && FoldersLeft(s.dirs, cutoff, directories)
      ensures purgedFiles == |s.files| - |files| && purgedDirs == |s.dirs| - |directories|
    {
      PurgeLeaves(s, listing, cutoff, maxTotal);
      PurgeIsReady(s, listing, cutoff, maxTotal);
      purgedFiles, purgedDirs := PurgeTrash(listing, cutoff, maxTotal);
    }

    method PurgeTrash(listing: seq<string>, cutoff: int, maxTotal: int) returns (purgedFiles: nat, purgedDirs: nat)
      requires PurgeReady(St(), listing, cutoff, maxTotal)
      modifies this`files, this`directories, this`versions, prov
      ensures PurgeStep(old(St()), listing, cutoff, maxTotal, St(), None)
      ensures purgedFiles == |Doomed(old(St()), listing, cutoff, maxTotal)|
      ensures purgedDirs == |old(directories)| - |directories|
    {
      purgedFiles := PurgeFiles(listing, cutoff, maxTotal, PurgeFrom(files, listing, cutoff, maxTotal, 0));
      purgedDirs := PurgeDirRows(cutoff);
    }

    method PurgeFiles(listing: seq<string>, cutoff: int, maxTotal: int, ghost k: nat) returns (purged: nat)
      requires k <= |listing|
      requires forall j | 0 <= j < |listing| :: listing[j] in files
      requires forall a, b | 0 <= a < b < |listing| :: listing[a] != listing[b]
      requires forall i | 0 <= i < |listing| :: PurgeRound(St(), listing, cutoff, maxTotal, k, i)
      modifies this`files, this`versions, prov
      ensures St() == AfterPurge(old(St()), listing, k, |listing|)
      ensures purged == |listing| - k
    {
      ghost var s := St();
      var rows := files;
      var cumulative: nat := 0;
      purged := 0;
      var i := 0;
      while i < |listing|
        invariant 0 <= i <= |listing|
        invariant St() == AfterPurge(s, listing, k, i)
        invariant cumulative == TrashSize(s.files, listing[..i])
        invariant purged == if i <= k then 0 else i - k
      {
        assert PurgeRound(s, listing, cutoff, maxTotal, k, i);
        cumulative := cumulative + rows[listing[i]].size;
        if PurgeVote(rows[listing[i]], cutoff, maxTotal, cumulative) {
          EraseFile(listing[i]);
          purged := purged + 1;
        }
        i := i + 1;
      }
    }

    method PurgeDirRows(cutoff: int) returns (purged: nat)
      modifies this`directories
      ensures St() == PurgeDirs(old(St()), cutoff)
      ensures purged == |old(directories)| - |directories|
    {
      ghost var all := directories;
      var expired := ExpiredDirs(directories, cutoff);
      var todo := expired;
      purged := 0;
      while todo != {}
        invariant todo <= expired && purged == |expired| - |todo|
        invariant directories == all - (expired - todo)
      {
        var d :| d in todo;
        directories := directories - {d};
        todo := todo - {d};
        purged := purged + 1;
      }
      FewerRows(all, expired);
    }

    // ----- reading

    /** The active folders and files of an owner with this parent path, in any pool. */
    method List(owner: string, parent: Path) returns (dirIds: seq<string>, fileIds: seq<string>)
      ensures Distinct(dirIds) && Distinct(fileIds)
      ensures forall d :: d in dirIds <==>
                && d in directories && directories[d].key.owner == owner && directories[d].key.parent == parent
                && directories[d].deletedAt.None?
      ensures forall f :: f in fileIds <==>
                f in files && files[f].key.owner == owner && files[f].key.parent == parent && files[f].deletedAt.None?
    {
      dirIds := Enumerate(set d | d in directories && ActiveDirIn(directories[d], owner, parent));
      fileIds := Enumerate(set f | f in files && ActiveFileIn(files[f], owner, parent));
    }

    static method Enumerate(all: set<string>) returns (ids: seq<string>)
      ensures Distinct(ids) && forall x :: x in ids <==> x in all
    {
      ids := [];
      var todo := all;
      while todo != {}
        invariant todo <= all && Distinct(ids)
        invariant forall x :: x in ids <==> x in all && x !in todo
      {
        var x :| x in todo;
        ids, todo := ids + [x], todo - {x};
      }
    }

    /** What the owner downloads is the content the row promises, in the trash too. */
    method DownloadOwn(requester: string, id: string) returns (r: Outcome<Bytes>)
      requires Agreement(St())
      ensures r.Ok? <==> id in files && files[id].key.owner == requester
      ensures r.Err? ==> r.error == if id in files then Forbidden else FileNotFound
      ensures r.Ok? ==> id in files && r.value == files[id].sha.of
    {
      if id !in files {
        return Err(FileNotFound);
      }
      if files[id].key.owner != requester {
        return Err(Forbidden);
      }
      assert RowBacked(prov.tree, files[id]);
      r := Ok(prov.tree.content[At(files[id].key)]);
    }
  }
}
