/** States in agreement in which an accepted call of FileService breaks it
    (internal/storage/file_service.go). */
module Witnesses {
  import opened Base
  import opened PathStrings
  import opened PhysicalTree
  import opened StorageModel
  import opened Content
  import opened Uploads
  import opened Moves
  import opened Trash
  import opened Backing

  /** A storage with one file, the folders above it on disk, and some folder rows. */
  function LoneFile(k: Key, dirs: map<string, DirRow>): State {
    State(map["file" := FileRow(k, 0, Sha256([]), 0, 0, None)], dirs, map[],
          Tree(map[At(k) := []], Prefixes(Parent(At(k)))), 0)
  }

  lemma LoneFileTree(k: Key)
    requires UserPath(k.Full())
    ensures TreeSound(LoneFile(k, map[]).tree)
  {
    UserPlace(k);
    var t := LoneFile(k, map[]).tree;
    forall q | q in t.dirs && q != [] ensures Parent(q) in t.dirs {
      var i :| 0 <= i <= |Parent(At(k))| && Parent(At(k))[..i] == q;
      assert Parent(q) == Parent(At(k))[..i - 1];
    }
    assert Parent(At(k)) == Parent(At(k))[..|Parent(At(k))|];
  }

  /** Folder rows elsewhere do no harm, those of active folders above the file included. */
  lemma LoneFileAgrees(k: Key, dirs: map<string, DirRow>)
    requires UserPath(k.Full())
    requires forall d | d in dirs :: UserPath(dirs[d].key.Full()) && dirs[d].key != k
    requires forall d | d in dirs && dirs[d].deletedAt.None? :: At(dirs[d].key) in Prefixes(Parent(At(k)))
    requires forall i, j | i in dirs && j in dirs && dirs[i].key == dirs[j].key :: i == j
    ensures Agreement(LoneFile(k, dirs))
  {
    LoneFileTree(k);
    LoneFileBacked(k, dirs);
    LoneFileRows(k, dirs);
    LoneFileFolders(k, dirs);
  }

  lemma LoneFileRows(k: Key, dirs: map<string, DirRow>)
    requires UserPath(k.Full()) && forall d | d in dirs :: UserPath(dirs[d].key.Full())
    requires forall i, j | i in dirs && j in dirs && dirs[i].key == dirs[j].key :: i == j
    ensures var s := LoneFile(k, dirs);
            && UserPaths(s.files, s.dirs) && UniqueKeys(s.files, s.dirs)
            && HistoryOrdered(s.files, s.versions, s.clock) && HistoryBacked(s.files, s.versions, s.tree)
  {}

  lemma LoneFileFolders(k: Key, dirs: map<string, DirRow>)
    requires forall d | d in dirs :: dirs[d].key != k
    requires forall d | d in dirs && dirs[d].deletedAt.None? :: At(dirs[d].key) in Prefixes(Parent(At(k)))
    ensures FoldersSound(dirs, LoneFile(k, dirs).tree)
  {
    forall d | d in dirs ensures At(dirs[d].key) !in LoneFile(k, dirs).tree.content {
      assert KeyAt(At(dirs[d].key)) != KeyAt(At(k));
    }
  }

  lemma LoneFileBacked(k: Key, dirs: map<string, DirRow>)
    ensures var s := LoneFile(k, dirs);
            RowsBacked(s.files, s.tree) && NothingElse(s.files, s.versions, s.tree)
  {
    var s := LoneFile(k, dirs);
    assert At(s.files["file"].key) == At(k);
    assert Recorded(s.files, s.versions, At(k));
  }

  // ----- moving a folder over the trash of another

  /** An active folder /src with a file in it; and in the trash the row of a folder of the
      file's name under /dst, which was deleted for good. */
  function TrashAtDestination(pool: string, owner: string, src: Segment, dst: Segment, name: Segment): State {
    LoneFile(Key(pool, owner, [src], name),
             map["src" := DirRow(Key(pool, owner, [], src), 0, None),
                 "gone" := DirRow(Key(pool, owner, [dst], name), 0, Some(0))])
  }

  predicate PlainName(x: Segment) {
    ValidName(x) && x != STAGING && x != VERSIONS
  }

  lemma PlainPath(full: Path)
    requires full != [] && forall x | x in full :: PlainName(x)
    ensures UserPath(full)
  {
    assert full[0] in full && InvalidChar('/');
  }

  lemma TrashAtDestinationAgrees(pool: string, owner: string, src: Segment, dst: Segment, name: Segment)
    requires PlainName(src) && PlainName(dst) && PlainName(name) && src != dst
    ensures Agreement(TrashAtDestination(pool, owner, src, dst, name))
  {
    var k, gone := Key(pool, owner, [], src), Key(pool, owner, [dst], name);
    var file := Key(pool, owner, [src], name);
    assert k.Full() == [src] && file.Full() == [src, name] && gone.Full() == [dst, name];
    PlainPath([src]);
    PlainPath([src, name]);
    PlainPath([dst, name]);
    assert At(k) == Parent(At(file)) == Parent(At(file))[..3];
    TwoFolders(file, k, gone);
  }

  lemma TwoFolders(file: Key, k: Key, gone: Key)
    requires UserPath(file.Full()) && UserPath(k.Full()) && UserPath(gone.Full())
    requires k != file && gone != file && k != gone && At(k) in Prefixes(Parent(At(file)))
    ensures Agreement(LoneFile(file, map["src" := DirRow(k, 0, None), "gone" := DirRow(gone, 0, Some(0))]))
  {
    LoneFileAgrees(file, map["src" := DirRow(k, 0, None), "gone" := DirRow(gone, 0, Some(0))]);
  }

  lemma KeysAfterMove(pool: string, owner: string, src: Segment, dst: Segment, name: Segment)
    requires src != dst
    ensures var s, k' := TrashAtDestination(pool, owner, src, dst, name), Key(pool, owner, [], dst);
            KeysStayUnique(s.files, s.dirs, "src", k') && !LandsClear(s, "src", k')
  {
    var s, k' := TrashAtDestination(pool, owner, src, dst, name), Key(pool, owner, [], dst);
    var k, file, gone := s.dirs["src"].key, s.files["file"].key, s.dirs["gone"].key;
    CarriedTo(pool, owner, src, dst, name);
    var dirs' := CarriedDirs(s.dirs, "src", k, k');
    assert dirs'["src"].key == k' && dirs'["gone"].key == gone && gone != k';
  }

  lemma CarriedTo(pool: string, owner: string, src: Segment, dst: Segment, name: Segment)
    requires src != dst
    ensures var k, k' := Key(pool, owner, [], src), Key(pool, owner, [], dst);
            var file, gone := Key(pool, owner, [src], name), Key(pool, owner, [dst], name);
            Carried(k, k', file) == gone && Carried(k, k', gone) == gone
            && Inside(k, file) && !Inside(k, gone) && gone != k'
  {
    var k, k', gone := Key(pool, owner, [], src), Key(pool, owner, [], dst), Key(pool, owner, [dst], name);
    assert k.Full() == [src] && k'.Full() == [dst] && gone.parent[0] == dst;
  }

  /** Renaming /src to /dst is accepted, and leaves a folder row on a physical file. */
  lemma MoveDirectoryBreaks(pool: string, owner: string, src: Segment, dst: Segment, name: Segment)
    requires PlainName(src) && PlainName(dst) && PlainName(name) && src != dst
    ensures var s, k' := TrashAtDestination(pool, owner, src, dst, name), Key(pool, owner, [], dst);
            && Agreement(s) && MoveDirectoryError(s, owner, "src", None, Some(dst)).None?
            && NewKey(s.dirs["src"].key, None, Some(dst)) == k'
            && Movable(s, "src", k') && !LandsClear(s, "src", k') && !Agreement(FolderMoved(s, "src", k'))
  {
    var s, k' := TrashAtDestination(pool, owner, src, dst, name), Key(pool, owner, [], dst);
    TrashAtDestinationAgrees(pool, owner, src, dst, name);
    DestinationIsOpen(pool, owner, src, dst, name);
    KeysAfterMove(pool, owner, src, dst, name);
    assert s.dirs["src"].key.Full() == [src] && k'.Full() == [dst];
    PlainPath([dst]);
    MovesAndBreaks(s, owner, k', dst);
  }

  lemma MovesAndBreaks(s: State, owner: string, k': Key, dst: Segment)
    requires Agreement(s) && "src" in s.dirs && s.dirs["src"].deletedAt.None? && s.dirs["src"].key.owner == owner
    requires k' == NewKey(s.dirs["src"].key, None, Some(dst)) && UserPath(k'.Full()) && ValidName(dst)
    requires !(s.dirs["src"].key.Full() <= k'.Full()) && !Occupied(s, k')
    requires CanMove(s.tree, At(s.dirs["src"].key), At(k')) && KeysStayUnique(s.files, s.dirs, "src", k')
    requires !LandsClear(s, "src", k')
    ensures MoveDirectoryError(s, owner, "src", None, Some(dst)).None?
    ensures Movable(s, "src", k') && !Agreement(FolderMoved(s, "src", k'))
  {
    MoveDirectoryKeepsIffClear(s, "src", k');
  }

  lemma DestinationIsOpen(pool: string, owner: string, src: Segment, dst: Segment, name: Segment)
    requires src != dst
    ensures var s, k' := TrashAtDestination(pool, owner, src, dst, name), Key(pool, owner, [], dst);
            CanMove(s.tree, At(s.dirs["src"].key), At(k')) && !Occupied(s, k')
  {
    FolderCanMove(pool, owner, src, dst, name);
    var k := Key(pool, owner, [dst], name);
    assert k.parent[0] == dst;
  }

  lemma FolderCanMove(pool: string, owner: string, src: Segment, dst: Segment, name: Segment)
    requires src != dst
    ensures var file := Key(pool, owner, [src], name);
            CanMove(Tree(map[At(file) := []], Prefixes(Parent(At(file)))), At(Key(pool, owner, [], src)),
                    At(Key(pool, owner, [], dst)))
  {
    var k, k', file := Key(pool, owner, [], src), Key(pool, owner, [], dst), Key(pool, owner, [src], name);
    assert At(k) == [pool, owner, src] && At(k') == [pool, owner, dst] && At(file) == [pool, owner, src, name];
    assert At(k) == Parent(At(file)) == Parent(At(file))[..3];
    assert At(k)[2] != At(k')[2];
  }

  // ----- restoring a folder below a file

  /** A file; and in the trash the row of a folder below the folder that had its name. */
  function TrashBelowFile(pool: string, owner: string, name: Segment, sub: Segment): State {
    LoneFile(Key(pool, owner, [], name), map["sub" := DirRow(Key(pool, owner, [name], sub), 0, Some(0))])
  }

  /** Restoring that folder fails, and leaves it active without a folder on disk. */
  lemma RestoreDirectoryBreaks(pool: string, owner: string, name: Segment, sub: Segment)
    requires PlainName(name) && PlainName(sub)
    ensures var s := TrashBelowFile(pool, owner, name, sub);
            && Agreement(s) && RestoreDirectoryError(s, owner, "sub") == Some(MkdirFailed)
            && !Agreement(FolderRestored(s, "sub"))
  {
    var s := TrashBelowFile(pool, owner, name, sub);
    var file, k := s.files["file"].key, s.dirs["sub"].key;
    assert file.Full() == [name] && k.Full() == [name, sub];
    PlainPath([name]);
    PlainPath([name, sub]);
    LoneFileAgrees(file, s.dirs);
    assert At(k)[..3] == At(file);
    assert Blocked(s.tree, At(k));
    RestoreDirectoryKeepsIff(s, "sub");
  }

  // ----- uploading over a stored version

  /** The upload whose path names version v of file id. */
  function OverVersion(k: Key, id: string, num: nat, data: Bytes): UploadInput {
    UploadInput(k.owner, Render([VERSIONS, id]), Itoa(num), Complete(data), k.pool, false)
  }

  lemma OverVersionKey(env: Env, k: Key, id: string, num: nat, data: Bytes)
    requires ValidSegment(id) && k.pool != ""
    ensures var key := UploadKey(env, OverVersion(k, id, num, data));
            key == Key(k.pool, k.owner, [VERSIONS, id], Itoa(num)) && At(key) == VersionAt(k, id, num)
  {
    ReservedSegments();
    RenderReadsBack([VERSIONS, id]);
  }

  /** Such an upload is accepted, and what it stores takes the place of the version's
      content: the version, and with it every content of the storage, is good afterwards if
      and only if that is the same. */
  lemma UploadReplacesVersion(env: Env, s: State, id: string, i: nat, data: Bytes, newId: string, stagingId: string,
                              now: int)
    requires Agreement(s) && id in s.files && i < |History(s, id)| && ValidSegment(id) && newId !in s.files
    requires s.files[id].key.pool in env.pools && s.files[id].key.pool != ""
    ensures var k, v := s.files[id].key, History(s, id)[i];
            var up := OverVersion(k, id, v.num, data);
            && UploadError(env, s, up).None?
            && var s' := Uploaded(env, s, up, newId, stagingId, now);
               && v.key in s'.tree.content && s'.tree.content[v.key] == data
               && id in s'.files && s'.files[id] == s.files[id] && History(s', id) == History(s, id)
               && (VersionBacked(s'.tree, k, id, v) <==> data == v.sha.of)
               && (Backed(s') <==> data == v.sha.of)
  {
    var k, v := s.files[id].key, History(s, id)[i];
    var key := Key(k.pool, k.owner, [VERSIONS, id], Itoa(v.num));
    NumberIsName(v.num);
    OverVersionKey(env, k, id, v.num, data);
    VersionIsBacked(s, id, i);
    ReservedIsOpen(env, s, key, data);
    StoredThere(env, s, OverVersion(k, id, v.num, data), key, id, v, data, newId, stagingId, now);
    ReservedStoredBackedIff(env, s, key, data, newId, stagingId, now);
    HitsThisVersion(s, key, id, i, data);
  }

  lemma HitsThisVersion(s: State, k: Key, id: string, i: nat, data: Bytes)
    requires HistoryBacked(s.files, s.versions, s.tree) && id in s.versions && i < |s.versions[id]|
    requires s.versions[id][i].key == At(k)
    ensures HitsVersion(s, k, data) <==> data != s.versions[id][i].sha.of
  {
    forall j, n | j in s.versions && 0 <= n < |s.versions[j]|
      ensures VersionBacked(s.tree, s.files[j].key, j, s.versions[j][n])
    {
      assert ListBacked(s.tree, s.files[j].key, j, s.versions[j]);
    }
  }

  lemma VersionIsBacked(s: State, id: string, i: nat)
    requires HistoryBacked(s.files, s.versions, s.tree) && id in s.files && i < |History(s, id)|
    ensures VersionBacked(s.tree, s.files[id].key, id, History(s, id)[i])
  {
    assert ListBacked(s.tree, s.files[id].key, id, s.versions[id]);
  }

  lemma ReservedIsOpen(env: Env, s: State, key: Key, data: Bytes)
    requires Agreement(s) && |key.parent| == 2 && key.parent[0] == VERSIONS
    ensures FindFile(s.files, key).None? && !TrashOccupies(s, key) && Open(s.tree, key)
  {
    assert key.Full()[0] == VERSIONS;
    NoRowReserved(s, key);
    NoRowOccupies(s, key);
    ReservedOpen(s, At(key));
  }

  lemma NoRowOccupies(s: State, k: Key)
    requires UserPaths(s.files, s.dirs) && Reserved(k)
    ensures !TrashOccupies(s, k)
  {}

  lemma StoredThere(env: Env, s: State, up: UploadInput, key: Key, id: string, v: VersionRow, data: Bytes,
                    newId: string, stagingId: string, now: int)
    requires FindFile(s.files, key).None? && !TrashOccupies(s, key) && Open(s.tree, key)
    requires UploadKey(env, up) == key && up.source == Complete(data) && ValidName(up.name) && !up.noOverwrite
    requires key.pool in env.pools && id in s.files && newId !in s.files
    requires VersionBacked(s.tree, s.files[id].key, id, v) && At(key) == v.key
    ensures UploadError(env, s, up).None?
    ensures var s' := Uploaded(env, s, up, newId, stagingId, now);
            && v.key in s'.tree.content && s'.tree.content[v.key] == data
            && id in s'.files && s'.files[id] == s.files[id] && s'.versions == s.versions
            && (VersionBacked(s'.tree, s.files[id].key, id, v) <==> data == v.sha.of)
  {}

  lemma NumberIsName(n: nat)
    ensures ValidName(Itoa(n))
  {
    ItoaIsSegment(n);
    assert forall c | c in Itoa(n) :: '0' <= c <= '9' && !InvalidChar(c);
  }
}
