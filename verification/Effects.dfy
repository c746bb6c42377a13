/** What the larger calls leave behind, said in the fields of the rows and in what is on disk
    (internal/storage/file_service.go). */
module Effects {
  import opened Base
  import opened PathStrings
  import opened PhysicalTree
  import opened StorageModel
  import opened VersionPruning
  import opened Content
  import opened Uploads
  import opened Moves
  import opened MoveTree
  import opened Operations

  // ----- moves

  /** An accepted MoveFile: the row has the folder and the name asked for, nothing else of it or
      of any other row changes, and the content has gone along. */
  lemma FileArrives(s: State, requester: string, id: string, newParent: Option<string>, newName: Option<string>,
                    s': State)
    requires MoveFileStep(s, requester, id, newParent, newName, s', None) && RowsBacked(s.files, s.tree)
    ensures id in s.files && s.files[id].key.owner == requester && s.files[id].deletedAt.None? && id in s'.files
    ensures s'.files == s.files[id := s.files[id].(key := s'.files[id].key)]
    ensures s'.dirs == s.dirs && s'.versions == s.versions
    ensures var k, k' := s.files[id].key, s'.files[id].key;
            && k'.pool == k.pool && k'.owner == k.owner
            && k'.parent == (if newParent.Some? then CleanSegments(newParent.value) else k.parent)
            && k'.name == (if newName.Some? then newName.value else k.name)
    ensures CarriedAlong(s.tree, s'.tree, At(s.files[id].key), At(s'.files[id].key), s.files[id].sha.of)
  {
    var k, k' := s.files[id].key, NewKey(s.files[id].key, newParent, newName);
    assert RowBacked(s.tree, s.files[id]);
    if k' == k {
      assert s.files[id := s.files[id].(key := k)] == s.files;
    } else {
      OtherPlace(k, k');
      MovedOnDisk(s, id, k');
    }
  }

  /** The content is at q, and no longer at p if that is another place; the rest of the disk is
      as before. */
  ghost predicate CarriedAlong(t: Tree, t': Tree, p: Path, q: Path, data: Bytes) {
    && q in t'.content && t'.content[q] == data && (q != p ==> p !in t'.content)
    && SameOutside(t, t', {p, q})
  }

  lemma OtherPlace(k: Key, k': Key)
    requires k' != k
    ensures At(k') != At(k)
  {
    assert KeyAt(At(k)) == k && KeyAt(At(k')) == k';
  }

  lemma MovedOnDisk(s: State, id: string, k': Key)
    requires id in s.files && RowBacked(s.tree, s.files[id]) && At(k') != At(s.files[id].key)
    ensures CarriedAlong(s.tree, FileMoved(s, id, k').tree, At(s.files[id].key), At(k'), s.files[id].sha.of)
  {}

  /** An accepted MoveDirectory: the row of the folder has the folder and the name asked for,
      the rows below it are re-parented, no other row and no other column changes, the folder
      stands at its new place and no longer at the old one, and every file has its content. */
  lemma FolderArrives(s: State, requester: string, id: string, newParent: Option<string>, newName: Option<string>,
                      s': State)
    requires Agreement(s) && MoveDirectoryStep(s, requester, id, newParent, newName, s', None)
    ensures id in s.dirs && s.dirs[id].key.owner == requester && s.dirs[id].deletedAt.None? && id in s'.dirs
    ensures var k, k' := s.dirs[id].key, s'.dirs[id].key;
            && k'.pool == k.pool && k'.owner == k.owner
            && k'.parent == (if newParent.Some? then CleanSegments(newParent.value) else k.parent)
            && k'.name == (if newName.Some? then newName.value else k.name)
            && TableFollows(s, s', k, k')
            && At(k') in s'.tree.dirs && (k' != k ==> At(k) !in s'.tree.dirs)
    ensures RowsBacked(s'.files, s'.tree)
  {
    MoveDirectoryAccepted(s, requester, id, newParent, newName);
    var k, k' := s.dirs[id].key, NewKey(s.dirs[id].key, newParent, newName);
    if k' == k {
      StayedPut(s, k);
    } else {
      FolderPlaces(s, id, k');
      FolderContents(s, id, k');
      TablesFollow(s, id, k');
    }
  }

  /** Every row keeps its columns; those at and below the folder of k are re-parented. */
  ghost predicate TableFollows(s: State, s': State, k: Key, k': Key) {
    && s'.versions == s.versions && s'.files.Keys == s.files.Keys && s'.dirs.Keys == s.dirs.Keys
    && (forall f | f in s.files ::
          && s'.files[f] == s.files[f].(key := s'.files[f].key) && SameRoot(s.files[f].key, s'.files[f].key)
          && s'.files[f].key.Full() == Reparented(k, k', s.files[f].key))
    && (forall d | d in s.dirs ::
          && s'.dirs[d] == s.dirs[d].(key := s'.dirs[d].key) && SameRoot(s.dirs[d].key, s'.dirs[d].key)
          && s'.dirs[d].key.Full() == Reparented(k, k', s.dirs[d].key))
  }

  predicate SameRoot(a: Key, b: Key) {
    a.pool == b.pool && a.owner == b.owner
  }

  lemma StayedPut(s: State, k: Key)
    ensures TableFollows(s, s, k, k)
  {
    forall item: Key ensures Reparented(k, k, item) == item.Full() {
      if InSubtree(k, item) {
        assert k.Full() + item.Full()[|k.Full()|..] == item.Full();
      }
    }
  }

  lemma TablesFollow(s: State, id: string, k': Key)
    requires Agreement(s) && Goes(s, id, k')
    ensures TableFollows(s, FolderMoved(s, id, k'), s.dirs[id].key, k')
  {
    MovablePlaces(s, id, k');
    NoFileAtFolder(s.files, s.tree, s.dirs[id].key);
    CarriedFollow(s, FolderMoved(s, id, k'), id, k');
  }

  lemma CarriedFollow(s: State, s': State, id: string, k': Key)
    requires id in s.dirs && UniqueKeys(s.files, s.dirs) && SameRoot(s.dirs[id].key, k')
    requires forall j | j in s.files :: s.files[j].key != s.dirs[id].key
    requires s'.files == CarriedFiles(s.files, s.dirs[id].key, k')
    requires s'.dirs == CarriedDirs(s.dirs, id, s.dirs[id].key, k') && s'.versions == s.versions
    ensures TableFollows(s, s', s.dirs[id].key, k')
  {
    FilesReparented(s.files, s.dirs[id].key, k');
    DirsReparented(s.files, s.dirs, id, k');
  }

  lemma FolderPlaces(s: State, id: string, k': Key)
    requires Agreement(s) && Goes(s, id, k')
    ensures At(k') in FolderMoved(s, id, k').tree.dirs && At(s.dirs[id].key) !in FolderMoved(s, id, k').tree.dirs
  {
    var p, q := At(s.dirs[id].key), At(k');
    MovablePlaces(s, id, k');
    assert Rebase(p, q, p) == q;
    PlaceLeft(s.tree, p, q);
  }

  lemma PlaceLeft(t: Tree, p: Path, q: Path)
    requires CanMove(t, p, q) && p !in t.content && p in t.dirs && !(q <= p) && Rebase(p, q, p) == q
    ensures q in Moved(t, p, q).dirs && p !in Moved(t, p, q).dirs
  {
    forall x ensures Rebase(p, q, x) != p {
      if p <= x {
        assert q <= q + x[|p|..];
      }
    }
  }

  lemma FolderContents(s: State, id: string, k': Key)
    requires Agreement(s) && Goes(s, id, k')
    ensures RowsBacked(FolderMoved(s, id, k').files, FolderMoved(s, id, k').tree)
  {
    MovablePlaces(s, id, k');
    MovableRenames(s, id, k');
    FolderBacked(s.files, s.dirs[id].key, k', s.tree, FolderMoved(s, id, k').tree);
  }

  // ----- content

  /** The history other files have is left alone. */
  ghost predicate OtherHistories(s: State, s': State, id: string) {
    forall j | j != id :: History(s', j) == History(s, j)
  }

  /** How many versions stay after a snapshot, in the units of the settings: no limit is broken,
      and one more version would break one; a day has 24 hours. */
  ghost predicate LongestWithin(env: Env, now: int, all: seq<VersionRow>, n: nat) {
    && n <= |all|
    && (env.maxVersions > 0 ==> n <= env.maxVersions)
    && (env.maxAgeDays > 0 ==> forall i | 0 <= i < n :: now - all[i].createdAt <= env.maxAgeDays * 24 * 60 * 60)
    && (env.maxBytes > 0 ==> TotalSize(all[..n]) <= env.maxBytes)
    && (n < |all| ==>
          || (env.maxVersions > 0 && n + 1 > env.maxVersions)
          || (env.maxAgeDays > 0 && exists i | 0 <= i <= n :: now - all[i].createdAt > env.maxAgeDays * 24 * 60 * 60)
          || (env.maxBytes > 0 && TotalSize(all[..n + 1]) > env.maxBytes))
  }

  lemma KeptIsLongest(env: Env, now: int, all: seq<VersionRow>)
    ensures LongestWithin(env, now, all, KeepLen(env, now, all))
  {
    var n := KeepLen(env, now, all);
    assert forall i | 0 <= i < n :: all[..n][i] == all[i];
    if n < |all| {
      assert forall i | 0 <= i < n + 1 :: all[..n + 1][i] == all[i];
    }
  }

  /** The row of a file whose content goes to the history, as a version: numbered on, with the
      time the content had. */
  ghost predicate BecomesVersion(s: State, id: string, v: VersionRow)
    requires id in s.files
  {
    && v.num == (if History(s, id) == [] then 1 else History(s, id)[0].num + 1)
    && v.sha == s.files[id].sha && v.size == s.files[id].size && v.createdAt == s.files[id].updatedAt
    && v.key == [s.files[id].key.pool, s.files[id].key.owner, ".nexuscloud-versions", id, Itoa(v.num)]
  }

  /** The old content heads the history, which is cut to the limits. */
  ghost predicate JoinsHistory(env: Env, s: State, s': State, id: string, now: int)
    requires id in s.files
  {
    exists v | BecomesVersion(s, id, v) ::
      && LongestWithin(env, now, [v] + History(s, id), |History(s', id)|)
      && History(s', id) == ([v] + History(s, id))[..|History(s', id)|]
  }

  /** An accepted upload: one row, under the pool, owner, folder and name asked for, with the size
      and digest of the stream, out of the trash; its content in its place; the content it had
      before heads its history, cut to the limits, when versioning is on and it is another. No
      other row and no other history changes. */
  lemma UploadLands(env: Env, s: State, up: UploadInput, newId: string, stagingId: string, now: int, s': State)
    returns (id: string)
    requires UploadStep(env, s, up, newId, stagingId, now, s', None) && newId !in s.files
    ensures var found := FindFile(s.files, UploadKey(env, up)); id == if found.Some? then found.value else newId
    ensures up.source.Complete? && ValidName(up.name)
    ensures var pool := if up.pool == "" then env.defaultPool else up.pool;
            var k := Key(pool, up.owner, CleanSegments(up.parentPath), up.name);
            var data := up.source.data;
            && pool in env.pools
            && (forall j | j in s.files && s.files[j].key == k :: s.files[j].deletedAt.None? && !up.noOverwrite)
            && (forall d | d in s.dirs && s.dirs[d].key == k :: s.dirs[d].deletedAt.None?)
            && (if id in s.files then s.files[id].key == k
                else id == newId && forall j | j in s.files :: s.files[j].key != k)
            && s'.files == s.files[id := FileRow(k, |data|, Sha256(data),
                                                 if id in s.files then s.files[id].createdAt else now, now, None)]
            && At(k) in s'.tree.content && s'.tree.content[At(k)] == data
    ensures s'.dirs == s.dirs && OtherHistories(s, s', id)
    ensures if id in s.files && env.versioningEnabled && s.files[id].sha != Sha256(up.source.data) then
              JoinsHistory(env, s, s', id, now)
            else History(s', id) == History(s, id)
  {
    var k := UploadKey(env, up);
    match FindFile(s.files, k) {
      case None =>
        id := newId;
      case Some(f) =>
        id := f;
        ReplacedRow(env, s, k, up.source.data, newId, stagingId, now, f);
    }
  }

  lemma ReplacedRow(env: Env, s: State, k: Key, data: Bytes, newId: string, stagingId: string, now: int, id: string)
    requires FindFile(s.files, k) == Some(id) && id in s.files && s.files[id].key == k
    ensures var s' := Stored(env, s, k, data, newId, stagingId, now);
            && s'.files == s.files[id := FileRow(k, |data|, Sha256(data), s.files[id].createdAt, now, None)]
            && At(k) in s'.tree.content && s'.tree.content[At(k)] == data && s'.dirs == s.dirs
            && OtherHistories(s, s', id)
            && if env.versioningEnabled && s.files[id].sha != Sha256(data) then
                 JoinsHistory(env, s, s', id, now)
               else History(s', id) == History(s, id)
  {
    var v := NewVersion(s, id);
    KeptIsLongest(env, now, [v] + History(s, id));
    assert BecomesVersion(s, id, v);
  }

  /** An accepted RestoreVersion: the owner gets the content of that version as the current one,
      out of the trash; it leaves the history, which the content it had before heads when
      versioning is on. No other row and no other history changes. */
  lemma VersionComesBack(env: Env, s: State, requester: string, id: string, num: nat, now: int, s': State)
    returns (j: nat)
    requires RestoreStep(env, s, requester, id, num, now, s') && RestoreError(env, s, requester, id, num, now).None?
    ensures id in s.files && s.files[id].key.owner == requester
    ensures j < |History(s, id)| && History(s, id)[j].num == num
    ensures var f, v := s.files[id], History(s, id)[j];
            && s'.files == s.files[id := f.(size := |v.sha.of|, sha := v.sha, updatedAt := now, deletedAt := None)]
            && At(f.key) in s'.tree.content && s'.tree.content[At(f.key)] == v.sha.of
    ensures s'.dirs == s.dirs && OtherHistories(s, s', id)
    ensures if env.versioningEnabled then SwapsHistory(env, s, s', id, j, now)
            else History(s', id) == History(s, id)[..j] + History(s, id)[j + 1..]
  {
    j := IndexOf(s, id, num);
    if env.versioningEnabled {
      SwapIsSo(env, s, id, j, now);
    }
  }

  /** The old content heads the history, which is cut to the limits, and version j is taken out
      of it. */
  ghost predicate SwapsHistory(env: Env, s: State, s': State, id: string, j: nat, now: int)
    requires id in s.files
  {
    exists v | BecomesVersion(s, id, v) ::
      var all, n := [v] + History(s, id), |History(s', id)| + 1;
      LongestWithin(env, now, all, n) && j + 1 < n && History(s', id) == all[..j + 1] + all[j + 2..n]
  }

  lemma SwapIsSo(env: Env, s: State, id: string, j: nat, now: int)
    requires env.versioningEnabled && id in s.files && j < |History(s, id)| && j + 1 < Kept(env, s, id, now)
    ensures SwapsHistory(env, s, BroughtBack(env, s, id, j, now), id, j, now)
  {
    var v := NewVersion(s, id);
    var all, n := [v] + History(s, id), Kept(env, s, id, now);
    KeptIsLongest(env, now, all);
    SwapLeaves(env, s, id, j, now);
    assert |all[..j + 1] + all[j + 2..n]| == n - 1;
    assert BecomesVersion(s, id, v);
  }

  lemma SwapLeaves(env: Env, s: State, id: string, j: nat, now: int)
    requires env.versioningEnabled && id in s.files && j < |History(s, id)| && j + 1 < Kept(env, s, id, now)
    ensures var all := [NewVersion(s, id)] + History(s, id);
            History(BroughtBack(env, s, id, j, now), id) == all[..j + 1] + all[j + 2..Kept(env, s, id, now)]
  {
    var all, n := [NewVersion(s, id)] + History(s, id), Kept(env, s, id, now);
    assert History(Snapshot(env, s, id, now), id) == all[..n];
    assert all[..n][..j + 1] == all[..j + 1] && all[..n][j + 2..] == all[j + 2..n];
  }
}
