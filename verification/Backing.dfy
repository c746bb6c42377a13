/** Apart from where the rows may be, what a call does to the contents behind them: every
    file and every version has its content in its place, and nothing else is on disk, unless
    the call was one of three (internal/storage/file_service.go). */
module Backing {
  import opened Base
  import opened PathStrings
  import opened PhysicalTree
  import opened StorageModel
  import opened Content
  import opened Uploads
  import opened Moves
  import opened Operations

  /** A version with other content is stored where the item of k would be. */
  ghost predicate HitsVersion(s: State, k: Key, data: Bytes) {
    exists id, i | id in s.versions && 0 <= i < |s.versions[id]| ::
      s.versions[id][i].key == At(k) && s.versions[id][i].sha.of != data
  }

  /** Only in the reserved folders. */
  lemma HitsOnlyReserved(s: State, k: Key, data: Bytes)
    requires HistoryBacked(s.files, s.versions, s.tree) && UserPath(k.Full())
    ensures !HitsVersion(s, k, data)
  {
    UserPlace(k);
    forall id, i | id in s.versions && 0 <= i < |s.versions[id]| ensures s.versions[id][i].key[2] == VERSIONS {
      assert ListBacked(s.tree, s.files[id].key, id, s.versions[id]);
      assert VersionBacked(s.tree, s.files[id].key, id, s.versions[id][i]);
    }
  }

  /** Everything has its content but file id, whose place is empty. */
  ghost predicate BackedBut(s: State, id: string) {
    && OthersBacked(s.files, id, s.tree) && HistoryBacked(s.files, s.versions, s.tree)
    && NothingElse(s.files, s.versions, s.tree)
    && (id in s.files ==> At(s.files[id].key) !in s.tree.content)
  }

  lemma SameContentBacked(s: State, s': State, id: string)
    requires s'.files == s.files && s'.versions == s.versions && s'.tree.content == s.tree.content
    ensures Backed(s') <==> Backed(s)
    ensures BackedBut(s', id) <==> BackedBut(s, id)
  {
    SameContentRows(s.files, s.tree, s'.tree, id);
    SameContentHistory(s.files, s.versions, s.tree, s'.tree);
  }

  lemma SameContentRows(files: map<string, FileRow>, t1: Tree, t2: Tree, id: string)
    requires t1.content == t2.content
    ensures RowsBacked(files, t2) <==> RowsBacked(files, t1)
    ensures OthersBacked(files, id, t2) <==> OthersBacked(files, id, t1)
  {
    forall f: FileRow ensures RowBacked(t2, f) <==> RowBacked(t1, f) {}
  }

  lemma SameContentHistory(files: map<string, FileRow>, versions: map<string, seq<VersionRow>>, t1: Tree, t2: Tree)
    requires t1.content == t2.content
    ensures HistoryBacked(files, versions, t2) <==> HistoryBacked(files, versions, t1)
  {
    forall k, i, vs ensures ListBacked(t2, k, i, vs) <==> ListBacked(t1, k, i, vs) {
      SameContentList(t1, t2, k, i, vs);
    }
  }

  lemma SameContentList(t1: Tree, t2: Tree, k: Key, id: string, vs: seq<VersionRow>)
    requires t1.content == t2.content
    ensures ListBacked(t2, k, id, vs) <==> ListBacked(t1, k, id, vs)
  {}

  /** A file that takes a place takes it from a version exactly when one with other content
      is stored there. */
  lemma PlacedBackedIff(s: State, id: string, row: FileRow, now: int)
    requires BackedBut(s, id) && row.size == |row.sha.of|
    requires forall j | j in s.files && j != id :: s.files[j].key != row.key
    requires id in s.files ==> s.files[id].key.pool == row.key.pool && s.files[id].key.owner == row.key.owner
    ensures Backed(Place(s, id, row, now)) <==> !HitsVersion(s, row.key, row.sha.of)
  {
    var r := Place(s, id, row, now);
    PlacedOthers(s, id, row, now);
    PlaceRecords(s, id, row, now);
    if HitsVersion(s, row.key, row.sha.of) {
      var i, n :| i in s.versions && 0 <= n < |s.versions[i]| && s.versions[i][n].key == At(row.key)
                  && s.versions[i][n].sha.of != row.sha.of;
      assert !VersionBacked(r.tree, r.files[i].key, i, r.versions[i][n]);
      assert !ListBacked(r.tree, r.files[i].key, i, r.versions[i]);
    } else {
      PlacedHistory(s, id, row, now);
    }
  }

  lemma PlacedOthers(s: State, id: string, row: FileRow, now: int)
    requires OthersBacked(s.files, id, s.tree) && row.size == |row.sha.of|
    requires forall j | j in s.files && j != id :: s.files[j].key != row.key
    ensures RowsBacked(Place(s, id, row, now).files, Place(s, id, row, now).tree)
  {
    var r := Place(s, id, row, now);
    forall j | j in r.files ensures RowBacked(r.tree, r.files[j]) {
      if j != id {
        assert RowBacked(s.tree, s.files[j]);
        assert KeyAt(At(s.files[j].key)) != KeyAt(At(row.key));
      }
    }
  }

  lemma PlacedHistory(s: State, id: string, row: FileRow, now: int)
    requires HistoryBacked(s.files, s.versions, s.tree) && !HitsVersion(s, row.key, row.sha.of)
    requires id in s.files ==> s.files[id].key.pool == row.key.pool && s.files[id].key.owner == row.key.owner
    ensures var r := Place(s, id, row, now); HistoryBacked(r.files, r.versions, r.tree)
  {
    var r := Place(s, id, row, now);
    forall i | i in r.versions ensures ListBacked(r.tree, r.files[i].key, i, r.versions[i]) {
      assert ListBacked(s.tree, s.files[i].key, i, s.versions[i]);
      forall n | 0 <= n < |r.versions[i]| ensures VersionBacked(r.tree, r.files[i].key, i, r.versions[i][n]) {
        assert VersionBacked(s.tree, s.files[i].key, i, s.versions[i][n]);
      }
    }
  }

  // ----- the calls

  /** An accepted upload leaves everything backed exactly when no version with other content
      is stored where it goes. */
  lemma UploadBackedIff(env: Env, s: State, up: UploadInput, newId: string, stagingId: string, now: int)
    requires Agreement(s) && s.clock <= now && newId !in s.files && UploadError(env, s, up).None?
    ensures Backed(Uploaded(env, s, up, newId, stagingId, now))
       <==> !HitsVersion(s, UploadKey(env, up), up.source.data)
  {
    var k, data := UploadKey(env, up), up.source.data;
    if Reserved(k) {
      ReservedStoredBackedIff(env, s, k, data, newId, stagingId, now);
    } else {
      UploadStepKeeps(env, s, up, newId, stagingId, now, Uploaded(env, s, up, newId, stagingId, now), None);
      CleanIsCanonical(up.parentPath);
      KeyIsUserPath(k);
      HitsOnlyReserved(s, k, data);
    }
  }

  lemma ReservedStoredBackedIff(env: Env, s: State, k: Key, data: Bytes, newId: string, stagingId: string, now: int)
    requires Agreement(s) && newId !in s.files && Reserved(k)
    ensures Backed(Stored(env, s, k, data, newId, stagingId, now)) <==> !HitsVersion(s, k, data)
  {
    NoRowReserved(s, k);
    var g := Grow(s, UploadFolders(k, stagingId));
    SameContentBacked(s, g, newId);
    PlacedBackedIff(g, newId, FileRow(k, |data|, Sha256(data), now, now, None), now);
  }

  lemma NoRowReserved(s: State, k: Key)
    requires UserPaths(s.files, s.dirs) && Reserved(k)
    ensures FindFile(s.files, k).None? && forall j | j in s.files :: s.files[j].key != k
  {}

  /** And so does a file move to another place. */
  lemma FileMovedBackedIff(s: State, id: string, k': Key)
    requires Agreement(s) && id in s.files && k' != s.files[id].key && !Occupied(s, k')
    requires k'.pool == s.files[id].key.pool && k'.owner == s.files[id].key.owner
    ensures Backed(FileMoved(s, id, k')) <==> !HitsVersion(s, k', s.files[id].sha.of)
  {
    var g := Drop(Grow(s, Prefixes(Parent(At(k')))), id);
    DropVacates(s, id);
    SameContentBacked(Drop(s, id), g, id);
    assert RowBacked(s.tree, s.files[id]);
    PlacedBackedIff(g, id, s.files[id].(key := k'), s.clock);
  }

  /** A folder that moves takes all its contents along, wherever it goes. */
  lemma FolderMovedBacked(s: State, id: string, k': Key)
    requires Agreement(s) && Goes(s, id, k')
    ensures Backed(FolderMoved(s, id, k'))
  {
    MovablePlaces(s, id, k');
    MovableRenames(s, id, k');
    FolderBacking(s.files, s.versions, s.dirs[id].key, k', s.tree, FolderMoved(s, id, k').tree);
  }

  /** What a call must not do if everything is to stay backed: to put content where a version
      with other content is stored, or to restore a version that its own snapshot prunes. */
  ghost predicate KeepsContents(env: Env, s: State, op: Op, err: Option<Error>) {
    match op
    case Upload(up, _, _) => err.None? && up.source.Complete? ==> !HitsVersion(s, UploadKey(env, up), up.source.data)
    case RestoreVersion(_, _, _) => err != Some(MoveFailed)
    case MoveFile(_, id, p, n) =>
      err.None? && id in s.files && NewKey(s.files[id].key, p, n) != s.files[id].key ==>
        !HitsVersion(s, NewKey(s.files[id].key, p, n), s.files[id].sha.of)
    case _ => true
  }

  lemma UploadContents(env: Env, s: State, up: UploadInput, newId: string, stagingId: string, now: int, s': State,
                       err: Option<Error>)
    requires Agreement(s) && UploadStep(env, s, up, newId, stagingId, now, s', err)
    requires s.clock <= now && newId !in s.files
    ensures Backed(s')
       <==> (err.None? && up.source.Complete? ==> !HitsVersion(s, UploadKey(env, up), up.source.data))
  {
    if err.None? {
      UploadBackedIff(env, s, up, newId, stagingId, now);
    } else {
      UploadStepKeeps(env, s, up, newId, stagingId, now, s', err);
    }
  }

  lemma MoveFileContents(s: State, requester: string, id: string, p: Option<string>, n: Option<string>, s': State,
                         err: Option<Error>)
    requires Agreement(s) && MoveFileStep(s, requester, id, p, n, s', err)
    ensures Backed(s')
       <==> (err.None? && NewKey(s.files[id].key, p, n) != s.files[id].key ==>
               !HitsVersion(s, NewKey(s.files[id].key, p, n), s.files[id].sha.of))
  {
    if err.None? && NewKey(s.files[id].key, p, n) != s.files[id].key {
      MoveFileAccepted(s, requester, id, p, n);
      FileMovedBackedIff(s, id, NewKey(s.files[id].key, p, n));
    }
  }

  lemma MoveDirectoryContents(s: State, requester: string, id: string, p: Option<string>, n: Option<string>,
                              s': State, err: Option<Error>)
    requires Agreement(s) && MoveDirectoryStep(s, requester, id, p, n, s', err)
    ensures Backed(s')
  {
    if err.None? {
      MoveDirectoryAccepted(s, requester, id, p, n);
      if NewKey(s.dirs[id].key, p, n) != s.dirs[id].key {
        FolderMovedBacked(s, id, NewKey(s.dirs[id].key, p, n));
      }
    } else if s' != s {
      RejectedKeeps(s, s');
    }
  }

  lemma RestoreVersionContents(env: Env, s: State, requester: string, id: string, num: nat, now: int, s': State)
    requires Agreement(s) && s.clock <= now && RestoreStep(env, s, requester, id, num, now, s')
    ensures Backed(s') <==> RestoreError(env, s, requester, id, num, now) != Some(MoveFailed)
  {
    if id in s.files && s.files[id].key.owner == requester && HasVersion(s, id, num) {
      RestoreKeepsIffSurvives(env, s, requester, id, num, now, s');
    }
  }

  lemma FileCallContents(env: Env, s: State, op: Op, now: int, s': State, err: Option<Error>)
    requires op.Upload? || op.RestoreVersion? || op.MoveFile?
    requires Agreement(s) && Proper(s, op, now) && Step(env, s, op, now, s', err)
    ensures Backed(s') <==> KeepsContents(env, s, op, err)
  {
    if op.Upload? {
      UploadContents(env, s, op.up, op.newId, op.stagingId, now, s', err);
    } else if op.RestoreVersion? {
      RestoreVersionContents(env, s, op.requester, op.id, op.num, now, s');
    } else {
      MoveFileContents(s, op.requester, op.id, op.newParent, op.newName, s', err);
    }
  }

  lemma FolderCallContents(env: Env, s: State, op: Op, now: int, s': State, err: Option<Error>)
    requires op.Mkdir? || op.RestoreDirectory?
    requires Agreement(s) && Step(env, s, op, now, s', err)
    ensures Backed(s')
  {
    SameContentBacked(s, s', "");
  }

  lemma OtherCallContents(env: Env, s: State, op: Op, now: int, s': State, err: Option<Error>)
    requires !(op.Upload? || op.RestoreVersion? || op.MoveFile?)
    requires Agreement(s) && Proper(s, op, now) && Step(env, s, op, now, s', err)
    ensures Backed(s')
  {
    if op.Mkdir? || op.RestoreDirectory? {
      FolderCallContents(env, s, op, now, s', err);
    } else if op.MoveDirectory? {
      MoveDirectoryContents(s, op.requester, op.id, op.newParent, op.newName, s', err);
    } else {
      StepKeepsAgreementIff(env, s, op, now, s', err);
    }
  }

  /** Whatever the call and its outcome: from a state where rows and disk agree, every file
      and every version still has its content and nothing else is on disk, if and only if
      the call put nothing over a version with other content and did not fail to restore
      one. */
  lemma StepKeepsContentsIff(env: Env, s: State, op: Op, now: int, s': State, err: Option<Error>)
    requires Agreement(s) && Proper(s, op, now) && Step(env, s, op, now, s', err)
    ensures Backed(s') <==> KeepsContents(env, s, op, err)
  {
    if op.Upload? || op.RestoreVersion? || op.MoveFile? {
      FileCallContents(env, s, op, now, s', err);
    } else {
      OtherCallContents(env, s, op, now, s', err);
    }
  }
}
