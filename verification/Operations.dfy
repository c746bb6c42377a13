/** One call of FileService as a step from state to state, with its outcome. */
module Operations {
  import opened Base
  import opened PathStrings
  import opened PhysicalTree
  import opened StorageModel
  import opened Uploads
  import opened Moves
  import opened Trash

  datatype Op =
    | Upload(up: UploadInput, newId: string, stagingId: string)
    | RestoreVersion(requester: string, id: string, num: nat)
    | MoveFile(requester: string, id: string, newParent: Option<string>, newName: Option<string>)
    | MoveDirectory(requester: string, id: string, newParent: Option<string>, newName: Option<string>)
    | Mkdir(owner: string, parentPath: string, name: string, pool: string, newId: string)
    | Delete(requester: string, id: string)
    | PermanentlyDeleteFile(requester: string, id: string)
    | RestoreFile(requester: string, id: string)
    | DeleteDirectory(requester: string, id: string)
    | PermanentlyDeleteDirectory(requester: string, id: string)
    | RestoreDirectory(requester: string, id: string)
    | Purge(ids: seq<string>, cutoff: int, maxTotal: int)

  /** A refused upload has changed nothing, or made folders for its staging file. */
  ghost predicate UploadRefused(err: Error, s: State, s': State) {
    if err.WriteFailed? || err.MoveFailed? then Rejected(s, s') else s' == s
  }

  ghost predicate UploadStep(env: Env, s: State, up: UploadInput, newId: string, stagingId: string, now: int,
                             s': State, err: Option<Error>) {
    && err == UploadError(env, s, up)
    && if err.Some? then UploadRefused(err.value, s, s') else s' == Uploaded(env, s, up, newId, stagingId, now)
  }

  ghost predicate MoveFileStep(s: State, requester: string, id: string, newParent: Option<string>,
                               newName: Option<string>, s': State, err: Option<Error>) {
    && err == MoveFileError(s, requester, id, newParent, newName)
    && if err.Some? then s' == s
       else id in s.files && s' == FileMoved(s, id, NewKey(s.files[id].key, newParent, newName))
  }

  /** Folders made for a move that is taken back stay. */
  ghost predicate MoveDirectoryStep(s: State, requester: string, id: string, newParent: Option<string>,
                                    newName: Option<string>, s': State, err: Option<Error>) {
    && err == MoveDirectoryError(s, requester, id, newParent, newName)
    && if err == Some(UniqueViolation) then Rejected(s, s')
       else if err.Some? then s' == s
       else
         && id in s.dirs
         && var k' := NewKey(s.dirs[id].key, newParent, newName);
            (k' == s.dirs[id].key || CanMove(s.tree, At(s.dirs[id].key), At(k')))
            && s' == FolderMoved(s, id, k')
  }

  ghost predicate MkdirStep(env: Env, s: State, k: Key, newId: string, now: int, s': State, err: Option<Error>) {
    && err == MkdirError(env, s, k)
    && if err.Some? then s' == s else s' == FolderMade(s, k, newId, now)
  }

  ghost predicate DeleteStep(env: Env, s: State, requester: string, id: string, now: int, s': State,
                             err: Option<Error>) {
    && err == DeleteError(s, requester, id)
    && if err.Some? then s' == s else id in s.files && s' == FileDeleted(env, s, id, now)
  }

  ghost predicate EraseStep(s: State, requester: string, id: string, s': State, err: Option<Error>) {
    && err == DeleteError(s, requester, id)
    && if err.Some? then s' == s else id in s.files && s' == Erase(s, id)
  }

  ghost predicate RestoreFileStep(s: State, requester: string, id: string, s': State, err: Option<Error>) {
    && err == DeleteError(s, requester, id)
    && if err.Some? then s' == s else id in s.files && s' == MarkFile(s, id, None)
  }

  ghost predicate DeleteDirectoryStep(env: Env, s: State, requester: string, id: string, now: int, s': State,
                                      err: Option<Error>) {
    && err == DeleteDirectoryError(env, s, requester, id)
    && if err.Some? then s' == s else id in s.dirs && s' == FolderDeleted(env, s, id, now)
  }

  ghost predicate RemoveDirectoryStep(s: State, requester: string, id: string, s': State, err: Option<Error>) {
    && err == PermanentDirectoryError(s, requester, id)
    && if err.Some? then s' == s else id in s.dirs && s' == FolderRemoved(s, id)
  }

  /** Here a failure to make the folder comes after the row has left the trash. */
  ghost predicate RestoreDirectoryStep(s: State, requester: string, id: string, s': State, err: Option<Error>) {
    && err == RestoreDirectoryError(s, requester, id)
    && if err.None? || err.value.MkdirFailed? then id in s.dirs && s' == FolderRestored(s, id) else s' == s
  }

  ghost predicate PurgeStep(s: State, ids: seq<string>, cutoff: int, maxTotal: int, s': State, err: Option<Error>) {
    err.None? && TrashListing(s, ids) && s' == Purged(s, ids, cutoff, maxTotal)
  }

  ghost predicate Step(env: Env, s: State, op: Op, now: int, s': State, err: Option<Error>) {
    match op
    case Upload(up, newId, stagingId) => UploadStep(env, s, up, newId, stagingId, now, s', err)
    case RestoreVersion(requester, id, num) =>
      err == RestoreError(env, s, requester, id, num, now) && RestoreStep(env, s, requester, id, num, now, s')
    case MoveFile(requester, id, p, n) => MoveFileStep(s, requester, id, p, n, s', err)
    case MoveDirectory(requester, id, p, n) => MoveDirectoryStep(s, requester, id, p, n, s', err)
    case Mkdir(owner, parentPath, name, pool, newId) =>
      MkdirStep(env, s, MkdirKey(env, owner, parentPath, name, pool), newId, now, s', err)
    case Delete(requester, id) => DeleteStep(env, s, requester, id, now, s', err)
    case PermanentlyDeleteFile(requester, id) => EraseStep(s, requester, id, s', err)
    case RestoreFile(requester, id) => RestoreFileStep(s, requester, id, s', err)
    case DeleteDirectory(requester, id) => DeleteDirectoryStep(env, s, requester, id, now, s', err)
    case PermanentlyDeleteDirectory(requester, id) => RemoveDirectoryStep(s, requester, id, s', err)
    case RestoreDirectory(requester, id) => RestoreDirectoryStep(s, requester, id, s', err)
    case Purge(ids, cutoff, maxTotal) => PurgeStep(s, ids, cutoff, maxTotal, s', err)
  }

  /** Ids are new, the clock has not gone back. */
  predicate Proper(s: State, op: Op, now: int) {
    && s.clock <= now
    && (op.Upload? ==> op.newId !in s.files)
    && (op.Mkdir? ==> op.newId !in s.dirs)
  }

  /** What a call must not do, and the service does not check: to put an item into the
      reserved folders, to restore a version that its own snapshot prunes, to move files onto
      folder rows, or to restore a folder whose place a file has taken. */
  ghost predicate Harmless(env: Env, s: State, op: Op, err: Option<Error>) {
    match op
    case Upload(up, _, _) => err.None? ==> !Reserved(UploadKey(env, up))
    case RestoreVersion(_, _, _) => err != Some(MoveFailed)
    case MoveFile(_, id, p, n) => err.None? && id in s.files ==> !Reserved(NewKey(s.files[id].key, p, n))
    case MoveDirectory(_, id, p, n) =>
      err.None? && id in s.dirs ==>
        var k' := NewKey(s.dirs[id].key, p, n);
        !Reserved(k') && (k' == s.dirs[id].key || LandsClear(s, id, k'))
    case Mkdir(owner, parentPath, name, pool, _) =>
      err.None? ==> !Reserved(MkdirKey(env, owner, parentPath, name, pool))
    case RestoreDirectory(_, _) => err != Some(MkdirFailed)
    case _ => true
  }

  lemma KeyIsUserPath(k: Key)
    requires !Reserved(k) && ValidName(k.name) && Canonical(k.parent)
    ensures UserPath(k.Full())
  {}

  lemma NewKeyIsCanonical(k: Key, newParent: Option<string>, newName: Option<string>)
    requires UserPath(k.Full()) && ValidName(NewKey(k, newParent, newName).name)
    ensures Canonical(NewKey(k, newParent, newName).Full())
  {
    if newParent.Some? {
      CleanIsCanonical(newParent.value);
    } else {
      forall x | x in k.parent ensures ValidSegment(x) {
        assert x in k.Full();
      }
    }
  }

  lemma NewKeyIsUserPath(k: Key, newParent: Option<string>, newName: Option<string>)
    requires UserPath(k.Full()) && !Reserved(NewKey(k, newParent, newName))
             && ValidName(NewKey(k, newParent, newName).name)
    ensures UserPath(NewKey(k, newParent, newName).Full())
  {
    NewKeyIsCanonical(k, newParent, newName);
  }

  // ----- every step keeps the agreement

  lemma UploadStepKeeps(env: Env, s: State, up: UploadInput, newId: string, stagingId: string, now: int, s': State,
                        err: Option<Error>)
    requires Agreement(s) && UploadStep(env, s, up, newId, stagingId, now, s', err)
    requires s.clock <= now && newId !in s.files && (err.None? ==> !Reserved(UploadKey(env, up)))
    ensures Agreement(s')
  {
    if err.Some? {
      if s' != s {
        RejectedKeeps(s, s');
      }
    } else {
      CleanIsCanonical(up.parentPath);
      KeyIsUserPath(UploadKey(env, up));
      UploadKeeps(env, s, up, newId, stagingId, now);
    }
  }

  lemma MoveFileStepKeeps(s: State, requester: string, id: string, p: Option<string>, n: Option<string>, s': State,
                          err: Option<Error>)
    requires Agreement(s) && MoveFileStep(s, requester, id, p, n, s', err)
    requires err.None? && id in s.files ==> !Reserved(NewKey(s.files[id].key, p, n))
    ensures Agreement(s')
  {
    if err.None? {
      MoveFileAccepted(s, requester, id, p, n);
      var k' := NewKey(s.files[id].key, p, n);
      NewKeyIsUserPath(s.files[id].key, p, n);
      if k' != s.files[id].key {
        FileMovedKeeps(s, id, k');
      }
    }
  }

  lemma MoveDirectoryAccepted(s: State, requester: string, id: string, p: Option<string>, n: Option<string>)
    requires MoveDirectoryError(s, requester, id, p, n).None?
    ensures id in s.dirs && s.dirs[id].deletedAt.None?
    ensures var k, k' := s.dirs[id].key, NewKey(s.dirs[id].key, p, n);
            && ValidName(k'.name)
            && (k' != k ==> CanMove(s.tree, At(k), At(k')) && KeysStayUnique(s.files, s.dirs, id, k'))
  {}

  lemma MoveDirectoryStepKeeps(s: State, requester: string, id: string, p: Option<string>, n: Option<string>,
                               s': State, err: Option<Error>)
    requires Agreement(s) && MoveDirectoryStep(s, requester, id, p, n, s', err)
    requires err.None? && id in s.dirs ==> !Reserved(NewKey(s.dirs[id].key, p, n))
    requires err.None? && id in s.dirs && NewKey(s.dirs[id].key, p, n) != s.dirs[id].key ==>
               LandsClear(s, id, NewKey(s.dirs[id].key, p, n))
    ensures Agreement(s')
  {
    if err.Some? {
      if s' != s {
        RejectedKeeps(s, s');
      }
    } else {
      MoveDirectoryAccepted(s, requester, id, p, n);
      var k' := NewKey(s.dirs[id].key, p, n);
      NewKeyIsUserPath(s.dirs[id].key, p, n);
      if k' != s.dirs[id].key {
        MoveDirectoryKeepsIffClear(s, id, k');
      }
    }
  }

  lemma MkdirStepKeeps(env: Env, s: State, k: Key, newId: string, now: int, s': State, err: Option<Error>)
    requires Agreement(s) && MkdirStep(env, s, k, newId, now, s', err) && Canonical(k.parent)
    requires s.clock <= now && newId !in s.dirs && (err.None? ==> !Reserved(k))
    ensures Agreement(s')
  {
    if err.None? {
      KeyIsUserPath(k);
      MkdirKeeps(env, s, k, newId, now);
    }
  }

  lemma ClockKeeps(s: State, now: int)
    requires Agreement(s) && s.clock <= now
    ensures Agreement(s.(clock := now))
  {}

  lemma TrashedKeeps(env: Env, s: State, src: string, now: int)
    requires env.trashEnabled && Agreement(s) && s.clock <= now && src in s.files
    ensures Agreement(FileDeleted(env, s, src, now))
  {
    MarkFileKeeps(s, src, Some(now));
    ClockKeeps(MarkFile(s, src, Some(now)), now);
  }

  lemma DeleteStepKeeps(env: Env, s: State, requester: string, id: string, now: int, s': State, err: Option<Error>)
    requires Agreement(s) && s.clock <= now && DeleteStep(env, s, requester, id, now, s', err)
    ensures Agreement(s')
  {
    if err.None? {
      if env.trashEnabled {
        TrashedKeeps(env, s, id, now);
      } else {
        EraseKeeps(s, id);
      }
    }
  }

  lemma DeleteDirectoryStepKeeps(env: Env, s: State, requester: string, id: string, now: int, s': State,
                                 err: Option<Error>)
    requires Agreement(s) && s.clock <= now && DeleteDirectoryStep(env, s, requester, id, now, s', err)
    ensures Agreement(s')
  {
    if err.None? {
      FolderGoneKeeps(s, id, if env.trashEnabled then Some(now) else None, if env.trashEnabled then now else s.clock);
    }
  }

  /** Exactly when the snapshot has pruned the version asked for, the file is left without
      content. */
  lemma RestoreVersionStepIff(env: Env, s: State, requester: string, id: string, num: nat, now: int, s': State)
    requires Agreement(s) && s.clock <= now && RestoreStep(env, s, requester, id, num, now, s')
    ensures Agreement(s') <==> RestoreError(env, s, requester, id, num, now) != Some(MoveFailed)
  {
    if id in s.files && s.files[id].key.owner == requester && HasVersion(s, id, num) {
      RestoreKeepsIffSurvives(env, s, requester, id, num, now, s');
    }
  }

  lemma EraseStepKeeps(s: State, requester: string, id: string, s': State, err: Option<Error>)
    requires Agreement(s) && EraseStep(s, requester, id, s', err)
    ensures Agreement(s')
  {
    if err.None? {
      EraseKeeps(s, id);
    }
  }

  lemma RestoreFileStepKeeps(s: State, requester: string, id: string, s': State, err: Option<Error>)
    requires Agreement(s) && RestoreFileStep(s, requester, id, s', err)
    ensures Agreement(s')
  {
    if err.None? {
      MarkFileKeeps(s, id, None);
    }
  }

  lemma RemoveDirectoryStepKeeps(s: State, requester: string, id: string, s': State, err: Option<Error>)
    requires Agreement(s) && RemoveDirectoryStep(s, requester, id, s', err)
    ensures Agreement(s')
  {
    if err.None? {
      FolderGoneKeeps(s, id, None, s.clock);
    }
  }

  lemma RestoreDirectoryStepIff(s: State, requester: string, id: string, s': State, err: Option<Error>)
    requires Agreement(s) && RestoreDirectoryStep(s, requester, id, s', err)
    ensures Agreement(s') <==> err != Some(MkdirFailed)
  {
    if id in s.dirs {
      RestoreDirectoryKeepsIff(s, id);
    }
  }

  // ----- what an item in the reserved folders does

  lemma ReservedUploadBreaks(env: Env, s: State, up: UploadInput, newId: string, stagingId: string, now: int, s': State)
    requires UserPaths(s.files, s.dirs) && UploadStep(env, s, up, newId, stagingId, now, s', None)
    requires Reserved(UploadKey(env, up)) && newId !in s.files
    ensures !UserPaths(s'.files, s'.dirs)
  {
    assert FindFile(s.files, UploadKey(env, up)).None?;
    assert s'.files[newId].key == UploadKey(env, up);
  }

  lemma ReservedFileMoveBreaks(s: State, requester: string, id: string, p: Option<string>, n: Option<string>, s': State)
    requires UserPaths(s.files, s.dirs) && MoveFileStep(s, requester, id, p, n, s', None)
    requires id in s.files && Reserved(NewKey(s.files[id].key, p, n))
    ensures !UserPaths(s'.files, s'.dirs)
  {
    assert s'.files[id].key == NewKey(s.files[id].key, p, n);
  }

  lemma ReservedFolderMoveBreaks(s: State, requester: string, id: string, p: Option<string>, n: Option<string>,
                                 s': State)
    requires UserPaths(s.files, s.dirs) && MoveDirectoryStep(s, requester, id, p, n, s', None)
    requires id in s.dirs && Reserved(NewKey(s.dirs[id].key, p, n))
    ensures !UserPaths(s'.files, s'.dirs)
  {
    assert s'.dirs[id].key == NewKey(s.dirs[id].key, p, n);
  }

  lemma ReservedMkdirBreaks(env: Env, s: State, k: Key, newId: string, now: int, s': State)
    requires UserPaths(s.files, s.dirs) && MkdirStep(env, s, k, newId, now, s', None) && Reserved(k)
    ensures !UserPaths(s'.files, s'.dirs)
  {
    assert FindDir(s.dirs, k).None?;
    assert s'.dirs[newId].key == k;
  }

  lemma LandingBreaks(s: State, requester: string, id: string, p: Option<string>, n: Option<string>, s': State)
    requires Agreement(s) && MoveDirectoryStep(s, requester, id, p, n, s', None)
    requires id in s.dirs && !Reserved(NewKey(s.dirs[id].key, p, n)) && NewKey(s.dirs[id].key, p, n) != s.dirs[id].key
    requires !LandsClear(s, id, NewKey(s.dirs[id].key, p, n))
    ensures !Agreement(s')
  {
    MoveDirectoryAccepted(s, requester, id, p, n);
    NewKeyIsUserPath(s.dirs[id].key, p, n);
    MoveDirectoryKeepsIffClear(s, id, NewKey(s.dirs[id].key, p, n));
  }

  // ----- any call

  lemma PurgedKeeps(s: State, ids: seq<string>, cutoff: int, maxTotal: int, s': State)
    requires Agreement(s) && TrashListing(s, ids) && s' == Purged(s, ids, cutoff, maxTotal)
    ensures Agreement(s')
  {
    PurgeKeeps(s, Doomed(s, ids, cutoff, maxTotal), cutoff);
  }

  lemma UploadStepIff(env: Env, s: State, up: UploadInput, newId: string, stagingId: string, now: int, s': State,
                      err: Option<Error>)
    requires Agreement(s) && UploadStep(env, s, up, newId, stagingId, now, s', err)
    requires s.clock <= now && newId !in s.files
    ensures Agreement(s') <==> (err.None? ==> !Reserved(UploadKey(env, up)))
  {
    if err.None? && Reserved(UploadKey(env, up)) {
      ReservedUploadBreaks(env, s, up, newId, stagingId, now, s');
    } else {
      UploadStepKeeps(env, s, up, newId, stagingId, now, s', err);
    }
  }

  predicate ChangesContent(op: Op) {
    op.Upload? || op.RestoreVersion?
  }

  lemma ContentCallIff(env: Env, s: State, op: Op, now: int, s': State, err: Option<Error>)
    requires ChangesContent(op)
    requires Agreement(s) && Proper(s, op, now) && Step(env, s, op, now, s', err)
    ensures Agreement(s') <==> Harmless(env, s, op, err)
  {
    match op {
      case Upload(up, newId, stagingId) => UploadStepIff(env, s, up, newId, stagingId, now, s', err);
      case RestoreVersion(requester, id, num) => RestoreVersionStepIff(env, s, requester, id, num, now, s');
    }
  }

  lemma MoveFileCallIff(s: State, requester: string, id: string, p: Option<string>, n: Option<string>, s': State,
                        err: Option<Error>)
    requires Agreement(s) && MoveFileStep(s, requester, id, p, n, s', err)
    ensures Agreement(s') <==> (err.None? && id in s.files ==> !Reserved(NewKey(s.files[id].key, p, n)))
  {
    if err.None? && Reserved(NewKey(s.files[id].key, p, n)) {
      ReservedFileMoveBreaks(s, requester, id, p, n, s');
    } else {
      MoveFileStepKeeps(s, requester, id, p, n, s', err);
    }
  }

  lemma MoveDirectoryCallIff(env: Env, s: State, requester: string, id: string, p: Option<string>, n: Option<string>,
                             s': State, err: Option<Error>)
    requires Agreement(s) && MoveDirectoryStep(s, requester, id, p, n, s', err)
    ensures Agreement(s') <==> Harmless(env, s, Op.MoveDirectory(requester, id, p, n), err)
  {
    if Harmless(env, s, Op.MoveDirectory(requester, id, p, n), err) {
      MoveDirectoryStepKeeps(s, requester, id, p, n, s', err);
    } else if Reserved(NewKey(s.dirs[id].key, p, n)) {
      ReservedFolderMoveBreaks(s, requester, id, p, n, s');
    } else {
      LandingBreaks(s, requester, id, p, n, s');
    }
  }

  predicate ChangesFolders(op: Op) {
    op.Mkdir? || op.DeleteDirectory? || op.PermanentlyDeleteDirectory? || op.RestoreDirectory?
  }

  lemma FolderCallIff(env: Env, s: State, op: Op, now: int, s': State, err: Option<Error>)
    requires ChangesFolders(op)
    requires Agreement(s) && Proper(s, op, now) && Step(env, s, op, now, s', err)
    ensures Agreement(s') <==> Harmless(env, s, op, err)
  {
    match op {
      case Mkdir(owner, parentPath, name, pool, newId) =>
        var k := MkdirKey(env, owner, parentPath, name, pool);
        if err.None? && Reserved(k) {
          ReservedMkdirBreaks(env, s, k, newId, now, s');
        } else {
          CleanIsCanonical(parentPath);
          MkdirStepKeeps(env, s, k, newId, now, s', err);
        }
      case DeleteDirectory(requester, id) => DeleteDirectoryStepKeeps(env, s, requester, id, now, s', err);
      case PermanentlyDeleteDirectory(requester, id) => RemoveDirectoryStepKeeps(s, requester, id, s', err);
      case RestoreDirectory(requester, id) => RestoreDirectoryStepIff(s, requester, id, s', err);
    }
  }

  /** Whatever the call and its outcome, rows and disk still agree, if and only if it was
      harmless. */
  lemma StepKeepsAgreementIff(env: Env, s: State, op: Op, now: int, s': State, err: Option<Error>)
    requires Agreement(s) && Proper(s, op, now) && Step(env, s, op, now, s', err)
    ensures Agreement(s') <==> Harmless(env, s, op, err)
  {
    if ChangesContent(op) {
      ContentCallIff(env, s, op, now, s', err);
    } else if ChangesFolders(op) {
      FolderCallIff(env, s, op, now, s', err);
    } else {
      match op {
        case MoveFile(requester, id, p, n) => MoveFileCallIff(s, requester, id, p, n, s', err);
        case MoveDirectory(requester, id, p, n) => MoveDirectoryCallIff(env, s, requester, id, p, n, s', err);
        case Delete(requester, id) => DeleteStepKeeps(env, s, requester, id, now, s', err);
        case PermanentlyDeleteFile(requester, id) => EraseStepKeeps(s, requester, id, s', err);
        case RestoreFile(requester, id) => RestoreFileStepKeeps(s, requester, id, s', err);
        case Purge(ids, cutoff, maxTotal) => PurgedKeeps(s, ids, cutoff, maxTotal, s');
      }
    }
  }
}
