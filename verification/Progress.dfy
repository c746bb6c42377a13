/** Ordinary calls go through: what of a storage in agreement is enough for an upload, a new
    folder, a move or a restored folder to succeed (internal/storage/file_service.go). */
module Progress {
  import opened Base
  import opened PathStrings
  import opened PhysicalTree
  import opened StorageModel
  import opened Content
  import opened Uploads
  import opened Moves
  import opened MoveTree
  import opened Trash
  import opened Operations

  /** The item lies at the root, or in a folder that is there and not in the trash. */
  predicate InActiveFolder(s: State, k: Key) {
    || k.parent == []
    || exists d | d in s.dirs ::
         && s.dirs[d].deletedAt.None? && s.dirs[d].key.pool == k.pool && s.dirs[d].key.owner == k.owner
         && s.dirs[d].key.parent + [s.dirs[d].key.name] == k.parent
  }

  /** No row has this key, and no folder without a row stands in its place. */
  predicate NothingAt(s: State, k: Key) {
    && (forall f | f in s.files :: s.files[f].key != k) && (forall d | d in s.dirs :: s.dirs[d].key != k)
    && At(k) !in s.tree.dirs
  }

  lemma ParentIsOpen(s: State, k: Key)
    requires Agreement(s) && InActiveFolder(s, k)
    ensures !Blocked(s.tree, Parent(At(k)))
  {
    if k.parent == [] {
      forall i | 0 <= i <= |Parent(At(k))| ensures Parent(At(k))[..i] !in s.tree.content {
        ReservedFree(s, Parent(At(k))[..i]);
      }
    } else {
      var d :| d in s.dirs && s.dirs[d].deletedAt.None? && s.dirs[d].key.pool == k.pool
               && s.dirs[d].key.owner == k.owner && s.dirs[d].key.Full() == k.parent;
      assert At(s.dirs[d].key) == Parent(At(k));
      DirNotBlocked(s.tree, Parent(At(k)));
    }
  }

  lemma PlaceIsOpen(s: State, k: Key)
    requires Agreement(s) && InActiveFolder(s, k) && At(k) !in s.tree.content
    ensures !Blocked(s.tree, At(k))
  {
    ParentIsOpen(s, k);
    NotBlockedBelow(s.tree, At(k));
  }

  lemma NotBlockedBelow(t: Tree, p: Path)
    requires p != [] && !Blocked(t, Parent(p)) && p !in t.content
    ensures !Blocked(t, p)
  {
    forall i | 0 <= i <= |p| ensures p[..i] !in t.content {
      assert if i < |p| then p[..i] == Parent(p)[..i] else p[..i] == p;
    }
  }

  lemma NotOccupied(s: State, k: Key)
    requires NothingAt(s, k)
    ensures !Occupied(s, k)
  {}

  /** A whole stream under a good name into an active folder, where no folder stands and nothing
      in the trash has the name; over a file only if that is allowed. */
  lemma UploadGoesThrough(env: Env, s: State, up: UploadInput)
    requires Agreement(s) && up.source.Complete? && ValidName(up.name)
    requires var k := UploadKey(env, up);
             && k.pool in env.pools && !Reserved(k) && InActiveFolder(s, k) && At(k) !in s.tree.dirs
             && (forall f | f in s.files && s.files[f].key == k :: s.files[f].deletedAt.None? && !up.noOverwrite)
             && (forall d | d in s.dirs && s.dirs[d].key == k :: s.dirs[d].deletedAt.None?)
    ensures UploadError(env, s, up).None?
  {
    ParentIsOpen(s, UploadKey(env, up));
  }

  /** Over an active file, if that is allowed, wherever its folder may be. */
  lemma OverwriteGoesThrough(env: Env, s: State, up: UploadInput, id: string)
    requires Agreement(s) && up.source.Complete? && ValidName(up.name) && !up.noOverwrite
    requires id in s.files && s.files[id].key == UploadKey(env, up) && s.files[id].deletedAt.None?
    requires UploadKey(env, up).pool in env.pools
    ensures UploadError(env, s, up).None?
  {
    var k := UploadKey(env, up);
    FileHasPlace(s, id);
    assert !TrashOccupies(s, k) by {
      assert At(k) in s.tree.content;
    }
  }

  lemma FileHasPlace(s: State, id: string)
    requires UserPaths(s.files, s.dirs) && RowsBacked(s.files, s.tree) && WellFormed(s.tree) && id in s.files
    ensures At(s.files[id].key) in s.tree.content && Enterable(s.tree, s.files[id].key)
  {
    assert RowBacked(s.tree, s.files[id]);
    DirNotBlocked(s.tree, Parent(At(s.files[id].key)));
  }

  /** A good name in an active folder that no file has, nor anything in the trash. */
  lemma MkdirGoesThrough(env: Env, s: State, k: Key)
    requires Agreement(s) && ValidName(k.name) && k.pool in env.pools && UserPath(k.Full()) && InActiveFolder(s, k)
    requires forall f | f in s.files :: s.files[f].key != k
    requires forall d | d in s.dirs && s.dirs[d].key == k :: s.dirs[d].deletedAt.None?
    ensures MkdirError(env, s, k).None?
  {
    NoStray(s, k);
    PlaceIsOpen(s, k);
  }

  /** The owner's active file, under a good name, into an active folder where nothing has it. */
  lemma MoveFileGoesThrough(s: State, requester: string, id: string, newParent: Option<string>,
                            newName: Option<string>)
    requires Agreement(s) && id in s.files && s.files[id].key.owner == requester && s.files[id].deletedAt.None?
    requires var k' := NewKey(s.files[id].key, newParent, newName);
             ValidName(k'.name) && NothingAt(s, k') && InActiveFolder(s, k')
    ensures MoveFileError(s, requester, id, newParent, newName).None?
  {
    var k' := NewKey(s.files[id].key, newParent, newName);
    ParentIsOpen(s, k');
    NotOccupied(s, k');
    FileMoveAllowed(s, requester, id, newParent, newName);
  }

  lemma FileMoveAllowed(s: State, requester: string, id: string, newParent: Option<string>, newName: Option<string>)
    requires id in s.files && s.files[id].key.owner == requester && s.files[id].deletedAt.None?
    requires var k' := NewKey(s.files[id].key, newParent, newName);
             ValidName(k'.name) && !Occupied(s, k') && Open(s.tree, k')
    ensures MoveFileError(s, requester, id, newParent, newName).None?
  {}

  /** The owner's active folder, under a good name, into an active folder that is not in it, where
      nothing has the name and no folder row was left below it. */
  lemma MoveDirectoryGoesThrough(s: State, requester: string, id: string, newParent: Option<string>,
                                 newName: Option<string>)
    requires Agreement(s) && id in s.dirs && s.dirs[id].key.owner == requester && s.dirs[id].deletedAt.None?
    requires var k, k' := s.dirs[id].key, NewKey(s.dirs[id].key, newParent, newName);
             && ValidName(k'.name) && UserPath(k'.Full()) && !(k.Full() <= k'.Full())
             && NothingAt(s, k') && InActiveFolder(s, k') && (forall d | d in s.dirs :: !Inside(k', s.dirs[d].key))
    ensures MoveDirectoryError(s, requester, id, newParent, newName).None?
  {
    var k, k' := s.dirs[id].key, NewKey(s.dirs[id].key, newParent, newName);
    ParentIsOpen(s, k');
    NotOccupied(s, k');
    NoStray(s, k');
    FullPrefix(k, k');
    NothingBelow(s.tree, At(k'));
    NoneInside(s.files, s.tree, k');
    KeysApart(s.files, s.dirs, id, k');
    assert At(k) in s.tree.dirs;
    FolderMoveAllowed(s, requester, id, newParent, newName);
  }

  lemma FolderMoveAllowed(s: State, requester: string, id: string, newParent: Option<string>,
                          newName: Option<string>)
    requires id in s.dirs && s.dirs[id].key.owner == requester && s.dirs[id].deletedAt.None?
    requires var k, k' := s.dirs[id].key, NewKey(s.dirs[id].key, newParent, newName);
             && ValidName(k'.name) && !(k.Full() <= k'.Full()) && !Occupied(s, k')
             && KeysStayUnique(s.files, s.dirs, id, k') && Open(s.tree, k')
             && At(k) in s.tree.dirs && At(k') !in s.tree.content && !(At(k) <= At(k'))
    ensures MoveDirectoryError(s, requester, id, newParent, newName).None?
  {}

  /** Nothing below the destination: no two rows end up with one key. */
  lemma KeysApart(files: map<string, FileRow>, dirs: map<string, DirRow>, id: string, k': Key)
    requires UniqueKeys(files, dirs) && id in dirs && k'.pool == dirs[id].key.pool && k'.owner == dirs[id].key.owner
    requires !(dirs[id].key.Full() <= k'.Full()) && (forall d | d in dirs :: dirs[d].key != k')
    requires (forall f | f in files :: !Inside(k', files[f].key)) && (forall d | d in dirs :: !Inside(k', dirs[d].key))
    ensures KeysStayUnique(files, dirs, id, k')
  {
    var k := dirs[id].key;
    forall item: Key | !Inside(k', item) ensures UnCarried(k, k', Carried(k, k', item)) == item {
      CarriedUndone(k, k', item);
    }
    forall d | d in dirs && d != id ensures Carried(k, k', dirs[d].key) != k' {
      if Inside(k, dirs[d].key) {
        assert |Carried(k, k', dirs[d].key).parent| >= |k'.Full()| == |k'.parent| + 1;
      }
    }
  }

  function UnCarried(k: Key, k': Key, item: Key): Key {
    if Inside(k', item) then item.(parent := k.Full() + item.parent[|k'.Full()|..]) else item
  }

  lemma CarriedUndone(k: Key, k': Key, item: Key)
    requires !Inside(k', item) && k'.pool == k.pool && k'.owner == k.owner
    ensures UnCarried(k, k', Carried(k, k', item)) == item
  {
    if Inside(k, item) {
      var rest := item.parent[|k.Full()|..];
      assert item.parent == k.Full() + rest && Carried(k, k', item).parent == k'.Full() + rest;
      assert (k'.Full() + rest)[|k'.Full()|..] == rest;
    }
  }

  /** The owner's folder, when the folder it lies in is active. */
  lemma RestoreDirectoryGoesThrough(s: State, requester: string, id: string)
    requires Agreement(s) && id in s.dirs && s.dirs[id].key.owner == requester && InActiveFolder(s, s.dirs[id].key)
    ensures RestoreDirectoryError(s, requester, id).None?
  {
    PlaceIsOpen(s, s.dirs[id].key);
  }

  /** The owner's folder in which nothing active lies, with the trash on. */
  lemma DeleteDirectoryGoesThrough(env: Env, s: State, requester: string, id: string)
    requires Agreement(s) && id in s.dirs && s.dirs[id].key.owner == requester && env.trashEnabled
    requires InActiveFolder(s, s.dirs[id].key)
    requires forall f | f in s.files && s.files[f].key.owner == requester ::
               s.files[f].key.parent == s.dirs[id].key.Full() ==> s.files[f].deletedAt.Some?
    requires forall d | d in s.dirs && s.dirs[d].key.owner == requester ::
               s.dirs[d].key.parent == s.dirs[id].key.Full() ==> s.dirs[d].deletedAt.Some?
    ensures DeleteDirectoryError(env, s, requester, id).None?
  {
    PlaceIsOpen(s, s.dirs[id].key);
  }
}
