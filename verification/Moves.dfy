/** MoveFile and MoveDirectory (internal/storage/file_service.go, with the subtree
    rewrite of internal/storage/directory_sql_repository.go). */
module Moves {
  import opened Base
  import opened PathStrings
  import opened PhysicalTree
  import opened StorageModel
  import opened Content
  import opened Uploads

  function NewKey(k: Key, newParent: Option<string>, newName: Option<string>): Key {
    k.(parent := if newParent.Some? then CleanSegments(newParent.value) else k.parent,
       name := if newName.Some? then newName.value else k.name)
  }

  // ----- one file

  ghost function MoveFileError(s: State, requester: string, id: string, newParent: Option<string>,
                               newName: Option<string>): Option<Error> {
    if id !in s.files then Some(FileNotFound)
    else
      var k := s.files[id].key;
      var k' := NewKey(k, newParent, newName);
      if k.owner != requester then Some(Forbidden)
      else if s.files[id].deletedAt.Some? then Some(FileNotFound)
      else if !ValidName(k'.name) then Some(InvalidName)
      else if k' == k then None
      else if Occupied(s, k') then Some(DestinationOccupied)
      else if !Open(s.tree, k') then Some(MoveFailed)
      else None
  }

  function FileMoved(s: State, id: string, k': Key): State
    requires id in s.files
  {
    if k' == s.files[id].key then s
    else Place(Drop(Grow(s, Prefixes(Parent(At(k')))), id), id, s.files[id].(key := k'), s.clock)
  }

  lemma GrowParentKeeps(s: State, k: Key)
    requires Agreement(s) && UserPath(k.Full()) && Open(s.tree, k)
    ensures Agreement(Grow(s, Prefixes(Parent(At(k)))))
    ensures Open(Grow(s, Prefixes(Parent(At(k)))).tree, k)
    ensures Parent(At(k)) in Grow(s, Prefixes(Parent(At(k)))).tree.dirs
  {
    UserPlace(k);
    AddDirsWellFormed(s.tree, Parent(At(k)));
    forall p | p in Prefixes(Parent(At(k))) ensures DirShape(p) && p != At(k) {
      assert p in Prefixes(At(k)) by { assert p == At(k)[..|p|]; }
    }
    GrowKeeps(s, Prefixes(Parent(At(k))));
  }

  /** A dropped file may take any free place of the same pool and owner. */
  lemma DropVacatesFor(s: State, id: string, k': Key)
    requires Agreement(s) && id in s.files && UserPath(k'.Full())
    requires k'.pool == s.files[id].key.pool && k'.owner == s.files[id].key.owner
    requires !Occupied(s, k') && Open(s.tree, k') && Parent(At(k')) in s.tree.dirs
    ensures Vacated(Drop(s, id), id, k')
  {
    DropVacates(s, id);
    NoStray(s, k');
  }

  lemma FileMovedKeeps(s: State, id: string, k': Key)
    requires Agreement(s) && id in s.files && UserPath(k'.Full()) && k' != s.files[id].key
    requires k'.pool == s.files[id].key.pool && k'.owner == s.files[id].key.owner
    requires !Occupied(s, k') && Open(s.tree, k')
    ensures Agreement(FileMoved(s, id, k'))
  {
    var g := Grow(s, Prefixes(Parent(At(k'))));
    GrowParentKeeps(s, k');
    DropVacatesFor(g, id, k');
    PlaceMovedKeeps(Drop(g, id), id, k');
  }

  lemma PlaceMovedKeeps(s: State, id: string, k': Key)
    requires Vacated(s, id, k') && id in s.files && s.files[id].size == |s.files[id].sha.of|
    ensures Agreement(Place(s, id, s.files[id].(key := k'), s.clock))
  {
    PlaceKeeps(s, id, s.files[id].(key := k'), s.clock);
  }

  lemma MoveFileAccepted(s: State, requester: string, id: string, newParent: Option<string>, newName: Option<string>)
    requires MoveFileError(s, requester, id, newParent, newName).None?
    ensures id in s.files
    ensures var k' := NewKey(s.files[id].key, newParent, newName);
            k' != s.files[id].key ==> !Occupied(s, k') && Open(s.tree, k')
  {}

  // ----- a folder and everything below it

  /** The item lies inside the folder of k. */
  predicate Inside(k: Key, item: Key) {
    item.pool == k.pool && item.owner == k.owner && k.Full() <= item.parent
  }

  /** The key of an item after the folder of k has become k'. */
  function Carried(k: Key, k': Key, item: Key): Key {
    if Inside(k, item) then item.(parent := Rebase(k.Full(), k'.Full(), item.parent)) else item
  }

  function CarriedFiles(files: map<string, FileRow>, k: Key, k': Key): map<string, FileRow> {
    map j | j in files :: files[j].(key := Carried(k, k', files[j].key))
  }

  function CarriedDirs(dirs: map<string, DirRow>, id: string, k: Key, k': Key): map<string, DirRow> {
    map j | j in dirs :: dirs[j].(key := if j == id then k' else Carried(k, k', dirs[j].key))
  }

  /** The two tables still have unique keys after the transaction. */
  predicate KeysStayUnique(files: map<string, FileRow>, dirs: map<string, DirRow>, id: string, k': Key)
    requires id in dirs
  {
    UniqueKeys(CarriedFiles(files, dirs[id].key, k'), CarriedDirs(dirs, id, dirs[id].key, k'))
  }

  function FolderOutcome(s: State, id: string, k': Key): Outcome<()>
    requires id in s.dirs
  {
    if !CanMove(s.tree, At(s.dirs[id].key), At(k')) then Err(MoveFailed)
    else if !KeysStayUnique(s.files, s.dirs, id, k') then Err(UniqueViolation)
    else Ok(())
  }

  ghost function MoveDirectoryError(s: State, requester: string, id: string, newParent: Option<string>,
                                    newName: Option<string>): Option<Error> {
    if id !in s.dirs then Some(DirectoryNotFound)
    else
      var k := s.dirs[id].key;
      var k' := NewKey(k, newParent, newName);
      if k.owner != requester then Some(Forbidden)
      else if s.dirs[id].deletedAt.Some? then Some(DirectoryNotFound)
      else if !ValidName(k'.name) then Some(InvalidName)
      else if k'.Full() == k.Full() then None
      else if k.Full() <= k'.Full() then Some(InvalidMoveDestination)
      else if Occupied(s, k') then Some(DestinationOccupied)
      else match FolderOutcome(s, id, k') case Err(e) => Some(e) case Ok(_) => None
  }

  function FolderMoved(s: State, id: string, k': Key): State
    requires id in s.dirs
    requires k' == s.dirs[id].key || CanMove(s.tree, At(s.dirs[id].key), At(k'))
  {
    var k := s.dirs[id].key;
    if k' == k then s
    else s.(files := CarriedFiles(s.files, k, k'), dirs := CarriedDirs(s.dirs, id, k, k'),
            tree := Moved(s.tree, At(k), At(k')))
  }

  lemma SameFullSameKey(k: Key, newParent: Option<string>, newName: Option<string>)
    ensures NewKey(k, newParent, newName).Full() == k.Full() <==> NewKey(k, newParent, newName) == k
  {
    var k' := NewKey(k, newParent, newName);
    if k'.Full() == k.Full() {
      assert k'.parent == k'.Full()[..|k'.Full()| - 1] && k'.name == k'.Full()[|k'.Full()| - 1];
      assert k.parent == k.Full()[..|k.Full()| - 1] && k.name == k.Full()[|k.Full()| - 1];
    }
  }

  /** On disk, carrying a row is rebasing its place. */
  lemma CarriedPlace(k: Key, k': Key, item: Key)
    requires k'.pool == k.pool && k'.owner == k.owner
    ensures At(k) <= At(item) <==> Inside(k, item) || item == k
    ensures item != k ==> At(Carried(k, k', item)) == Rebase(At(k), At(k'), At(item))
    ensures Rebase(At(k), At(k'), At(k)) == At(k')
  {
    var p, q := At(k), At(item);
    if p <= q {
      assert p[0] == q[0] && p[1] == q[1];
      assert k.Full() <= item.Full() by {
        assert p[2..] == k.Full() && q[2..] == item.Full();
      }
      if k.Full() == item.Full() {
        assert p == q;
      } else {
        assert k.Full() <= item.parent;
      }
    }
    if Inside(k, item) {
      var rest := item.parent[|k.Full()|..];
      assert item.parent == k.Full() + rest;
      assert q == p + (rest + [item.name]);
      assert q[|p|..] == rest + [item.name];
      assert At(Carried(k, k', item)) == At(k') + (rest + [item.name]);
    }
  }

  /** No folder row outside the moved subtree holds a key that a file of the
      subtree is about to take. */
  ghost predicate LandsClear(s: State, id: string, k': Key)
    requires id in s.dirs
  {
    forall f, d | f in s.files && d in s.dirs && d != id
                  && Inside(s.dirs[id].key, s.files[f].key) && !Inside(s.dirs[id].key, s.dirs[d].key) ::
      Carried(s.dirs[id].key, k', s.files[f].key) != s.dirs[d].key
  }

  /** A folder move the service carries out. */
  ghost predicate Goes(s: State, id: string, k': Key) {
    && id in s.dirs && s.dirs[id].deletedAt.None?
    && k'.pool == s.dirs[id].key.pool && k'.owner == s.dirs[id].key.owner
    && CanMove(s.tree, At(s.dirs[id].key), At(k'))
    && KeysStayUnique(s.files, s.dirs, id, k')
  }

  /** And not into the reserved folders. */
  ghost predicate Movable(s: State, id: string, k': Key) {
    Goes(s, id, k') && UserPath(k'.Full())
  }

  lemma MovablePlaces(s: State, id: string, k': Key)
    requires Agreement(s) && Goes(s, id, k')
    ensures var k := s.dirs[id].key;
            && At(k) !in s.tree.content && At(k) in s.tree.dirs
            && !(At(k) <= At(k')) && !(At(k') <= At(k)) && At(k') !in s.tree.content
            && k' != k
  {
    NothingBelow(s.tree, At(k'));
    assert At(k') <= At(k');
  }

  lemma CarriedUserPath(k: Key, k': Key, item: Key)
    requires UserPath(k'.Full()) && UserPath(item.Full())
    ensures UserPath(Carried(k, k', item).Full())
  {}

  lemma FolderRows(s: State, id: string, k': Key)
    requires UserPaths(s.files, s.dirs) && Movable(s, id, k') && k' != s.dirs[id].key
    requires HistoryOrdered(s.files, s.versions, s.clock)
    ensures var r := FolderMoved(s, id, k');
            UserPaths(r.files, r.dirs) && HistoryOrdered(r.files, r.versions, r.clock)
  {
    var k := s.dirs[id].key;
    forall j | j in s.files ensures UserPath(Carried(k, k', s.files[j].key).Full()) {
      CarriedUserPath(k, k', s.files[j].key);
    }
    forall j | j in s.dirs ensures UserPath(Carried(k, k', s.dirs[j].key).Full()) {
      CarriedUserPath(k, k', s.dirs[j].key);
    }
  }

  lemma FolderTree(s: State, id: string, k': Key)
    requires Agreement(s) && Movable(s, id, k')
    ensures TreeSound(Moved(s.tree, At(s.dirs[id].key), At(k')))
  {
    var a, b := At(s.dirs[id].key), At(k');
    MovablePlaces(s, id, k');
    MovedWellFormed(s.tree, a, b);
    UserPlace(k');
    MovedShape(s.tree, a, b);
  }

  lemma MovedShape(t: Tree, a: Path, b: Path)
    requires ReservedShape(t) && CanMove(t, a, b) && a !in t.content
    requires |b| >= 3 && b[2] != VERSIONS && b[2] != STAGING
    ensures ReservedShape(Moved(t, a, b))
  {}

  /** t2 is t1 with everything at or below a carried to b. */
  ghost predicate Renames(t1: Tree, t2: Tree, a: Path, b: Path) {
    && (forall p | p in t1.content :: Rebase(a, b, p) in t2.content && t2.content[Rebase(a, b, p)] == t1.content[p])
    && (forall q | q in t2.content :: Rebase(b, a, q) in t1.content && Rebase(a, b, Rebase(b, a, q)) == q)
  }

  lemma MovableRenames(s: State, id: string, k': Key)
    requires Agreement(s) && Goes(s, id, k')
    ensures Renames(s.tree, Moved(s.tree, At(s.dirs[id].key), At(k')), At(s.dirs[id].key), At(k'))
  {
    MovablePlaces(s, id, k');
    MovedFolder(s.tree, At(s.dirs[id].key), At(k'));
  }

  /** A file row of the subtree finds its content at its new place, every other
      row at its old one. */
  lemma FolderBacked(files: map<string, FileRow>, k: Key, k': Key, t1: Tree, t2: Tree)
    requires RowsBacked(files, t1) && Renames(t1, t2, At(k), At(k')) && At(k) !in t1.content
    requires k'.pool == k.pool && k'.owner == k.owner
    ensures RowsBacked(CarriedFiles(files, k, k'), t2)
  {
    forall j | j in files ensures RowBacked(t2, CarriedFiles(files, k, k')[j]) {
      assert RowBacked(t1, files[j]);
      CarriedPlace(k, k', files[j].key);
    }
  }

  lemma VersionStays(a: Path, p: Path, b: Path)
    requires |a| >= 3 && a[2] != VERSIONS && |p| == 5 && p[2] == VERSIONS
    ensures Rebase(a, b, p) == p
  {}

  lemma FolderHistory(files: map<string, FileRow>, versions: map<string, seq<VersionRow>>, k: Key, k': Key, t1: Tree,
                      t2: Tree)
    requires HistoryBacked(files, versions, t1) && Renames(t1, t2, At(k), At(k')) && At(k)[2] != VERSIONS
    ensures HistoryBacked(files, versions, t2)
  {}

  lemma FolderRecords(files: map<string, FileRow>, versions: map<string, seq<VersionRow>>, k: Key, k': Key, t1: Tree,
                      t2: Tree)
    requires HistoryBacked(files, versions, t1) && NothingElse(files, versions, t1)
    requires Renames(t1, t2, At(k), At(k')) && At(k)[2] != VERSIONS && At(k) !in t1.content
    requires k'.pool == k.pool && k'.owner == k.owner
    ensures NothingElse(CarriedFiles(files, k, k'), versions, t2)
  {
    var files' := CarriedFiles(files, k, k');
    forall q | q in t2.content ensures Recorded(files', versions, q) {
      FolderRecord(files, versions, k, k', t1, Rebase(At(k'), At(k), q));
    }
  }

  lemma FolderRecord(files: map<string, FileRow>, versions: map<string, seq<VersionRow>>, k: Key, k': Key, t: Tree,
                     p: Path)
    requires HistoryBacked(files, versions, t) && Recorded(files, versions, p) && p != At(k)
    requires At(k)[2] != VERSIONS && k'.pool == k.pool && k'.owner == k.owner
    ensures Recorded(CarriedFiles(files, k, k'), versions, Rebase(At(k), At(k'), p))
  {
    var files' := CarriedFiles(files, k, k');
    if j :| j in files && At(files[j].key) == p {
      CarriedPlace(k, k', files[j].key);
      assert At(files'[j].key) == Rebase(At(k), At(k'), p);
    } else {
      KeysShape(t, files[p[3]].key, p[3], versions[p[3]]);
      VersionStays(At(k), p, At(k'));
    }
  }

  lemma FolderActive(s: State, id: string, k': Key, d: string)
    requires Agreement(s) && Movable(s, id, k') && d in s.dirs && s.dirs[d].deletedAt.None?
    ensures var r := FolderMoved(s, id, k'); At(r.dirs[d].key) in r.tree.dirs
  {
    var k := s.dirs[id].key;
    MovablePlaces(s, id, k');
    CarriedPlace(k, k', s.dirs[d].key);
    assert At(s.dirs[d].key) in s.tree.dirs + Prefixes(Parent(At(k')));
  }

  /** The new key of a folder row. */
  function CarriedDir(id: string, d: string, k: Key, k': Key, item: Key): Key {
    if d == id then k' else Carried(k, k', item)
  }

  /** A folder row that moves along lands on no file. */
  lemma CarriedDirClear(k: Key, k': Key, item: Key, t1: Tree, t2: Tree)
    requires Renames(t1, t2, At(k), At(k')) && !(At(k') <= At(k))
    requires k'.pool == k.pool && k'.owner == k.owner
    requires item == k || Inside(k, item)
    requires At(item) !in t1.content
    ensures Rebase(At(k), At(k'), At(item)) !in t2.content
  {
    CarriedPlace(k, k', item);
    RebaseBack(At(k), At(k'), At(item));
  }

  /** A file on a folder row that stayed put has come from inside. */
  lemma LandedFile(files: map<string, FileRow>, versions: map<string, seq<VersionRow>>, k: Key, k': Key, t1: Tree,
                   t2: Tree, spot: Key)
    requires RowsBacked(files, t1) && At(spot) !in t1.content && UserPath(spot.Full())
    requires HistoryBacked(files, versions, t2) && Recorded(CarriedFiles(files, k, k'), versions, At(spot))
    ensures exists f | f in files :: Inside(k, files[f].key) && Carried(k, k', files[f].key) == spot
  {}

  /** After the move, no folder row sits on a file exactly when no file of the
      subtree has landed on a folder row from outside. */
  lemma FolderOnFile(s: State, id: string, k': Key)
    requires Agreement(s) && Movable(s, id, k')
    ensures var r := FolderMoved(s, id, k');
            (forall d | d in s.dirs :: At(r.dirs[d].key) !in r.tree.content) <==> LandsClear(s, id, k')
  {
    var k := s.dirs[id].key;
    MovablePlaces(s, id, k');
    MovableRenames(s, id, k');
    UserPlace(k);
    var r := FolderMoved(s, id, k');
    FolderBacked(s.files, k, k', s.tree, r.tree);
    FolderHistory(s.files, s.versions, k, k', s.tree, r.tree);
    FolderRecords(s.files, s.versions, k, k', s.tree, r.tree);
    OnFileIff(s.files, s.versions, s.dirs, id, k', s.tree, r.tree);
  }

  lemma OnFileIff(files: map<string, FileRow>, versions: map<string, seq<VersionRow>>, dirs: map<string, DirRow>,
                  id: string, k': Key, t1: Tree, t2: Tree)
    requires id in dirs && Renames(t1, t2, At(dirs[id].key), At(k')) && !(At(k') <= At(dirs[id].key))
    requires k'.pool == dirs[id].key.pool && k'.owner == dirs[id].key.owner
    requires UserPaths(files, dirs) && UniqueKeys(files, dirs) && FoldersSound(dirs, t1)
    requires RowsBacked(files, t1) && HistoryBacked(files, versions, t2)
    requires RowsBacked(CarriedFiles(files, dirs[id].key, k'), t2)
    requires NothingElse(CarriedFiles(files, dirs[id].key, k'), versions, t2)
    ensures (forall d | d in dirs :: At(CarriedDirs(dirs, id, dirs[id].key, k')[d].key) !in t2.content)
       <==> (forall f, d | f in files && d in dirs && d != id
                  && Inside(dirs[id].key, files[f].key) && !Inside(dirs[id].key, dirs[d].key) ::
                Carried(dirs[id].key, k', files[f].key) != dirs[d].key)
  {
    var k := dirs[id].key;
    var dirs' := CarriedDirs(dirs, id, k, k');
    forall d | d in dirs && (d == id || Inside(k, dirs[d].key)) ensures At(dirs'[d].key) !in t2.content {
      CarriedPlace(k, k', dirs[d].key);
      CarriedDirClear(k, k', dirs[d].key, t1, t2);
    }
    forall d | d in dirs && d != id && !Inside(k, dirs[d].key) && At(dirs[d].key) in t2.content
      ensures exists f | f in files :: Inside(k, files[f].key) && Carried(k, k', files[f].key) == dirs[d].key
    {
      LandedFile(files, versions, k, k', t1, t2, dirs[d].key);
    }
    forall f, d | f in files && d in dirs && Carried(k, k', files[f].key) == dirs[d].key
      ensures At(dirs[d].key) in t2.content
    {
      assert RowBacked(t2, CarriedFiles(files, k, k')[f]);
    }
  }

  lemma FolderBacking(files: map<string, FileRow>, versions: map<string, seq<VersionRow>>, k: Key, k': Key, t1: Tree,
                      t2: Tree)
    requires RowsBacked(files, t1) && HistoryBacked(files, versions, t1) && NothingElse(files, versions, t1)
    requires Renames(t1, t2, At(k), At(k')) && UserPath(k.Full()) && At(k) !in t1.content
    requires k'.pool == k.pool && k'.owner == k.owner
    ensures var files' := CarriedFiles(files, k, k');
            RowsBacked(files', t2) && HistoryBacked(files', versions, t2) && NothingElse(files', versions, t2)
  {
    UserPlace(k);
    FolderBacked(files, k, k', t1, t2);
    FolderHistory(files, versions, k, k', t1, t2);
    SameHomes(files, CarriedFiles(files, k, k'), versions, t2);
    FolderRecords(files, versions, k, k', t1, t2);
  }

  /** Everything but the soundness of the folder rows survives any folder move. */
  lemma FolderKeepsRest(s: State, id: string, k': Key)
    requires Agreement(s) && Movable(s, id, k')
    ensures var r := FolderMoved(s, id, k');
            && UserPaths(r.files, r.dirs) && HistoryOrdered(r.files, r.versions, r.clock)
            && TreeSound(r.tree) && RowsBacked(r.files, r.tree)
            && HistoryBacked(r.files, r.versions, r.tree) && NothingElse(r.files, r.versions, r.tree)
            && UniqueKeys(r.files, r.dirs)
  {
    MovablePlaces(s, id, k');
    MovableRenames(s, id, k');
    FolderRows(s, id, k');
    FolderTree(s, id, k');
    FolderBacking(s.files, s.versions, s.dirs[id].key, k', s.tree, FolderMoved(s, id, k').tree);
  }

  lemma FolderFoldersIff(s: State, id: string, k': Key)
    requires Agreement(s) && Movable(s, id, k')
    ensures var r := FolderMoved(s, id, k'); FoldersSound(r.dirs, r.tree) <==> LandsClear(s, id, k')
  {
    var r := FolderMoved(s, id, k');
    MovablePlaces(s, id, k');
    FolderOnFile(s, id, k');
    forall d | d in s.dirs && s.dirs[d].deletedAt.None? ensures At(r.dirs[d].key) in r.tree.dirs {
      FolderActive(s, id, k', d);
    }
  }

  /** MoveDirectory keeps rows and disk in agreement exactly when no file of the
      subtree lands on a folder row that was already under the destination. */
  lemma MoveDirectoryKeepsIffClear(s: State, id: string, k': Key)
    requires Agreement(s) && Movable(s, id, k')
    ensures Agreement(FolderMoved(s, id, k')) <==> LandsClear(s, id, k')
  {
    FolderKeepsRest(s, id, k');
    FolderFoldersIff(s, id, k');
  }
}
